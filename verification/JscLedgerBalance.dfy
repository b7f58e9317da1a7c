/** Every protect is owned by exactly one record: scope handles, the pending exception, an exception being
    reported, strong references, unsettled promises and cached globals. */
module JscLedgerBalance {
  import opened Common
  import opened JscLedger

  // ---- sums over a sequence ----------------------------------------------------------------------

  function Total<T>(s: seq<T>, f: T -> nat): nat {
    if s == [] then 0 else Total(s[..|s| - 1], f) + f(s[|s| - 1])
  }

  lemma TotalAppend<T>(s: seq<T>, x: T, f: T -> nat)
    ensures Total(s + [x], f) == Total(s, f) + f(x)
  {
    assert (s + [x])[..|s|] == s;
  }

  lemma {:induction false} TotalUpdate<T>(s: seq<T>, i: nat, x: T, f: T -> nat)
    requires i < |s|
    ensures Total(s[i := x], f) + f(s[i]) == Total(s, f) + f(x)
    ensures f(s[i]) <= Total(s, f)
  {
    var n := |s| - 1;
    if i < n {
      TotalUpdate(s[..n], i, x, f);
      assert s[i := x][..n] == s[..n][i := x];
    } else {
      assert s[i := x][..n] == s[..n];
    }
  }

  lemma {:induction false} TotalSame<T>(s: seq<T>, t: seq<T>, f: T -> nat)
    requires |s| == |t| && forall i | 0 <= i < |s| :: f(s[i]) == f(t[i])
    ensures Total(s, f) == Total(t, f)
  {
    if s != [] { TotalSame(s[..|s| - 1], t[..|t| - 1], f); }
  }

  // ---- who owns protects of v --------------------------------------------------------------------

  function InScope(v: Val): Scope -> nat { (s: Scope) => multiset(s.handles)[v] }

  function InRef(v: Val): Ref -> nat { (r: Ref) => Holds(r)[v] }

  function InDeferred(v: Val): Deferred -> nat {
    (d: Deferred) => if d.state == Settled then 0 else One(d.resolve, v) + One(d.reject, v)
  }

  function InFrame(v: Val): Frame -> nat { (f: Frame) => if f.Surfacing? then One(f.error, v) else 0 }

  function One(x: Val, v: Val): nat { if x == v then 1 else 0 }

  function Owes(e: Env, v: Val): nat {
    Total(e.scopes, InScope(v)) + Owned(e.pending)[v] + Total(e.frames, InFrame(v)) + Total(e.refs, InRef(v))
    + Total(e.deferreds, InDeferred(v)) + e.cached[v]
  }

  /** v is protected exactly so many times more than somebody owns it. */
  predicate Off(e: Env, v: Val, extra: nat) { e.protects[v] == Owes(e, v) + extra }

  /** Every protect has exactly one owner. */
  ghost predicate Balanced(e: Env) { forall v :: e.protects[v] == Owes(e, v) }

  /** Every owner has its protect. */
  ghost predicate Covered(e: Env) { forall v :: e.protects[v] >= Owes(e, v) }

  // ---- the primitives ----------------------------------------------------------------------------

  lemma PushBalance(e: Env, x: Val, v: Val)
    requires |e.scopes| > 0
    ensures Owes(Push(e, x), v) == Owes(e, v) + One(x, v)
    ensures Push(e, x).protects[v] == e.protects[v] + One(x, v)
  {
    var n := |e.scopes| - 1;
    TotalUpdate(e.scopes, n, e.scopes[n].(handles := e.scopes[n].handles + [x]), InScope(v));
  }

  lemma PopScopeBalance(e: Env, v: Val, extra: nat)
    requires |e.scopes| > 0 && Off(e, v, extra)
    ensures Off(PopScope(e), v, extra)
  {
    var n := |e.scopes| - 1;
    assert Total(e.scopes, InScope(v)) == Total(e.scopes[..n], InScope(v)) + InScope(v)(e.scopes[n]);
  }

  lemma {:induction false} UnwindBalance(e: Env, depth: nat, v: Val, extra: nat)
    requires |e.scopes| > 0 && Off(e, v, extra)
    ensures Off(Unwind(e, depth), v, extra)
    decreases |e.scopes|
  {
    PopScopeBalance(e, v, extra);
    if |e.scopes| > 1 && !IsTop(e, Callback(depth)) { UnwindBalance(PopScope(e), depth, v, extra); }
  }

  lemma RecordBalance(e: Env, x: Val, v: Val, extra: nat)
    requires Off(e, v, extra)
    ensures Off(Record(e, x), v, extra)
  {
  }

  lemma NewRefBalance(e: Env, r: Ref, v: Val, extra: nat)
    requires Off(e, v, extra)
    ensures Off(NewRef(e, r), v, extra)
  {
    TotalAppend(e.refs, r, InRef(v));
  }

  lemma PutRefOwes(e: Env, i: nat, r: Ref, v: Val)
    requires i < |e.refs|
    ensures Owes(PutRef(e, i, r), v) + Holds(e.refs[i])[v] == Owes(e, v) + Holds(r)[v]
    ensures Holds(e.refs[i])[v] <= Owes(e, v)
  {
    TotalUpdate(e.refs, i, r, InRef(v));
  }

  lemma PushFrameOwes(e: Env, f: Frame, v: Val)
    ensures Owes(e.(frames := e.frames + [f]), v) == Owes(e, v) + InFrame(v)(f)
  {
    TotalAppend(e.frames, f, InFrame(v));
  }

  lemma PopFrameOwes(e: Env, v: Val)
    requires e.frames != []
    ensures Owes(PopFrame(e), v) + InFrame(v)(e.frames[|e.frames| - 1]) == Owes(e, v)
  {
  }

  lemma PutDeferredOwes(e: Env, i: nat, d: Deferred, v: Val)
    requires i < |e.deferreds|
    ensures Owes(e.(deferreds := e.deferreds[i := d]), v) + InDeferred(v)(e.deferreds[i])
         == Owes(e, v) + InDeferred(v)(d)
    ensures InDeferred(v)(e.deferreds[i]) <= Owes(e, v)
  {
    TotalUpdate(e.deferreds, i, d, InDeferred(v));
  }

  // ---- one step ----------------------------------------------------------------------------------

  /** The count of a live strong reference is about to wrap to zero. */
  predicate Overflows(e: Env, s: Step) {
    && s.Strengthen? && !e.aborted && NativeRuns(e) && LiveRef(e, s.r)
    && e.refs[s.r].weakable && e.refs[s.r].alive && e.refs[s.r].count == 0xFFFF_FFFF
  }

  lemma EscapeBalance(e: Env, id: nat, x: Val, v: Val, extra: nat)
    requires |e.scopes| > 0 && Off(e, v, extra)
    ensures Off(DoEscape(e, id, x), v, extra)
  {
    var n := |e.scopes| - 1;
    if n >= 1 {
      var s1 := e.scopes[n := e.scopes[n].(escaped := true)];
      TotalUpdate(e.scopes, n, e.scopes[n].(escaped := true), InScope(v));
      TotalUpdate(s1, n - 1, e.scopes[n - 1].(handles := e.scopes[n - 1].handles + [x]), InScope(v));
    }
  }

  lemma OpenBalance(e: Env, s: Scope, v: Val)
    requires s.handles == []
    ensures Owes(e.(scopes := e.scopes + [s]), v) == Owes(e, v)
  {
    TotalAppend(e.scopes, s, InScope(v));
  }

  lemma TakeBalance(e: Env, v: Val, extra: nat)
    requires |e.scopes| > 0 && Off(e, v, extra)
    ensures Off(DoTakeException(e), v, extra)
  {
    PushBalance(e, if e.pending.Some? then e.pending.value else UNDEFINED, v);
  }

  /** A new reference reads its value, and protects it unless it is weakable and uncounted. */
  lemma MakeReferenceBalance(e: Env, x: Val, isObject: bool, count: uint32, landed: bool, v: Val, extra: nat)
    requires Off(e, v, extra)
    ensures Off(MakeReference(e, x, isObject, count, landed), v, extra)
    ensures var made := MakeReference(e, x, isObject, count, landed).refs;
      && |made| == |e.refs| + 1 && Reads(made[|e.refs|]) == Some(x)
      && Holds(made[|e.refs|])
         == if count > 0 || !isObject || (WrapHolder(e, x).None? && !landed) then multiset{x} else multiset{}
  {
    hide Owes, FindWrap;
    var h := Holder(x, landed, false, 0, false, e.experimental, false);
    NewHolderOwes(e, h, v);
    var strong := Ref(x, count, false, 0, true, false);
    NewRefBalance(e, strong, v, extra);
    NewRefBalance(NewHolder(e, h), strong, v, extra);
    NewRefBalance(NewHolder(e, h), WeakRef(x, count, |e.holders|), v, extra);
    if WrapHolder(e, x).Some? { NewRefBalance(e, WeakRef(x, count, WrapHolder(e, x).value), v, extra); }
  }

  lemma NewHolderOwes(e: Env, h: Holder, v: Val)
    ensures Owes(NewHolder(e, h), v) == Owes(e, v)
  {
  }

  lemma AttachBalance(e: Env, h: Holder, wantsRef: bool, v: Val, extra: nat)
    requires Off(e, v, extra)
    ensures Off(Attach(e, h, wantsRef), v, extra)
  {
    NewRefBalance(NewHolder(e, h), WeakRef(h.anchor, 0, |e.holders|), v, extra);
  }

  lemma DeleteRefBalance(e: Env, r: nat, v: Val, extra: nat)
    requires r < |e.refs| && Off(e, v, extra)
    ensures Off(DoDeleteRef(e, r), v, extra)
  {
    PutRefOwes(e, r, e.refs[r].(deleted := true), v);
  }

  /** Counting up keeps the balance unless the count wraps while it protects something. */
  lemma StrengthenBalance(e: Env, r: nat, v: Val, extra: nat)
    requires LiveRef(e, r) && Off(e, v, extra)
    ensures
      var wraps := e.refs[r].weakable && e.refs[r].alive && e.refs[r].count == 0xFFFF_FFFF;
      Off(DoStrengthen(e, r), v, extra + if wraps then One(e.refs[r].value, v) else 0)
  {
    hide Owes, Holds;
    var ref := e.refs[r];
    var n := (ref.count + 1) % 0x1_0000_0000;
    PutRefOwes(e, r, ref.(count := n), v);
    CountHolds(ref, n, v);
    SameOwes(DoStrengthen(e, r), PutRef(e, r, ref.(count := n)), v);
  }

  lemma CountHolds(r: Ref, n: uint32, v: Val)
    requires !r.deleted
    ensures Holds(r.(count := n))[v] + (if r.weakable && r.alive && r.count > 0 && n == 0 then One(r.value, v) else 0)
         == Holds(r)[v] + (if r.weakable && r.alive && r.count == 0 && n > 0 then One(r.value, v) else 0)
  {
  }

  lemma WeakenBalance(e: Env, r: nat, v: Val, extra: nat)
    requires LiveRef(e, r) && Off(e, v, extra)
    ensures Off(DoWeaken(e, r), v, extra)
  {
    hide Owes, Holds;
    var ref := e.refs[r];
    if ref.count > 0 {
      PutRefOwes(e, r, ref.(count := ref.count - 1), v);
      CountHolds(ref, ref.count - 1, v);
      SameOwes(DoWeaken(e, r), PutRef(e, r, ref.(count := ref.count - 1)), v);
    }
  }

  lemma PromiseBalance(e: Env, resolve: Val, reject: Val, promise: Val, v: Val, extra: nat)
    requires |e.scopes| > 0 && Off(e, v, extra)
    ensures var e1 := DoCreatePromise(e, resolve, reject, promise); Off(e1, v, extra)
  {
    var d := Deferred(resolve, reject, Open);
    TotalAppend(e.deferreds, d, InDeferred(v));
    PushBalance(e.(protects := e.protects + multiset{resolve} + multiset{reject}, deferreds := e.deferreds + [d]),
                promise, v);
  }

  lemma SettleBalance(e: Env, d: nat, v: Val)
    requires d < |e.deferreds| && e.deferreds[d].state == Open
    ensures Owes(DoSettle(e, d), v) == Owes(e, v)
  {
    var e1 := e.(deferreds := e.deferreds[d := e.deferreds[d].(state := InProgress)]);
    PutDeferredOwes(e, d, e.deferreds[d].(state := InProgress), v);
    PushFrameOwes(e1, Settling(d), v);
  }

  lemma EndSettleBalance(e: Env, d: nat, v: Val, extra: nat)
    requires d < |e.deferreds| && e.deferreds[d].state == InProgress && Off(e, v, extra)
    ensures Off(EndSettle(e, d), v, extra)
  {
    PutDeferredOwes(e, d, e.deferreds[d].(state := Settled), v);
  }

  /** The promise a frame is settling is still owned. */
  ghost predicate SettlesOpen(e: Env) {
    Top(e).Some? && Top(e).value.Settling? ==>
      Top(e).value.d < |e.deferreds| && e.deferreds[Top(e).value.d].state == InProgress
  }

  lemma JsReturnsBalance(e: Env, threw: Option<Val>, v: Val, extra: nat)
    requires SettlesOpen(e) && Enabled(e, JsReturns(threw)) && Off(e, v, extra)
    ensures Off(DoJsReturns(e, threw), v, extra)
  {
    hide Owes;
    PopFrameOwes(e, v);
    var e1 := PopFrame(e);
    var e2 := e1;
    if Top(e).value.Settling? {
      EndSettleBalance(e1, Top(e).value.d, v, extra);
      e2 := EndSettle(e1, Top(e).value.d);
    }
    if threw.Some? && !Top(e).value.InQuery? { RecordBalance(e2, threw.value, v, extra); }
  }

  lemma EnterBalance(e: Env, v: Val)
    ensures Owes(DoEnterCallback(e), v) == Owes(e, v)
  {
    hide Owes;
    var n := |e.scopes|;
    PushFrameOwes(e, InCallback(n, e.scopes), v);
    OpenBalance(e.(frames := e.frames + [InCallback(n, e.scopes)]), Scope(Callback(n), false, false, []), v);
  }

  lemma LeaveBalance(e: Env, v: Val, extra: nat)
    requires |e.scopes| > 0 && Enabled(e, LeaveCallback) && Off(e, v, extra)
    ensures Off(DoLeaveCallback(e), v, extra)
  {
    hide Unwind, Owes;
    PopFrameOwes(e, v);
    UnwindBalance(PopFrame(e), Top(e).value.depth, v, extra);
    ForwardBalance(Unwind(PopFrame(e), Top(e).value.depth), v, extra);
  }

  lemma ForwardBalance(e: Env, v: Val, extra: nat)
    requires Off(e, v, extra)
    ensures Off(Forward(e), v, extra)
  {
  }

  /** A holder dies only when its references protect nothing through it. */
  lemma CollectBalance(e: Env, h: nat, v: Val)
    requires h < |e.holders| && forall i | 0 <= i < |e.refs| :: Holds(Kill(e.refs[i], h)) == Holds(e.refs[i])
    ensures Owes(DoCollect(e, h), v) == Owes(e, v)
  {
    TotalSame(e.refs, KillAll(e.refs, h), InRef(v));
  }

  lemma NextFinalizerBalance(e: Env, v: Val)
    requires e.queue != []
    ensures Owes(DoNextFinalizer(e), v) == Owes(e, v)
  {
    PushFrameOwes(e, InFinalizer(e.queue[0]), v);
  }

  lemma FinalizerReturnsBalance(e: Env, v: Val)
    requires Enabled(e, FinalizerReturns)
    ensures Owes(DoFinalizerReturns(e), v) == Owes(e, v)
  {
    hide Owes;
    PopFrameOwes(e, v);
    var e1 := PopFrame(e).(inGc := false);
    SameOwes(e1, PopFrame(e), v);
    if e.pending.Some? { SurfacingOwes(e1, v); }
  }

  lemma SurfacingOwes(e: Env, v: Val)
    requires e.pending.Some?
    ensures Owes(e.(pending := None, frames := e.frames + [Surfacing(e.pending.value)]), v) == Owes(e, v)
  {
    TotalAppend(e.frames, Surfacing(e.pending.value), InFrame(v));
  }

  lemma SurfacedBalance(e: Env, v: Val, extra: nat)
    requires Enabled(e, Surfaced) && Off(e, v, extra)
    ensures Off(DoSurfaced(e), v, extra)
  {
    hide Owes;
    PopFrameOwes(e, v);
    SameOwes(DoSurfaced(e), PopFrame(e), v);
  }

  /** What the steps that touch the collector and the promises need of the state. */
  ghost predicate Ready(e: Env, s: Step) {
    && CanStep(e) && SettlesOpen(e)
    && (s.Collect? && Enabled(e, s) ==> forall i | 0 <= i < |e.refs| :: Holds(Kill(e.refs[i], s.h)) == Holds(e.refs[i]))
  }

  /** What a step on references may rely on. */
  lemma RefEnabled(e: Env, s: Step)
    requires RefStep(s) && Enabled(e, s)
    ensures s.DeleteRef? || s.Strengthen? || s.Weaken? ==> LiveRef(e, s.r) && NativeRuns(e)
    ensures s.Collect? ==> s.h < |e.holders| && !e.holders[s.h].collected
    ensures s.FreeBuffer? ==> s.b < |e.buffers|
  {
  }

  lemma ScopeStepBalance(e: Env, s: Step, v: Val, extra: nat)
    requires ScopeStep(s) && Ready(e, s) && Enabled(e, s) && Off(e, v, extra)
    ensures Off(Exec(e, s), v, extra)
  {
    hide Owes, Unwind, Holds, PopScope, IsTop, Push, Record, DoEscape, DoTakeException, DoEnterCallback, DoLeaveCallback;
    match s
    case AddHandle(x) => PushBalance(e, x, v);
    case OpenScope(escapable) =>
      var scope := Scope(Api(e.nextScope), escapable, false, []);
      OpenBalance(e, scope, v);
      SameOwes(DoOpenScope(e, escapable), e.(scopes := e.scopes + [scope]), v);
    case CloseScope(id) => PopScopeBalance(e, v, extra);
    case Escape(id, x) => EscapeBalance(e, id, x, v, extra);
    case Throw(x) => RecordBalance(e, x, v, extra);
    case TakeException => TakeBalance(e, v, extra);
    case GetValue(r) => if Reads(e.refs[r]).Some? { PushBalance(e, Reads(e.refs[r]).value, v); }
    case EnterCallback =>
      EnterBalance(e, v);
      EnterKeepsProtects(e);
    case LeaveCallback => LeaveBalance(e, v, extra);
    case CreateBuffer(x, finalizer) =>
      PushBalance(e, x, v);
      SameOwes(Push(e, x), Exec(e, s), v);
  }

  lemma EnterKeepsProtects(e: Env)
    ensures DoEnterCallback(e).protects == e.protects
  {
  }

  lemma ExternalBalance(e: Env, x: Val, data: nat, finalizer: bool, v: Val, extra: nat)
    requires |e.scopes| > 0 && Off(e, v, extra)
    ensures Off(DoCreateExternal(e, x, data, finalizer), v, extra)
  {
    hide Owes, Push;
    var h := Holder(x, true, false, data, finalizer, false, false);
    NewHolderOwes(e, h, v);
    PushBalance(NewHolder(e, h), x, v);
  }

  lemma RefStepBalance(e: Env, s: Step, v: Val, extra: nat)
    requires RefStep(s) && Ready(e, s) && Enabled(e, s) && Off(e, v, extra) && !e.aborted
    ensures Off(Exec(e, s), v, extra + if Overflows(e, s) then One(e.refs[s.r].value, v) else 0)
  {
    hide Exec, Enabled;
    if MakeStep(s) {
      MakeStepBalance(e, s, v, extra);
    } else {
      ChangeStepBalance(e, s, v, extra);
    }
  }

  lemma MakeStepBalance(e: Env, s: Step, v: Val, extra: nat)
    requires MakeStep(s) && Ready(e, s) && Enabled(e, s) && Off(e, v, extra) && !e.aborted
    ensures Off(Exec(e, s), v, extra + if Overflows(e, s) then One(e.refs[s.r].value, v) else 0)
  {
    hide Owes, Holds, WrapHolder, Backs, KillAll, MakeReference, Attach, DoDeleteRef, DoStrengthen, DoWeaken, Push, Enabled,
      DoCollect, DoPost, DoCreateExternal;
    RefEnabled(e, s);
    match s
    case CreateReference(x, isObject, count, landed) => MakeReferenceBalance(e, x, isObject, count, landed, v, extra);
    case Wrap(x, data, finalizer, wantsRef) =>
      AttachBalance(e, Holder(x, true, true, data, finalizer, e.experimental, false), wantsRef, v, extra);
    case AddFinalizer(x, wantsRef) =>
      AttachBalance(e, Holder(x, true, false, 0, true, e.experimental, false), wantsRef, v, extra);
    case CreateExternal(x, data, finalizer) =>
      ExternalBalance(e, x, data, finalizer, v, extra);
  }

  lemma ChangeStepBalance(e: Env, s: Step, v: Val, extra: nat)
    requires RefStep(s) && !MakeStep(s) && Ready(e, s) && Enabled(e, s) && Off(e, v, extra) && !e.aborted
    ensures Off(Exec(e, s), v, extra + if Overflows(e, s) then One(e.refs[s.r].value, v) else 0)
  {
    hide Owes, Holds, WrapHolder, Backs, KillAll, MakeReference, Attach, DoDeleteRef, DoStrengthen, DoWeaken, Push, Enabled,
      DoCollect, DoPost, DoCreateExternal, DoRemoveWrap, ExecScope, ExecFrame, CanStep;
    RefEnabled(e, s);
    assert Exec(e, s) == ExecRef(e, s);
    match s
    case RemoveWrap(x) => SameOwes(DoRemoveWrap(e, x), e, v);
    case DeleteRef(r) => DeleteRefBalance(e, r, v, extra);
    case Strengthen(r) => StrengthenBalance(e, r, v, extra);
    case Weaken(r) => WeakenBalance(e, r, v, extra);
    case Collect(h) => CollectBalance(e, h, v);
    case PostFinalizer(hasCallback) => SameOwes(e, Exec(e, s), v);
    case FreeBuffer(b) => SameOwes(e, Exec(e, s), v);
  }

  lemma FrameStepBalance(e: Env, s: Step, v: Val, extra: nat)
    requires !ScopeStep(s) && !RefStep(s) && Ready(e, s) && Enabled(e, s) && Off(e, v, extra)
    ensures Off(Exec(e, s), v, extra)
  {
    hide Owes, Holds, DoCreatePromise, DoJsReturns, ExecScope, ExecRef;
    match s
    case CreatePromise(resolve, reject, promise) => PromiseBalance(e, resolve, reject, promise, v, extra);
    case Settle(d) => SettleBalance(e, d, v);
    case CallJs => PushFrameOwes(e, InJs, v);
    case QueryJs => PushFrameOwes(e, InQuery, v);
    case BuildFactory(x) => FactoryOwes(e, x, v);
    case JsReturns(threw) => JsReturnsBalance(e, threw, v, extra);
    case Drain => PushFrameOwes(e, InDrain, v);
    case NextFinalizer => NextFinalizerBalance(e, v);
    case FinalizerReturns => FinalizerReturnsBalance(e, v);
    case Surfaced => SurfacedBalance(e, v, extra);
    case DrainEnds => PopFrameOwes(e, v);
  }

  /** Every step moves the protect count of every value by what its owners gain or lose; only a count that wraps
      leaves one protect without an owner. */
  lemma ExecBalance(e: Env, s: Step, v: Val, extra: nat)
    requires Ready(e, s) && Enabled(e, s) && Off(e, v, extra) && !e.aborted
    ensures Off(Exec(e, s), v, extra + if Overflows(e, s) then One(e.refs[s.r].value, v) else 0)
  {
    hide Owes, Exec;
    if ScopeStep(s) {
      ScopeStepBalance(e, s, v, extra);
    } else if RefStep(s) {
      RefStepBalance(e, s, v, extra);
    } else {
      FrameStepBalance(e, s, v, extra);
    }
  }

  lemma SameOwes(e: Env, r: Env, v: Val)
    requires e.scopes == r.scopes && e.pending == r.pending && e.frames == r.frames && e.refs == r.refs
    requires e.deferreds == r.deferreds && e.cached == r.cached
    ensures Owes(e, v) == Owes(r, v)
  {
  }

  lemma FactoryOwes(e: Env, x: Val, v: Val)
    ensures Owes(e.(protects := e.protects + multiset{x}, cached := e.cached + multiset{x}), v) == Owes(e, v) + One(x, v)
  {
  }
}
