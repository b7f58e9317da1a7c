/** What single calls of the JavaScriptCore environment achieve, and which of them undo each other. */
module JscLedgerLaws {
  import opened Common
  import opened JscLedger
  import opened JscLedgerBalance
  import opened JscLedgerSafety
  import opened JscLedgerRuns
  import opened JscLedgerFinalizers

  // ---- exceptions --------------------------------------------------------------------------------

  /** The handles of the innermost scope. */
  function Handles(e: Env): seq<Val>
    requires |e.scopes| > 0
  {
    e.scopes[|e.scopes| - 1].handles
  }

  /** napi_get_and_clear_last_exception hands out the pending exception, whose protect the new handle takes over; with
      none pending it hands out undefined. */
  lemma TakenIsPending(e: Env)
    requires |e.scopes| > 0
    ensures var r := DoTakeException(e);
      && |r.scopes| == |e.scopes| && r.pending == None
      && Handles(r) == Handles(e) + [if e.pending.Some? then e.pending.value else UNDEFINED]
      && r.protects == (if e.pending.Some? then e.protects else e.protects + multiset{UNDEFINED})
  {
    if e.pending.Some? {
      assert e.protects + multiset{e.pending.value} - multiset{e.pending.value} == e.protects;
    }
  }

  /** What is thrown is what is taken, however often something was thrown before. */
  lemma ThrownIsTaken(e: Env, x: Val)
    requires |e.scopes| > 0
    ensures var r := DoTakeException(Record(e, x));
      && Handles(r) == Handles(e) + [x] && r.pending == None
      && r.protects == e.protects - Owned(e.pending) + multiset{x}
  {
    hide DoTakeException, Owned;
    TakenIsPending(Record(e, x));
  }

  /** What JavaScript throws is pending afterwards, and replaces what was; an unguarded query drops it. */
  lemma ThrownIsPending(e: Env, threw: Option<Val>)
    requires CanStep(e) && Enabled(e, JsReturns(threw))
    ensures var r := DoJsReturns(e, threw);
      && r.pending == (if threw.Some? && !Top(e).value.InQuery? then threw else e.pending)
      && r.frames == e.frames[..|e.frames| - 1]
  {
  }

  /** Leaving a native callback hands the pending exception to the engine; a finalizer's goes to the host. */
  lemma LeftBehind(e: Env)
    requires CanStep(e)
    ensures Enabled(e, LeaveCallback) ==> DoLeaveCallback(e).pending == None
    ensures Enabled(e, FinalizerReturns) ==>
      var r := DoFinalizerReturns(e);
      && r.pending == None && !r.inGc
      && Top(r) == (if e.pending.Some? then Some(Surfacing(e.pending.value)) else Top(PopFrame(e)))
  {
    hide Unwind;
  }

  // ---- nesting -------------------------------------------------------------------------------------

  /** JavaScript at the top level, or called by native code, may call native code; a callback that does nothing leaves
      everything as it was, but for a pending exception, which the engine gets. */
  lemma EnterThenLeave(e: Env)
    requires Inv(e) && !e.aborted
    requires e.frames == [] || (var f := e.frames[|e.frames| - 1]; f.InJs? || f.InQuery? || f.Settling? || f.Surfacing?)
    ensures Enabled(e, EnterCallback)
    ensures
      var c := Next(e, EnterCallback);
      && Enabled(c, LeaveCallback)
      && Next(c, LeaveCallback) == e.(pending := None, protects := e.protects - Owned(e.pending))
  {
    hide Inv, Unwind, Owned, Next, Enabled;
    InvStack(e);
    EnterTaken(e);
    var c := DoEnterCallback(e);
    UnwindOwn(e);
    LeaveTaken(c);
    assert PopFrame(c) == c.(frames := e.frames);
  }

  lemma EnterTaken(e: Env)
    requires CanStep(e) && !e.aborted
    requires e.frames == [] || (var f := e.frames[|e.frames| - 1]; f.InJs? || f.InQuery? || f.Settling? || f.Surfacing?)
    ensures Enabled(e, EnterCallback) && Next(e, EnterCallback) == DoEnterCallback(e)
  {
    hide ExecRef, ExecFrame, DoEnterCallback;
  }

  lemma LeaveTaken(e: Env)
    requires CanStep(e) && !e.aborted && Top(e).Some? && Top(e).value.InCallback?
    ensures Enabled(e, LeaveCallback) && Next(e, LeaveCallback) == DoLeaveCallback(e)
  {
    hide ExecRef, ExecFrame, DoLeaveCallback;
  }

  /** Its own scope is the innermost one, and holds nothing. */
  lemma UnwindOwn(e: Env)
    requires |e.scopes| > 0
    ensures var c := PopFrame(DoEnterCallback(e)); Unwind(c, |e.scopes|) == e
  {
    var c := PopFrame(DoEnterCallback(e));
    assert c.frames == e.frames && c.scopes[..|e.scopes|] == e.scopes;
    assert e.protects - multiset([]) == e.protects;
  }

  /** A call into JavaScript that returns nothing but its value leaves everything as it was. */
  lemma CallThenReturn(e: Env, query: bool)
    requires CanStep(e) && !e.aborted && NativeRuns(e) && (!query ==> !e.inGc && e.pending.None?)
    ensures
      var c := Next(e, if query then QueryJs else CallJs);
      Enabled(c, JsReturns(None)) && Next(c, JsReturns(None)) == e
  {
    hide Next, Enabled, NativeRuns;
    CallTaken(e, query);
    var c := e.(frames := e.frames + [if query then InQuery else InJs]);
    ReturnTaken(c);
    assert c.frames[..|c.frames| - 1] == e.frames;
  }

  lemma CallTaken(e: Env, query: bool)
    requires CanStep(e) && !e.aborted && NativeRuns(e) && (!query ==> !e.inGc && e.pending.None?)
    ensures Next(e, if query then QueryJs else CallJs) == e.(frames := e.frames + [if query then InQuery else InJs])
  {
    hide ExecScope, ExecRef;
  }

  lemma ReturnTaken(e: Env)
    requires CanStep(e) && !e.aborted && Top(e).Some? && (Top(e).value.InJs? || Top(e).value.InQuery?)
    ensures Enabled(e, JsReturns(None)) && Next(e, JsReturns(None)) == PopFrame(e)
  {
    hide ExecScope, ExecRef, EndSettle, Record;
  }

  // ---- drains --------------------------------------------------------------------------------------

  /** A drain whose finalizers do nothing, with n entries waiting. */
  function Draining(n: nat): seq<Step> {
    if n == 0 then [DrainEnds] else [NextFinalizer, FinalizerReturns] + Draining(n - 1)
  }

  lemma RunOne(e: Env, s: Step, rest: seq<Step>)
    ensures Run(e, [s] + rest) == Run(Next(e, s), rest) && Run(e, []) == e
  {
    hide Next;
    assert ([s] + rest)[1..] == rest;
  }

  /** It starts every entry, in order, and then returns with the queue empty. */
  lemma {:induction false} DrainStartsAll(e: Env)
    requires CanStep(e) && !e.aborted && Top(e) == Some(InDrain) && !e.inGc && e.pending.None?
    ensures Run(e, Draining(|e.queue|))
            == e.(queue := [], ran := e.ran + e.queue, frames := e.frames[..|e.frames| - 1])
    decreases |e.queue|
  {
    hide Next, Run;
    if e.queue == [] {
      assert [DrainEnds] == [DrainEnds] + [] && e.ran + [] == e.ran;
      RunOne(e, DrainEnds, []);
      RunOne(Next(e, DrainEnds), DrainEnds, []);
      DrainOver(e);
    } else {
      var m := OneFinalized(e);
      var rest := Draining(|m.queue|);
      assert [NextFinalizer, FinalizerReturns] + rest == [NextFinalizer] + ([FinalizerReturns] + rest);
      RunOne(e, NextFinalizer, [FinalizerReturns] + rest);
      RunOne(Next(e, NextFinalizer), FinalizerReturns, rest);
      DrainStartsAll(m);
      assert e.ran + [e.queue[0]] + e.queue[1..] == e.ran + e.queue;
    }
  }

  lemma DrainOver(e: Env)
    requires CanStep(e) && !e.aborted && Top(e) == Some(InDrain) && e.queue == []
    ensures Next(e, DrainEnds) == PopFrame(e)
  {
    hide ExecScope, ExecRef;
  }

  lemma OneFinalized(e: Env) returns (m: Env)
    requires CanStep(e) && !e.aborted && Top(e) == Some(InDrain) && !e.inGc && e.pending.None? && e.queue != []
    ensures m == Next(Next(e, NextFinalizer), FinalizerReturns)
    ensures m == e.(queue := e.queue[1..], ran := e.ran + [e.queue[0]])
  {
    hide ExecScope, ExecRef, IsBasic;
    var n := Next(e, NextFinalizer);
    assert n == DoNextFinalizer(e);
    m := Next(n, FinalizerReturns);
    assert n.frames[..|n.frames| - 1] == e.frames;
  }

  // ---- promises ------------------------------------------------------------------------------------

  /** A promise that is made and settled leaves its handle and nothing else, and cannot be settled again. */
  lemma PromiseSettlesOnce(e: Env, resolve: Val, reject: Val, promise: Val)
    requires CanStep(e) && Accepts(e, CreatePromise(resolve, reject, promise))
    ensures
      var d := |e.deferreds|;
      var c := Next(e, CreatePromise(resolve, reject, promise));
      && Enabled(c, Settle(d)) && !Enabled(Next(c, Settle(d)), Settle(d)) && Enabled(Next(c, Settle(d)), JsReturns(None))
      && var r := Next(Next(c, Settle(d)), JsReturns(None));
      && r == Push(e, promise).(deferreds := e.deferreds + [Deferred(resolve, reject, Settled)])
      && !Enabled(r, Settle(d))
  {
    hide Push, Next, Enabled, Accepts, NativeRuns, DoCreatePromise;
    PromiseTaken(e, resolve, reject, promise);
    var p := Push(e, promise);
    var c := DoCreatePromise(e, resolve, reject, promise);
    PromiseMade(e, resolve, reject, promise);
    SameStack(e, c);
    SettledOnce(c, |e.deferreds|);
    Released(p.protects, resolve, reject);
    assert c.deferreds[|e.deferreds| := Deferred(resolve, reject, Settled)]
        == e.deferreds + [Deferred(resolve, reject, Settled)];
  }

  /** Settling is over when the function called returns; meanwhile and afterwards it cannot be done again. */
  lemma SettledOnce(e: Env, d: nat)
    requires CanStep(e) && !e.aborted && !e.inGc && e.pending.None? && NativeRuns(e)
    requires d < |e.deferreds| && e.deferreds[d].state == Open
    ensures
      var s := Next(e, Settle(d));
      var r := Next(s, JsReturns(None));
      && Enabled(e, Settle(d)) && !Enabled(s, Settle(d)) && Enabled(s, JsReturns(None)) && !Enabled(r, Settle(d))
      && r == e.(protects := e.protects - multiset{e.deferreds[d].resolve} - multiset{e.deferreds[d].reject},
                 deferreds := e.deferreds[d := e.deferreds[d].(state := Settled)])
  {
    hide Next, Enabled, NativeRuns;
    SettleTaken(e, d);
    var s := DoSettle(e, d);
    SettledTaken(s, d);
    SettleTaken(s, d);
    SettledAgain(e, d);
    SettleTaken(EndSettle(PopFrame(s), d), d);
  }

  lemma SameStack(e: Env, r: Env)
    requires CanStep(e) && NativeRuns(e) && r.frames == e.frames && |r.scopes| > 0
    ensures CanStep(r) && NativeRuns(r)
  {
  }

  lemma PromiseMade(e: Env, resolve: Val, reject: Val, promise: Val)
    requires |e.scopes| > 0
    ensures
      var p, c := Push(e, promise), DoCreatePromise(e, resolve, reject, promise);
      && |c.scopes| == |e.scopes|
      && c == p.(protects := p.protects + multiset{resolve} + multiset{reject},
                 deferreds := e.deferreds + [Deferred(resolve, reject, Open)])
  {
    assert e.protects + multiset{resolve} + multiset{reject} + multiset{promise}
        == e.protects + multiset{promise} + multiset{resolve} + multiset{reject};
  }

  lemma SettledAgain(c: Env, d: nat)
    requires d < |c.deferreds|
    ensures
      var f := c.deferreds[d];
      EndSettle(PopFrame(DoSettle(c, d)), d)
      == c.(protects := c.protects - multiset{f.resolve} - multiset{f.reject},
            deferreds := c.deferreds[d := f.(state := Settled)])
  {
    var s := DoSettle(c, d);
    assert s.frames[..|s.frames| - 1] == c.frames;
    assert s.deferreds[d := s.deferreds[d].(state := Settled)] == c.deferreds[d := c.deferreds[d].(state := Settled)];
  }

  lemma PromiseTaken(e: Env, resolve: Val, reject: Val, promise: Val)
    requires CanStep(e) && Accepts(e, CreatePromise(resolve, reject, promise))
    ensures Next(e, CreatePromise(resolve, reject, promise)) == DoCreatePromise(e, resolve, reject, promise)
    ensures NativeRuns(e) && !e.aborted && !e.inGc && e.pending.None?
  {
    hide ExecScope, ExecRef, DoCreatePromise;
  }

  lemma SettleTaken(e: Env, d: nat)
    requires CanStep(e) && !e.aborted && !e.inGc && e.pending.None? && d < |e.deferreds|
    ensures Enabled(e, Settle(d)) <==> NativeRuns(e) && e.deferreds[d].state == Open
    ensures Enabled(e, Settle(d)) ==> Next(e, Settle(d)) == DoSettle(e, d)
  {
    hide ExecScope, ExecRef, DoSettle;
  }

  lemma SettledTaken(e: Env, d: nat)
    requires CanStep(e) && !e.aborted && Top(e) == Some(Settling(d))
    ensures Enabled(e, JsReturns(None)) && Next(e, JsReturns(None)) == EndSettle(PopFrame(e), d)
  {
    hide ExecScope, ExecRef, EndSettle;
  }

  lemma Released(m: multiset<Val>, x: Val, y: Val)
    ensures m + multiset{x} + multiset{y} - multiset{x} - multiset{y} == m
  {
  }

  /** napi_escape_handle reaches the scope it names while that is innermost. */
  lemma EscapeReaches(e: Env, id: nat, v: Val)
    requires CanStep(e) && !e.aborted && NativeRuns(e) && |e.scopes| > 1 && IsTop(e, Api(id))
    ensures Next(e, Escape(id, v)) == DoEscape(e, id, v)
  {
    hide ExecRef, ExecFrame, DoEscape;
    assert e.scopes[|e.scopes| - 1].owner == Api(id);
  }

  // ---- the preamble --------------------------------------------------------------------------------

  /** The functions that begin with NAPI_PREAMBLE abort the process inside a basic finalizer and are refused while an
      exception is pending; the others do their work in both cases. */
  lemma PreambleExactly(e: Env, s: Step)
    requires CanStep(e) && !e.aborted && Enabled(e, s)
    ensures
      var guarded := s.Wrap? || s.RemoveWrap? || s.AddFinalizer? || s.CreatePromise? || s.Settle? || s.CallJs?
                     || s.BuildFactory? || s.CreateBuffer?;
      && (Next(e, s).aborted <==> guarded && e.inGc)
      && (guarded && !e.inGc && e.pending.Some? ==> Next(e, s) == e)
      && (!guarded || (!e.inGc && e.pending.None?) ==> Next(e, s) == Exec(e, s))
  {
    hide Exec;
    ExecConstant(e, s);
  }

  // ---- wraps ---------------------------------------------------------------------------------------

  lemma {:induction false} FindNone(holders: seq<Holder>, v: Val)
    ensures FindWrap(holders, v).None? <==> forall h | 0 <= h < |holders| :: !IsWrap(holders[h], v)
  {
    if holders != [] {
      var n := |holders| - 1;
      FindNone(holders[..n], v);
      assert forall h | 0 <= h < n :: holders[..n][h] == holders[h];
    }
  }

  /** An object has at most one wrap. */
  ghost predicate OneWrap(e: Env) {
    forall i, j, v | 0 <= i < j < |e.holders| :: !(IsWrap(e.holders[i], v) && IsWrap(e.holders[j], v))
  }

  /** Holders keep anchor and kind and do not come back, and a new wrap is on an object that has none. */
  ghost predicate WrapStep(e: Env, r: Env) {
    && |e.holders| <= |r.holders| <= |e.holders| + 1
    && (forall h, v | 0 <= h < |e.holders| :: IsWrap(r.holders[h], v) ==> IsWrap(e.holders[h], v))
    && (|r.holders| > |e.holders| ==>
          forall v :: IsWrap(r.holders[|e.holders|], v) ==> WrapHolder(e, v).None?)
  }

  lemma WrapsKept(e: Env, r: Env)
    requires OneWrap(e) && WrapStep(e, r)
    ensures OneWrap(r)
  {
    forall i, j, v | 0 <= i < j < |r.holders| ensures !(IsWrap(r.holders[i], v) && IsWrap(r.holders[j], v)) {
      if j == |e.holders| && IsWrap(r.holders[j], v) {
        FindNone(e.holders, v);
        assert !IsWrap(e.holders[i], v);
      }
    }
  }

  lemma RefStepWraps(e: Env, s: Step)
    requires CanStep(e) && RefStep(s) && Enabled(e, s)
    ensures WrapStep(e, Exec(e, s))
  {
    hide Exec, Enabled, CanStep, WrapStep;
    if MakeStep(s) {
      MakeStepWraps(e, s);
    } else {
      ChangeStepWraps(e, s);
    }
  }

  lemma MakeStepWraps(e: Env, s: Step)
    requires CanStep(e) && MakeStep(s) && Enabled(e, s)
    ensures WrapStep(e, Exec(e, s))
  {
    hide FindWrap, Holds, Push, ExecScope, ExecFrame, WrapStep, WrapHolder;
    var r := Exec(e, s);
    assert r == ExecRef(e, s);
    if r.holders == e.holders {
      SameWraps(e, r);
    } else {
      NewWraps(e, r, r.holders[|e.holders|]);
    }
  }

  lemma SameWraps(e: Env, r: Env)
    requires r.holders == e.holders
    ensures WrapStep(e, r)
  {
  }

  lemma NewWraps(e: Env, r: Env, h: Holder)
    requires r.holders == e.holders + [h] && (h.wrap ==> WrapHolder(e, h.anchor).None?)
    ensures WrapStep(e, r)
  {
    hide WrapHolder;
  }

  lemma ChangeStepWraps(e: Env, s: Step)
    requires CanStep(e) && RefStep(s) && !MakeStep(s) && Enabled(e, s)
    ensures WrapStep(e, Exec(e, s))
  {
    hide FindWrap, Backs, KillAll, DoDeleteRef, DoStrengthen, DoWeaken, DoPost, ExecScope, ExecFrame;
    assert Exec(e, s) == ExecRef(e, s);
  }

  lemma NextWraps(e: Env, s: Step)
    requires CanStep(e)
    ensures WrapStep(e, Next(e, s))
  {
    hide Enabled, Exec;
    if e.aborted || !Enabled(e, s) || (Guarded(s) && (e.inGc || e.pending.Some?)) {
    } else if ScopeStep(s) {
      ScopeStepFields(e, s);
    } else if RefStep(s) {
      RefStepWraps(e, s);
    } else {
      FrameStepFields(e, s);
    }
  }

  lemma {:induction false} RunOneWrap(e: Env, steps: seq<Step>)
    requires Inv(e) && OneWrap(e)
    ensures OneWrap(Run(e, steps))
    decreases |steps|
  {
    hide Inv, Next, OneWrap, WrapStep;
    if steps != [] {
      InvStack(e);
      NextWraps(e, steps[0]);
      WrapsKept(e, Next(e, steps[0]));
      NextInv(e, steps[0]);
      RunOneWrap(Next(e, steps[0]), steps[1..]);
    }
  }

  /** In every reachable state, a removed wrap makes room for another one exactly if no reference was ever made to the
      object while it was wrapped. */
  lemma RemovedMakesRoom(experimental: bool, cached: multiset<Val>, steps: seq<Step>, v: Val, h: nat)
    requires var e := Run(Init(experimental, cached), steps); WrapHolder(e, v) == Some(h) && Accepts(e, RemoveWrap(v))
    ensures
      var e := Run(Init(experimental, cached), steps);
      var r := Next(e, RemoveWrap(v));
      && (WrapHolder(r, v).None? <==> forall i | 0 <= i < |e.refs| :: !(e.refs[i].weakable && e.refs[i].holder == h))
      && (WrapHolder(r, v).Some? ==> WrapHolder(r, v) == Some(h) && r.holders[h].data == 0)
  {
    hide Inv, Run, OneWrap, Init, WrapHolder;
    var e0 := Init(experimental, cached);
    InitInv(experimental, cached);
    RunInv(e0, steps);
    assert OneWrap(e0) by { NoHolders(experimental, cached); }
    RunOneWrap(e0, steps);
    var e := Run(e0, steps);
    InvStack(e);
    RemoveTaken(e, v);
    RoomAfter(e, v, h);
  }

  lemma NoHolders(experimental: bool, cached: multiset<Val>)
    ensures OneWrap(Init(experimental, cached))
  {
  }

  lemma RoomAfter(e: Env, v: Val, h: nat)
    requires OneWrap(e) && WrapHolder(e, v) == Some(h)
    ensures
      var r := DoRemoveWrap(e, v);
      && (WrapHolder(r, v).None? <==> !Backs(e.refs, h))
      && (WrapHolder(r, v).Some? ==> WrapHolder(r, v) == Some(h) && r.holders[h].data == 0)
  {
    hide Backs, FindWrap;
    var r := DoRemoveWrap(e, v);
    FindNone(r.holders, v);
    forall k | 0 <= k < |r.holders| && k != h ensures !IsWrap(r.holders[k], v) {
      assert r.holders[k] == e.holders[k];
      assert !(IsWrap(e.holders[if k < h then k else h], v) && IsWrap(e.holders[if k < h then h else k], v));
    }
  }

  /** A wrap is found afterwards, with the native it was given; a reference asked for reads the object and does not
      keep it. */
  lemma WrappedIsFound(e: Env, v: Val, data: nat, finalizer: bool, wantsRef: bool)
    requires CanStep(e) && Accepts(e, Wrap(v, data, finalizer, wantsRef)) && WrapHolder(e, v).None?
    ensures var r := Next(e, Wrap(v, data, finalizer, wantsRef));
      && WrapHolder(r, v) == Some(|e.holders|) && |r.holders| == |e.holders| + 1
      && r.holders[|e.holders|].data == data && (r.holders[|e.holders|].finalizer <==> finalizer)
      && |r.refs| == (if wantsRef then |e.refs| + 1 else |e.refs|)
      && (wantsRef ==> On(r, |e.refs|, |e.holders|) && Reads(r.refs[|e.refs|]) == Some(v))
      && r.protects == e.protects
  {
    var r := Next(e, Wrap(v, data, finalizer, wantsRef));
    assert r.holders[..|e.holders|] == e.holders;
  }

  /** napi_add_finalizer leaves the wrap as it is; its reference, if asked for, does not keep the object either. */
  lemma FinalizerAdded(e: Env, v: Val, wantsRef: bool)
    requires CanStep(e) && Accepts(e, AddFinalizer(v, wantsRef))
    ensures var r := Next(e, AddFinalizer(v, wantsRef));
      && WrapHolder(r, v) == WrapHolder(e, v) && |r.holders| == |e.holders| + 1
      && r.holders[|e.holders|].anchor == v && r.holders[|e.holders|].finalizer
      && |r.refs| == (if wantsRef then |e.refs| + 1 else |e.refs|)
      && (wantsRef ==> On(r, |e.refs|, |e.holders|) && Reads(r.refs[|e.refs|]) == Some(v))
      && r.protects == e.protects
  {
    var r := Next(e, AddFinalizer(v, wantsRef));
    assert r.holders[..|e.holders|] == e.holders;
  }

  /** A posted finalizer with a callback gets one entry of its own, at the end; without one it gets none. */
  lemma PostedOnce(e: Env, hasCallback: bool)
    requires CanStep(e) && Accepts(e, PostFinalizer(hasCallback))
    ensures var r := Next(e, PostFinalizer(hasCallback));
      && r.queue == e.queue + (if hasCallback then [Posted(e.posted)] else [])
      && r.posted == e.posted + (if hasCallback then 1 else 0)
  {
    hide ExecScope, ExecFrame, Push;
    assert Exec(e, PostFinalizer(hasCallback)) == ExecRef(e, PostFinalizer(hasCallback));
  }

  // ---- external buffers ------------------------------------------------------------------------------

  /** A buffer made with a finalizer is deallocated later; its entry joins the queue once. */
  lemma BufferQueuedOnce(e: Env, b: nat)
    requires b < |e.buffers| && CanStep(e) && Accepts(e, FreeBuffer(b))
    ensures var r := Next(e, FreeBuffer(b));
      && r.queue == e.queue + [Posted(e.posted)] && r.posted == e.posted + 1
      && |r.buffers| == |e.buffers| && !Enabled(r, FreeBuffer(b))
      && forall c: nat {:trigger r.buffers[c]} :: c < |e.buffers| && c != b ==> r.buffers[c] == e.buffers[c]
  {
  }

  /** It is never deallocated again. */
  lemma {:induction false} FreedForGood(e: Env, steps: seq<Step>, b: nat)
    requires Inv(e) && b < |e.buffers| && e.buffers[b]
    ensures b < |Run(e, steps).buffers| && Run(e, steps).buffers[b] && !Enabled(Run(e, steps), FreeBuffer(b))
    decreases |steps|
  {
    hide Inv, Next;
    if steps != [] {
      InvStack(e);
      NextBuffers(e, steps[0], b);
      NextInv(e, steps[0]);
      FreedForGood(Next(e, steps[0]), steps[1..], b);
    }
  }

  lemma NextBuffers(e: Env, s: Step, b: nat)
    requires CanStep(e) && b < |e.buffers| && e.buffers[b]
    ensures b < |Next(e, s).buffers| && Next(e, s).buffers[b]
  {
    hide Exec, CanStep;
    if Enabled(e, s) {
      ExecConstant(e, s);
      if s.CreateBuffer? || s.FreeBuffer? { BufferSteps(e, s, b); }
    }
  }

  lemma BufferSteps(e: Env, s: Step, b: nat)
    requires CanStep(e) && b < |e.buffers| && e.buffers[b] && Enabled(e, s) && (s.CreateBuffer? || s.FreeBuffer?)
    ensures b < |Exec(e, s).buffers| && Exec(e, s).buffers[b]
  {
    hide Push;
  }

  /** A buffer gets an entry of its own exactly if it has a finalizer. */
  lemma BufferMade(e: Env, v: Val, finalizer: bool)
    requires CanStep(e) && Accepts(e, CreateBuffer(v, finalizer))
    ensures var r := Next(e, CreateBuffer(v, finalizer));
      && r.buffers == (if finalizer then e.buffers + [false] else e.buffers)
      && |r.scopes| == |e.scopes| && Handles(r) == Handles(e) + [v]
  {
  }
}
