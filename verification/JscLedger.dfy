/** The JavaScriptCore environment as a ledger of protects, as a state machine over the steps of native code,
    JavaScript, the collector and the finalizer queue. Calls nest on a stack of frames, so user callbacks and
    finalizers are arbitrary step sequences between entering and leaving. */
module JscLedger {
  import opened Common

  type Val = nat
  type uint32 = x: nat | x < 0x1_0000_0000
  const UNDEFINED: Val := 0

  /** Who opened a handle scope: only an Api scope has a napi_handle_scope the program can pass. */
  datatype Owner = Root | Api(id: nat) | Callback(depth: nat)

  datatype Scope = Scope(owner: Owner, escapable: bool, escaped: bool, handles: seq<Val>)

  /** A napi_ref together with the control block made for it; alive is the control's flag, and holder the
      ExternalState whose list the control is on. A ref that is not weakable has no control. */
  datatype Ref = Ref(value: Val, count: uint32, weakable: bool, holder: nat, alive: bool, deleted: bool)

  /** An ExternalState. It is attached to its anchor (an external is its own anchor) or left without a referrer. */
  datatype Holder = Holder(anchor: Val, attached: bool, wrap: bool, data: nat, finalizer: bool, basic: bool,
                           collected: bool)

  datatype Settlement = Open | InProgress | Settled
  datatype Deferred = Deferred(resolve: Val, reject: Val, state: Settlement)

  /** An entry of pending_finalizers: that of a collected holder, or one that code queued itself - a posted
      finalizer, the release of an external string's buffer, the deallocation of an array buffer. */
  datatype Entry = OfHolder(h: nat) | Posted(id: nat)

  /** What is on the call stack; lower is the scope stack when the callback was entered. */
  datatype Frame =
    | InCallback(depth: nat, lower: seq<Scope>)
    | InJs
    | InQuery                    // JavaScript run for an unguarded call, which drops what it throws
    | Settling(d: nat)
    | InDrain
    | InFinalizer(entry: Entry)
    | Surfacing(error: Val)

  datatype Env = Env(
    experimental: bool,
    scopes: seq<Scope>, nextScope: nat,
    pending: Option<Val>,
    protects: multiset<Val>,     // JSValueProtect counts
    refs: seq<Ref>, holders: seq<Holder>, deferreds: seq<Deferred>,
    cached: multiset<Val>,       // globals and factories
    frames: seq<Frame>,
    buffers: seq<bool>,          // external array buffers with a finalizer: deallocated or not
    queue: seq<Entry>,           // pending_finalizers
    posted: nat,                 // how many entries code has queued itself
    inGc: bool,                  // in_gc_finalizer
    aborted: bool,
    enqueued: seq<Entry>,        // history: every entry ever queued
    ran: seq<Entry>)             // history: every entry whose finalizer was started

  datatype Step =
    | AddHandle(v: Val)
    | OpenScope(escapable: bool)
    | CloseScope(id: nat)
    | Escape(id: nat, v: Val)
    | Throw(v: Val)
    | TakeException
    | CreateReference(v: Val, isObject: bool, count: uint32, landed: bool)
    | Wrap(v: Val, data: nat, finalizer: bool, wantsRef: bool)
    | RemoveWrap(v: Val)
    | AddFinalizer(v: Val, wantsRef: bool)
    | CreateExternal(v: Val, data: nat, finalizer: bool)
    | DeleteRef(r: nat)
    | Strengthen(r: nat)
    | Weaken(r: nat)
    | GetValue(r: nat)
    | CreatePromise(resolve: Val, reject: Val, promise: Val)
    | Settle(d: nat)
    | CallJs
    | QueryJs                    // napi_is_error and its like ask Symbol.hasInstance of a global constructor
    | BuildFactory(v: Val)
    | JsReturns(threw: Option<Val>)
    | EnterCallback
    | LeaveCallback
    | Collect(h: nat)
    | PostFinalizer(hasCallback: bool)
    | CreateBuffer(v: Val, finalizer: bool)
    | FreeBuffer(b: nat)
    | Drain
    | NextFinalizer
    | FinalizerReturns
    | Surfaced
    | DrainEnds

  function Init(experimental: bool, cached: multiset<Val>): Env {
    Env(experimental, [Scope(Root, false, false, [])], 0, None, cached, [], [], [], cached, [], [], [], 0, false,
        false, [], [])
  }

  // ---- who may act -------------------------------------------------------------------------------

  function Top(e: Env): Option<Frame> { if e.frames == [] then None else Some(e.frames[|e.frames| - 1]) }

  predicate NativeRuns(e: Env) {
    match Top(e) case None => true case Some(f) => f.InCallback? || f.InFinalizer?
  }

  predicate JsRuns(e: Env) {
    match Top(e) case None => true case Some(f) => f.InJs? || f.InQuery? || f.Settling? || f.Surfacing?
  }

  predicate LiveRef(e: Env, r: nat) { r < |e.refs| && !e.refs[r].deleted }

  predicate IsTop(e: Env, owner: Owner) { |e.scopes| > 0 && e.scopes[|e.scopes| - 1].owner == owner }

  predicate Enabled(e: Env, s: Step) {
    match s
    case Escape(id, _) => NativeRuns(e) && exists i | 0 <= i < |e.scopes| :: e.scopes[i].owner == Api(id)
    case Wrap(v, _, _, _) =>
      NativeRuns(e) && (var h := WrapHolder(e, v); h.Some? && h.value < |e.holders| ==> e.holders[h.value].data != 0)
    case DeleteRef(r) => NativeRuns(e) && LiveRef(e, r)
    case Strengthen(r) => NativeRuns(e) && LiveRef(e, r)
    case Weaken(r) => NativeRuns(e) && LiveRef(e, r)
    case GetValue(r) => NativeRuns(e) && LiveRef(e, r)
    case Settle(d) => NativeRuns(e) && d < |e.deferreds| && e.deferreds[d].state == Open
    case JsReturns(_) => Top(e).Some? && (Top(e).value.InJs? || Top(e).value.InQuery? || Top(e).value.Settling?)
    case EnterCallback => JsRuns(e)
    case LeaveCallback => Top(e).Some? && Top(e).value.InCallback?
    case Collect(h) =>
      h < |e.holders| && !e.holders[h].collected && (e.holders[h].attached ==> e.protects[e.holders[h].anchor] == 0)
    case FreeBuffer(b) => b < |e.buffers| && !e.buffers[b]
    case Drain => NativeRuns(e) && !e.inGc
    case NextFinalizer => Top(e) == Some(InDrain) && e.queue != []
    case FinalizerReturns => Top(e).Some? && Top(e).value.InFinalizer?
    case Surfaced => Top(e).Some? && Top(e).value.Surfacing?
    case DrainEnds => Top(e) == Some(InDrain) && e.queue == []
    case _ => NativeRuns(e)
  }

  /** The functions that begin with NAPI_PREAMBLE: fatal inside a basic finalizer, and refused while an
      exception is pending. */
  predicate Guarded(s: Step) {
    s.Wrap? || s.RemoveWrap? || s.AddFinalizer? || s.CreatePromise? || s.Settle? || s.CallJs? || s.BuildFactory?
    || s.CreateBuffer?
  }

  // ---- primitives --------------------------------------------------------------------------------

  /** napi_jsc_add_handle. */
  function Push(e: Env, v: Val): (r: Env)
    requires |e.scopes| > 0
    ensures r == e.(scopes := r.scopes, protects := r.protects)
  {
    var n := |e.scopes| - 1;
    e.(protects := e.protects + multiset{v},
       scopes := e.scopes[n := e.scopes[n].(handles := e.scopes[n].handles + [v])])
  }

  function PopScope(e: Env): (r: Env)
    requires |e.scopes| > 0
    ensures r == e.(scopes := r.scopes, protects := r.protects)
  {
    var n := |e.scopes| - 1;
    e.(protects := e.protects - multiset(e.scopes[n].handles), scopes := e.scopes[..n])
  }

  /** CallbackScope::close: pops forgotten scopes down to the callback's own, and that one. */
  function Unwind(e: Env, depth: nat): (r: Env)
    requires |e.scopes| > 0
    ensures r == e.(scopes := r.scopes, protects := r.protects)
    decreases |e.scopes|
  {
    if |e.scopes| > 1 && !IsTop(e, Callback(depth)) then Unwind(PopScope(e), depth) else PopScope(e)
  }

  /** napi_jsc_record_exception and napi_throw: the new exception replaces a pending one. */
  function Record(e: Env, v: Val): (r: Env)
    ensures r == e.(protects := r.protects, pending := r.pending)
  {
    e.(protects := e.protects - Owned(e.pending) + multiset{v}, pending := Some(v))
  }

  function Owned(v: Option<Val>): multiset<Val> {
    match v case None => multiset{} case Some(x) => multiset{x}
  }

  function FindWrap(holders: seq<Holder>, v: Val): (h: Option<nat>)
    ensures h.Some? ==> h.value < |holders| && IsWrap(holders[h.value], v)
  {
    if holders == [] then None
    else
      var n := |holders| - 1;
      if IsWrap(holders[n], v) then Some(n) else FindWrap(holders[..n], v)
  }

  predicate IsWrap(h: Holder, v: Val) { h.anchor == v && h.attached && h.wrap && !h.collected }

  function WrapHolder(e: Env, v: Val): (h: Option<nat>)
    ensures h.Some? ==> h.value < |e.holders| && IsWrap(e.holders[h.value], v)
  {
    FindWrap(e.holders, v)
  }

  function NewHolder(e: Env, h: Holder): (r: Env)
    ensures r == e.(holders := r.holders)
  {
    e.(holders := e.holders + [h])
  }

  function NewRef(e: Env, x: Ref): (r: Env)
    ensures r == e.(refs := r.refs, protects := r.protects)
  {
    e.(refs := e.refs + [x], protects := e.protects + Holds(x))
  }

  /** What a live reference protects: a strong fallback always, a weakable one while its count is positive and
      its target is there. */
  function Holds(r: Ref): multiset<Val> {
    if r.deleted then multiset{}
    else if !r.weakable then multiset{r.value}
    else if r.count > 0 && r.alive then multiset{r.value}
    else multiset{}
  }

  /** napi_get_reference_value. */
  function Reads(r: Ref): Option<Val> {
    if r.weakable && !r.alive then None else Some(r.value)
  }

  predicate Backs(refs: seq<Ref>, h: nat) {
    exists i | 0 <= i < |refs| :: refs[i].weakable && refs[i].holder == h
  }

  function Kill(r: Ref, h: nat): Ref { if r.weakable && r.holder == h then r.(alive := false) else r }

  function KillAll(refs: seq<Ref>, h: nat): (s: seq<Ref>)
    ensures |s| == |refs| && forall i | 0 <= i < |refs| :: s[i] == Kill(refs[i], h)
  {
    seq(|refs|, i requires 0 <= i < |refs| => Kill(refs[i], h))
  }

  function PopFrame(e: Env): Env
    requires e.frames != []
  {
    e.(frames := e.frames[..|e.frames| - 1])
  }

  // ---- references --------------------------------------------------------------------------------

  function WeakRef(v: Val, count: uint32, h: nat): Ref { Ref(v, count, true, h, true, false) }

  /** MakeReference: on the wrap holder if there is one, else on a holder of its own, else strong for good. */
  function MakeReference(e: Env, v: Val, isObject: bool, count: uint32, landed: bool): (r: Env)
    ensures r == e.(refs := r.refs, holders := r.holders, protects := r.protects)
    ensures |r.refs| >= |e.refs| && r.refs[..|e.refs|] == e.refs
    ensures |r.holders| >= |e.holders| && r.holders[..|e.holders|] == e.holders
    ensures forall i | |e.holders| <= i < |r.holders| :: !r.holders[i].collected
  {
    if isObject then
      match WrapHolder(e, v)
      case Some(h) => NewRef(e, WeakRef(v, count, h))
      case None =>
        var e1 := NewHolder(e, Holder(v, landed, false, 0, false, e.experimental, false));
        NewRef(e1, if landed then WeakRef(v, count, |e.holders|) else Ref(v, count, false, 0, true, false))
    else NewRef(e, Ref(v, count, false, 0, true, false))
  }

  function PutRef(e: Env, r: nat, ref: Ref): Env
    requires r < |e.refs|
  {
    e.(refs := e.refs[r := ref])
  }

  function DoDeleteRef(e: Env, i: nat): (r: Env)
    requires i < |e.refs|
    ensures r == e.(refs := r.refs, protects := r.protects)
  {
    PutRef(e, i, e.refs[i].(deleted := true)).(protects := e.protects - Holds(e.refs[i]))
  }

  /** napi_reference_ref; the 32-bit count wraps. */
  function DoStrengthen(e: Env, i: nat): (r: Env)
    requires i < |e.refs|
    ensures r == e.(refs := r.refs, protects := r.protects)
  {
    var n := (e.refs[i].count + 1) % 0x1_0000_0000;
    var e1 := PutRef(e, i, e.refs[i].(count := n));
    if e.refs[i].weakable && n == 1 && e.refs[i].alive then e1.(protects := e.protects + multiset{e.refs[i].value})
    else e1
  }

  /** napi_reference_unref. */
  function DoWeaken(e: Env, i: nat): (r: Env)
    requires i < |e.refs|
    ensures r == e.(refs := r.refs, protects := r.protects)
  {
    if e.refs[i].count == 0 then e
    else
      var n := e.refs[i].count - 1;
      var e1 := PutRef(e, i, e.refs[i].(count := n));
      if e.refs[i].weakable && n == 0 && e.refs[i].alive then e1.(protects := e.protects - multiset{e.refs[i].value})
      else e1
  }

  // ---- holders -----------------------------------------------------------------------------------

  /** AttachHolder with the holder landing on the anchor, and the reference asked for. */
  function Attach(e: Env, h: Holder, wantsRef: bool): (r: Env)
    ensures r == e.(refs := r.refs, holders := r.holders, protects := r.protects)
    ensures |r.refs| >= |e.refs| && r.refs[..|e.refs|] == e.refs
    ensures |r.holders| >= |e.holders| && r.holders[..|e.holders|] == e.holders
    ensures forall i | |e.holders| <= i < |r.holders| :: r.holders[i].collected == h.collected
  {
    var e1 := NewHolder(e, h);
    if wantsRef then NewRef(e1, WeakRef(h.anchor, 0, |e.holders|)) else e1
  }

  function DoRemoveWrap(e: Env, v: Val): (r: Env)
    ensures r == e.(holders := r.holders)
  {
    match WrapHolder(e, v)
    case None => e
    case Some(h) =>
      var keep := Backs(e.refs, h);
      e.(holders := e.holders[h := e.holders[h].(finalizer := false, data := 0, attached := keep)])
  }

  /** ExternalFinalize: empties the references of the holder, then queues its finalizer. */
  function DoCollect(e: Env, h: nat): (r: Env)
    requires h < |e.holders|
    ensures r == e.(refs := r.refs, holders := r.holders, queue := r.queue, enqueued := r.enqueued)
  {
    var e1 := e.(refs := KillAll(e.refs, h), holders := e.holders[h := e.holders[h].(collected := true)]);
    if e.holders[h].finalizer then e1.(queue := e.queue + [OfHolder(h)], enqueued := e.enqueued + [OfHolder(h)]) else e1
  }

  /** node_api_post_finalizer, and the other places that queue an entry of their own. */
  function DoPost(e: Env): (r: Env)
    ensures r == e.(queue := r.queue, enqueued := r.enqueued, posted := r.posted)
  {
    e.(queue := e.queue + [Posted(e.posted)], enqueued := e.enqueued + [Posted(e.posted)], posted := e.posted + 1)
  }

  // ---- calls -------------------------------------------------------------------------------------

  function DoEscape(e: Env, id: nat, v: Val): (r: Env)
    ensures r == e.(protects := r.protects, scopes := r.scopes)
  {
    var n := |e.scopes| - 1;
    if n >= 1 && e.scopes[n].owner == Api(id) && e.scopes[n].escapable && !e.scopes[n].escaped then
      e.(protects := e.protects + multiset{v},
         scopes := e.scopes[n := e.scopes[n].(escaped := true)]
                           [n - 1 := e.scopes[n - 1].(handles := e.scopes[n - 1].handles + [v])])
    else e
  }

  function DoTakeException(e: Env): (r: Env)
    requires |e.scopes| > 0
    ensures r == e.(protects := r.protects, scopes := r.scopes, pending := r.pending)
  {
    match e.pending
    case None => Push(e, UNDEFINED)
    case Some(x) =>
      var e1 := Push(e, x);
      e1.(protects := e1.protects - multiset{x}, pending := None)
  }

  function DoJsReturns(e: Env, threw: Option<Val>): (r: Env)
    requires e.frames != [] && (Top(e).value.Settling? ==> Top(e).value.d < |e.deferreds|)
    ensures r == e.(frames := r.frames, protects := r.protects, deferreds := r.deferreds, pending := r.pending)
  {
    var e1 := PopFrame(e);
    var e2 := if Top(e).value.Settling? then EndSettle(e1, Top(e).value.d) else e1;
    if threw.Some? && !Top(e).value.InQuery? then Record(e2, threw.value) else e2
  }

  function EndSettle(e: Env, d: nat): (r: Env)
    requires d < |e.deferreds|
    ensures r == e.(protects := r.protects, deferreds := r.deferreds)
  {
    e.(protects := e.protects - multiset{e.deferreds[d].resolve} - multiset{e.deferreds[d].reject},
       deferreds := e.deferreds[d := e.deferreds[d].(state := Settled)])
  }

  function DoEnterCallback(e: Env): (r: Env)
    ensures r == e.(frames := r.frames, scopes := r.scopes)
  {
    var n := |e.scopes|;
    e.(frames := e.frames + [InCallback(n, e.scopes)], scopes := e.scopes + [Scope(Callback(n), false, false, [])])
  }

  /** The end of a trampoline: the scope is closed, and a pending exception handed to the engine. */
  function DoLeaveCallback(e: Env): (r: Env)
    requires |e.scopes| > 0 && Top(e).Some? && Top(e).value.InCallback?
    ensures r == e.(frames := r.frames, scopes := r.scopes, protects := r.protects, pending := r.pending)
  {
    Forward(Unwind(PopFrame(e), Top(e).value.depth))
  }

  function Forward(e: Env): Env {
    e.(protects := e.protects - Owned(e.pending), pending := None)
  }

  /** Posted finalizers are never basic. */
  predicate IsBasic(e: Env, entry: Entry) {
    match entry
    case OfHolder(h) => h < |e.holders| && e.holders[h].basic
    case Posted(_) => false
  }

  function DoNextFinalizer(e: Env): (r: Env)
    requires e.queue != []
    ensures r == e.(queue := r.queue, ran := r.ran, frames := r.frames, inGc := r.inGc)
  {
    var entry := e.queue[0];
    e.(queue := e.queue[1..], ran := e.ran + [entry], frames := e.frames + [InFinalizer(entry)], inGc := IsBasic(e, entry))
  }

  /** The finalizer returned; an exception it left is taken over and reported. */
  function DoFinalizerReturns(e: Env): (r: Env)
    requires e.frames != []
    ensures r == e.(frames := r.frames, inGc := r.inGc, pending := r.pending)
  {
    var e1 := PopFrame(e).(inGc := false);
    match e.pending
    case None => e1
    case Some(x) => e1.(pending := None, frames := e1.frames + [Surfacing(x)])
  }

  function DoSurfaced(e: Env): (r: Env)
    requires Top(e).Some? && Top(e).value.Surfacing?
    ensures r == e.(frames := r.frames, protects := r.protects)
  {
    PopFrame(e).(protects := e.protects - multiset{Top(e).value.error})
  }

  function DoCreatePromise(e: Env, resolve: Val, reject: Val, promise: Val): (r: Env)
    requires |e.scopes| > 0
    ensures r == e.(scopes := r.scopes, protects := r.protects, deferreds := r.deferreds)
  {
    Push(e.(protects := e.protects + multiset{resolve} + multiset{reject},
            deferreds := e.deferreds + [Deferred(resolve, reject, Open)]), promise)
  }

  function DoSettle(e: Env, d: nat): (r: Env)
    requires d < |e.deferreds|
    ensures r == e.(deferreds := r.deferreds, frames := r.frames)
  {
    e.(deferreds := e.deferreds[d := e.deferreds[d].(state := InProgress)], frames := e.frames + [Settling(d)])
  }

  function DoCreateExternal(e: Env, v: Val, data: nat, finalizer: bool): (r: Env)
    requires |e.scopes| > 0
    ensures r == e.(holders := r.holders, scopes := r.scopes, protects := r.protects)
    ensures |r.refs| >= |e.refs| && r.refs[..|e.refs|] == e.refs
    ensures |r.holders| >= |e.holders| && r.holders[..|e.holders|] == e.holders
    ensures forall i | |e.holders| <= i < |r.holders| :: !r.holders[i].collected
  {
    Push(NewHolder(e, Holder(v, true, false, data, finalizer, false, false)), v)
  }

  function DoOpenScope(e: Env, escapable: bool): (r: Env)
    ensures r == e.(scopes := r.scopes, nextScope := r.nextScope)
  {
    e.(scopes := e.scopes + [Scope(Api(e.nextScope), escapable, false, [])], nextScope := e.nextScope + 1)
  }

  function DoCloseScope(e: Env, id: nat): (r: Env)
    ensures r == e.(scopes := r.scopes, protects := r.protects)
  {
    if |e.scopes| > 1 && IsTop(e, Api(id)) then PopScope(e) else e
  }

  /** There is a root scope, and a frame that settles a promise names a promise. */
  predicate CanStep(e: Env) {
    && |e.scopes| > 0
    && (Top(e).Some? && Top(e).value.Settling? ==> Top(e).value.d < |e.deferreds|)
  }

  /** Steps on handles, scopes and exceptions. */
  predicate ScopeStep(s: Step) {
    s.AddHandle? || s.OpenScope? || s.CloseScope? || s.Escape? || s.Throw? || s.TakeException? || s.GetValue?
    || s.EnterCallback? || s.LeaveCallback? || s.CreateBuffer?
  }

  /** Steps on references, holders and the queue. */
  predicate RefStep(s: Step) {
    s.CreateReference? || s.Wrap? || s.RemoveWrap? || s.AddFinalizer? || s.CreateExternal? || s.DeleteRef?
    || s.Strengthen? || s.Weaken? || s.Collect? || s.PostFinalizer? || s.FreeBuffer?
  }

  /** Those that make a reference or a holder. */
  predicate MakeStep(s: Step) { s.CreateReference? || s.Wrap? || s.AddFinalizer? || s.CreateExternal? }

  function ExecScope(e: Env, s: Step): Env
    requires ScopeStep(s) && CanStep(e) && Enabled(e, s)
  {
    match s
    case AddHandle(v) => Push(e, v)
    case OpenScope(escapable) => DoOpenScope(e, escapable)
    case CloseScope(id) => DoCloseScope(e, id)
    case Escape(id, v) => DoEscape(e, id, v)
    case Throw(v) => Record(e, v)
    case TakeException => DoTakeException(e)
    case GetValue(r) => if Reads(e.refs[r]).Some? then Push(e, Reads(e.refs[r]).value) else e
    case EnterCallback => DoEnterCallback(e)
    case LeaveCallback => DoLeaveCallback(e)
    case CreateBuffer(v, finalizer) =>
      Push(e, v).(buffers := if finalizer then e.buffers + [false] else e.buffers)
  }

  function ExecRef(e: Env, s: Step): Env
    requires RefStep(s) && CanStep(e) && Enabled(e, s)
  {
    match s
    case CreateReference(v, isObject, count, landed) => MakeReference(e, v, isObject, count, landed)
    case Wrap(v, data, finalizer, wantsRef) =>
      if WrapHolder(e, v).Some? then e
      else Attach(e, Holder(v, true, true, data, finalizer, e.experimental, false), wantsRef)
    case RemoveWrap(v) => DoRemoveWrap(e, v)
    case AddFinalizer(v, wantsRef) => Attach(e, Holder(v, true, false, 0, true, e.experimental, false), wantsRef)
    case CreateExternal(v, data, finalizer) => DoCreateExternal(e, v, data, finalizer)
    case DeleteRef(r) => DoDeleteRef(e, r)
    case Strengthen(r) => DoStrengthen(e, r)
    case Weaken(r) => DoWeaken(e, r)
    case Collect(h) => DoCollect(e, h)
    case PostFinalizer(hasCallback) => if hasCallback then DoPost(e) else e
    case FreeBuffer(b) => DoPost(e.(buffers := e.buffers[b := true]))
  }

  function ExecFrame(e: Env, s: Step): Env
    requires !ScopeStep(s) && !RefStep(s) && CanStep(e) && Enabled(e, s)
  {
    match s
    case CreatePromise(resolve, reject, promise) => DoCreatePromise(e, resolve, reject, promise)
    case Settle(d) => DoSettle(e, d)
    case CallJs => e.(frames := e.frames + [InJs])
    case QueryJs => e.(frames := e.frames + [InQuery])
    case BuildFactory(v) => e.(protects := e.protects + multiset{v}, cached := e.cached + multiset{v})
    case JsReturns(threw) => DoJsReturns(e, threw)
    case Drain => e.(frames := e.frames + [InDrain])
    case NextFinalizer => DoNextFinalizer(e)
    case FinalizerReturns => DoFinalizerReturns(e)
    case Surfaced => DoSurfaced(e)
    case DrainEnds => PopFrame(e)
  }

  function Exec(e: Env, s: Step): Env
    requires CanStep(e) && Enabled(e, s)
  {
    if ScopeStep(s) then ExecScope(e, s) else if RefStep(s) then ExecRef(e, s) else ExecFrame(e, s)
  }

  /** A step that cannot be taken is passed over; every reachable state satisfies CanStep. */
  function Next(e: Env, s: Step): Env {
    if e.aborted || !CanStep(e) || !Enabled(e, s) then e
    else if Guarded(s) && e.inGc then e.(aborted := true)
    else if Guarded(s) && e.pending.Some? then e
    else Exec(e, s)
  }
}
