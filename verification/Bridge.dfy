/** The inspector bridge as interleaved atomic steps of two threads. The transport thread runs
    EnqueueMessage; the V8 thread runs host code, interrupts, pumps, dispatches and pause loops, nested on
    its stack. One step is one critical section or one access to an atomic variable. */
module Bridge {

  type Message = string

  /** Where the transport thread is inside EnqueueMessage. */
  datatype Producer = Idle | Pushed | Notified | MustRequest

  /** Activations on the V8 thread, innermost last. */
  datatype Frame =
    | Host                                        // host code and JavaScript at the top level
    | Interrupt                                   // InterruptCb, registry checked, flag not yet cleared
    | Pump                                        // PumpQueued, about to take the lock
    | Dispatch                                    // PumpQueued, inside dispatchProtocolMessage
    | PauseLoop | PauseCheck | PauseWait | PauseHandler | PauseExit  // runMessageLoopOnPause
    | WaitEntry(forever: bool)                    // Wait, about to take the lock
    | Blocked(forever: bool, signalled: bool)     // Wait, inside the condition variable

  /** The bridge object: serving, inside server_.Stop(), after Stop(), deleted. */
  datatype Stage = Running | Stopping | Stopped | Destroyed

  datatype State = State(
    queue: seq<Message>,
    flag: bool,                  // interrupt_scheduled_
    paused: bool,
    outstanding: nat,            // interrupts requested from the isolate and not yet delivered
    producer: Producer,
    stack: seq<Frame>,
    stage: Stage,
    carried: nat,                // history: interrupts of earlier bridges outstanding when this one was made
    sent: seq<Message>,          // history: every message, in the order it was enqueued
    started: seq<Message>,       // history: messages whose dispatch was started, in order
    touchedDead: bool)           // history: a step used the bridge after it was deleted

  const INIT := State([], false, false, 0, Idle, [Host], Running, 0, [], [], false)

  datatype Step =
    | PushMessage(m: Message) | NotifyAll | ExchangeFlag | RequestInterrupt
    | FireInterrupt | ClearFlag
    | CallPump | TakeMessage | DispatchReturns
    | HitBreakpoint(hostLoop: bool) | PauseStep | QuitPause
    | CallWait(forever: bool) | WaitStep | Timeout
    | CallStop | Joined | Delete
    | Reuse                      // a new bridge is constructed at the address of the deleted one

  predicate Top(s: State, f: Frame) { s.stack != [] && s.stack[|s.stack| - 1] == f }

  function Below(s: State): seq<Frame>
    requires s.stack != []
  {
    s.stack[..|s.stack| - 1]
  }

  /** The innermost activation may run JavaScript. */
  predicate RunsJs(s: State) { Top(s, Host) || Top(s, Dispatch) || Top(s, PauseHandler) }

  /** The innermost activation is host code that may call the inspector API. */
  predicate RunsHost(s: State) { Top(s, Host) || Top(s, PauseHandler) }

  predicate InPause(f: Frame) { f.PauseLoop? || f.PauseCheck? || f.PauseWait? || f.PauseHandler? || f.PauseExit? }

  /** While the V8 thread is inside napi_v8_inspector_stop it takes no other step, and once it has used a deleted
      bridge nothing more is claimed of the run. */
  predicate Enabled(s: State, a: Step) {
    && !s.touchedDead
    && match a
       case PushMessage(_) => s.producer == Idle && (s.stage == Running || s.stage == Stopping)
       case NotifyAll => s.producer == Pushed
       case ExchangeFlag => s.producer == Notified
       case RequestInterrupt => s.producer == MustRequest
       case FireInterrupt => s.outstanding > 0 && RunsJs(s) && !InStop(s)
       case ClearFlag => Top(s, Interrupt)
       case CallPump => RunsHost(s) && s.stage == Running
       case TakeMessage => Top(s, Pump)
       case DispatchReturns => Top(s, Dispatch) && !InStop(s)
       case HitBreakpoint(_) => (Top(s, Host) || Top(s, Dispatch)) && s.stage == Running
       case PauseStep => s.stack != [] && InPause(s.stack[|s.stack| - 1]) && !InStop(s)
       case QuitPause => Top(s, Dispatch) && !InStop(s)
       case CallWait(_) => RunsHost(s) && s.stage == Running
       case WaitStep => s.stack != [] && (s.stack[|s.stack| - 1].WaitEntry? || s.stack[|s.stack| - 1].Blocked?)
       case Timeout => s.stack != [] && s.stack[|s.stack| - 1].Blocked? && !s.stack[|s.stack| - 1].forever
       case CallStop => RunsJs(s) && s.stage == Running
       case Joined => s.stage == Stopping && s.producer == Idle
       case Delete => s.stage == Stopped
       case Reuse => s.stage == Destroyed && s.stack == [Host]
  }

  predicate InStop(s: State) { s.stage == Stopping || s.stage == Stopped }

  /** The predicate the condition variable waits for. */
  predicate Ready(s: State) { s.queue != [] || !s.paused }

  function Signal(stack: seq<Frame>): seq<Frame> {
    if stack != [] && stack[|stack| - 1].Blocked?
    then stack[..|stack| - 1] + [stack[|stack| - 1].(signalled := true)]
    else stack
  }

  /** Only the innermost activation is rewritten: it returns, or becomes another one with at most one above it. */
  predicate Rewrites(s: seq<Frame>, r: seq<Frame>) {
    && s != [] && |s| - 1 <= |r| <= |s| + 1
    && r[..|s| - 1] == s[..|s| - 1]
    && (|r| > |s| ==> Suspends(r[|s| - 1]) && r[|s|] != Host)
    && (|r| >= |s| && r[|s| - 1] == Host ==> s[|s| - 1] == Host)
    && (s[|s| - 1] == Host ==> |r| >= |s| && r[|s| - 1] == Host)
  }

  /** Activations that may have another one above them. */
  predicate Suspends(f: Frame) { f.Host? || f.Dispatch? || f.PauseCheck? || f.PauseHandler? }

  function PauseNext(s: State): (r: State)
    requires Enabled(s, PauseStep)
    ensures r == s.(stack := r.stack, paused := r.paused) && Rewrites(s.stack, r.stack)
    ensures |r.stack| < |s.stack| ==> r.stack == Below(s)
    ensures |r.stack| >= |s.stack| ==> !Top(r, Interrupt) && !r.stack[|r.stack| - 1].Blocked?
  {
    var below := Below(s);
    match s.stack[|s.stack| - 1]
    case PauseLoop => s.(stack := below + if s.paused then [PauseCheck, Pump] else [PauseExit])
    case PauseCheck => s.(stack := below + if s.paused then [PauseWait] else [PauseExit])
    case PauseWait => s.(stack := below + [PauseLoop])
    case PauseHandler => s.(stack := below + [PauseExit])
    case _ => s.(paused := false, stack := below)
  }

  function WaitNext(s: State): (r: State)
    requires Enabled(s, WaitStep)
    ensures r == s.(stack := r.stack) && Rewrites(s.stack, r.stack)
    ensures |r.stack| < |s.stack| ==> r.stack == Below(s)
    ensures |r.stack| >= |s.stack| ==>
      r.stack[|r.stack| - 1].Blocked?
      && (Ready(s) ==> s.stack[|s.stack| - 1].Blocked? && !s.stack[|s.stack| - 1].signalled)
  {
    var below := Below(s);
    match s.stack[|s.stack| - 1]
    case WaitEntry(forever) => s.(stack := below + if Ready(s) then [] else [Blocked(forever, false)])
    case Blocked(forever, signalled) =>
      if signalled && Ready(s) then s.(stack := below) else s.(stack := below + [Blocked(forever, false)])
    case _ => s
  }

  /** Steps that reach into the bridge object. The interrupt callback consults the registry first, which knows a
      bridge by its address; the messages of a new bridge are counted from its own start. */
  predicate Touches(a: Step) { !a.FireInterrupt? && !a.Reuse? }

  function Next(s: State, a: Step): State
    requires Enabled(s, a)
  {
    if s.stage == Destroyed && Touches(a) then s.(touchedDead := true) else NextAlive(s, a)
  }

  function NextAlive(s: State, a: Step): State
    requires Enabled(s, a)
  {
    match a
    case PushMessage(m) => s.(queue := s.queue + [m], sent := s.sent + [m], producer := Pushed)
    case NotifyAll => s.(stack := Signal(s.stack), producer := Notified)
    case ExchangeFlag => s.(flag := true, producer := if s.flag then Idle else MustRequest)
    case RequestInterrupt => s.(outstanding := s.outstanding + 1, producer := Idle)
    case FireInterrupt =>
      if s.stage == Destroyed then s.(outstanding := s.outstanding - 1)
      else s.(outstanding := s.outstanding - 1, stack := s.stack + [Interrupt])
    case ClearFlag => s.(flag := false, stack := Below(s) + [Pump])
    case CallPump => s.(stack := s.stack + [Pump])
    case TakeMessage =>
      if s.queue == [] then s.(stack := Below(s))
      else s.(queue := s.queue[1..], started := s.started + [s.queue[0]], stack := Below(s) + [Dispatch])
    case DispatchReturns => s.(stack := Below(s) + [Pump])
    case HitBreakpoint(hostLoop) =>
      s.(paused := true, stack := s.stack + [if hostLoop then PauseHandler else PauseLoop])
    case PauseStep => PauseNext(s)
    case QuitPause => s.(paused := false)
    case CallWait(forever) => s.(stack := s.stack + [WaitEntry(forever)])
    case WaitStep => WaitNext(s)
    case Timeout => s.(stack := Below(s))
    case CallStop => s.(stage := Stopping)
    case Joined => s.(stage := Stopped, paused := false)
    case Delete => s.(stage := Destroyed)
    case Reuse => s.(queue := [], flag := false, paused := false, stage := Running, carried := s.outstanding,
                     sent := [], started := [])
  }

  /** Any interleaving: steps that are not enabled when their turn comes are passed over. */
  function Run(s: State, steps: seq<Step>): State
    decreases |steps|
  {
    if steps == [] then s
    else Run(if Enabled(s, steps[0]) then Next(s, steps[0]) else s, steps[1..])
  }

  // ---- what every interleaving keeps -----------------------------------------------------------

  ghost predicate PumpActive(stack: seq<Frame>) {
    exists k :: 0 <= k < |stack| && (stack[k] == Pump || stack[k] == Dispatch)
  }

  ghost predicate Shape(s: State) {
    && s.stack != [] && s.stack[0] == Host
    && (forall k | 0 <= k < |s.stack| - 1 :: Suspends(s.stack[k]))
    && (forall k | 0 < k < |s.stack| :: s.stack[k] != Host)
    && (s.stage != Running ==> RunsJs(s))
    && (s.stage == Stopped || s.stage == Destroyed ==> s.producer == Idle)
  }

  /** Interrupts about to be requested, outstanding, or delivered with the flag not yet cleared. */
  function Claims(s: State): nat {
    (if s.producer == MustRequest then 1 else 0) + s.outstanding + (if Top(s, Interrupt) then 1 else 0)
  }

  /** While the flag is set an interrupt is on its way; beyond that one there are at most those of earlier bridges
      at the address. */
  ghost predicate Coalesced(s: State) {
    if s.stage == Destroyed then s.outstanding <= 1 + s.carried
    else (if s.flag then 1 else 0) <= Claims(s) <= (if s.flag then 1 else 0) + s.carried
  }

  /** Someone will look at a non-empty queue. */
  ghost predicate Watched(s: State) {
    s.queue != [] && s.stage == Running ==>
      s.producer == Pushed || s.producer == Notified || s.flag || PumpActive(s.stack)
  }

  /** A thread blocked in Wait while it should run has been signalled, or is about to be. */
  ghost predicate NoLostWakeup(s: State) {
    s.stack != [] && s.stack[|s.stack| - 1].Blocked? && Ready(s) ==>
      s.stack[|s.stack| - 1].signalled || s.producer == Pushed
  }

  ghost predicate Inv(s: State) {
    Shape(s) && s.started + s.queue == s.sent && Coalesced(s) && Watched(s) && NoLostWakeup(s)
  }

  /** A step rewrites the innermost activation and what is above it, nothing below. */
  lemma StackDiscipline(s: State, a: Step)
    requires Enabled(s, a) && s.stack != []
    ensures Rewrites(s.stack, Next(s, a).stack)
  {
    hide PauseNext, WaitNext, Rewrites, Signal, Ready;
    var t := s.stack;
    Replaces(t, t[|t| - 1]);
    match a
    case FireInterrupt => Pushes(t, Interrupt);
    case ClearFlag => Replaces(t, Pump);
    case CallPump => Pushes(t, Pump);
    case TakeMessage => Replaces(t, Dispatch);
    case DispatchReturns => Replaces(t, Pump);
    case HitBreakpoint(hostLoop) => Pushes(t, if hostLoop then PauseHandler else PauseLoop);
    case CallWait(forever) => Pushes(t, WaitEntry(forever));
    case NotifyAll => Signals(t);
    case _ =>
  }

  lemma Pushes(s: seq<Frame>, f: Frame)
    requires s != [] && Suspends(s[|s| - 1]) && f != Host
    ensures Rewrites(s, s + [f])
  {
  }

  lemma Replaces(s: seq<Frame>, f: Frame)
    requires s != [] && (f == Host <==> s[|s| - 1] == Host)
    ensures Rewrites(s, s) && Rewrites(s, s[..|s| - 1] + [f])
    ensures s[|s| - 1] != Host ==> Rewrites(s, s[..|s| - 1])
  {
  }

  lemma Signals(s: seq<Frame>)
    requires s != []
    ensures Rewrites(s, Signal(s))
  {
    if s[|s| - 1].Blocked? { Replaces(s, s[|s| - 1].(signalled := true)); } else { Replaces(s, s[|s| - 1]); }
  }

  lemma StepShape(s: State, a: Step)
    requires Inv(s) && Enabled(s, a)
    ensures Shape(Next(s, a))
  {
    hide Next, Enabled, Coalesced, Watched, NoLostWakeup;
    StackDiscipline(s, a);
    RewritesShape(s.stack, Next(s, a).stack);
    StepStage(s, a);
  }

  lemma RewritesShape(s: seq<Frame>, r: seq<Frame>)
    requires Rewrites(s, r) && s[0] == Host
    requires forall k | 0 <= k < |s| - 1 :: Suspends(s[k])
    requires forall k | 0 < k < |s| :: s[k] != Host
    ensures r != [] && r[0] == Host
    ensures forall k | 0 <= k < |r| - 1 :: Suspends(r[k])
    ensures forall k | 0 < k < |r| :: r[k] != Host
  {
    var n := |s| - 1;
    assert forall k | 0 <= k < n :: r[k] == r[..n][k] && s[k] == s[..n][k];
  }

  lemma StepStage(s: State, a: Step)
    requires Shape(s) && Enabled(s, a)
    ensures var r := Next(s, a);
            && (r.stage != Running ==> RunsJs(r))
            && (r.stage == Stopped || r.stage == Destroyed ==> r.producer == Idle)
  {
    hide PauseNext, WaitNext;
  }

  lemma StepOrder(s: State, a: Step)
    requires Inv(s) && Enabled(s, a)
    ensures Next(s, a).started + Next(s, a).queue == Next(s, a).sent
  {
    hide PauseNext, WaitNext, Shape, Coalesced, Watched, NoLostWakeup, Rewrites, Signal;
  }

  lemma StepCoalesced(s: State, a: Step)
    requires Inv(s) && Enabled(s, a)
    ensures Coalesced(Next(s, a))
  {
    hide PauseNext, WaitNext, Watched, NoLostWakeup, Signal, Below, RunsHost;
    TopInterrupt(s, a);
  }

  /** An interrupt's activation lies on top from its delivery until it clears the flag. */
  lemma TopInterrupt(s: State, a: Step)
    requires Shape(s) && Enabled(s, a)
    ensures Top(Next(s, a), Interrupt) <==>
            (a.FireInterrupt? && s.stage != Destroyed) || (Top(s, Interrupt) && !a.ClearFlag?)
  {
    hide PauseNext, WaitNext;
    BelowIsNoInterrupt(s);
  }

  lemma BelowIsNoInterrupt(s: State)
    requires Shape(s)
    ensures |s.stack| > 1 ==> !Below(s)[|s.stack| - 2].Interrupt? && !Below(s)[|s.stack| - 2].Blocked?
    ensures |s.stack| > 1 ==> Below(s)[|s.stack| - 2] == s.stack[|s.stack| - 2]
  {
    assert |s.stack| > 1 ==> Suspends(s.stack[|s.stack| - 2]);
  }

  lemma StepWakeup(s: State, a: Step)
    requires Inv(s) && Enabled(s, a)
    ensures NoLostWakeup(Next(s, a))
  {
    hide PauseNext, WaitNext, Watched, Coalesced, Rewrites;
    BelowIsNoInterrupt(s);
  }

  /** A pump stays on the stack until it has seen the queue empty. */
  lemma PumpStays(s: State, a: Step)
    requires Enabled(s, a) && s.stack != [] && PumpActive(s.stack)
    ensures PumpActive(Next(s, a).stack) || Next(s, a).queue == []
  {
    hide Next, Enabled;
    var r, n := Next(s, a), |s.stack| - 1;
    StackDiscipline(s, a);
    var k :| 0 <= k < |s.stack| && (s.stack[k] == Pump || s.stack[k] == Dispatch);
    if k < n {
      assert r.stack[..n][k] == s.stack[..n][k];
    } else {
      TopPump(s, a);
    }
  }

  /** The innermost pump or dispatch stays where it is, unless the queue is empty. */
  lemma TopPump(s: State, a: Step)
    requires Enabled(s, a) && (Top(s, Pump) || Top(s, Dispatch))
    ensures var r, n := Next(s, a), |s.stack| - 1;
      r.queue == [] || (n < |r.stack| && (r.stack[n] == Pump || r.stack[n] == Dispatch))
  {
    hide PauseNext, WaitNext;
  }

  lemma StepWatched(s: State, a: Step)
    requires Inv(s) && Enabled(s, a)
    ensures Watched(Next(s, a))
  {
    if PumpActive(s.stack) { PumpStays(s, a); }
    if a.ClearFlag? { assert Next(s, a).stack[|s.stack| - 1] == Pump; }
  }

  lemma StepInv(s: State, a: Step)
    requires Inv(s) && Enabled(s, a)
    ensures Inv(Next(s, a))
  {
    hide Shape, Coalesced, Watched, NoLostWakeup, Next, Enabled;
    StepShape(s, a);
    StepOrder(s, a);
    StepCoalesced(s, a);
    StepWakeup(s, a);
    StepWatched(s, a);
  }

  lemma {:induction false} RunInv(s: State, steps: seq<Step>)
    requires Inv(s)
    ensures Inv(Run(s, steps))
    decreases |steps|
  {
    if steps != [] {
      var a := steps[0];
      if Enabled(s, a) {
        StepInv(s, a);
        RunInv(Next(s, a), steps[1..]);
      } else {
        RunInv(s, steps[1..]);
      }
    }
  }

  lemma InitInv()
    ensures Inv(INIT)
  {}

  // ---- what the bridge is for ------------------------------------------------------------------

  /** Messages are dispatched in the order they were enqueued, each at most once. */
  lemma DispatchOrder(steps: seq<Step>)
    ensures var s := Run(INIT, steps); s.started + s.queue == s.sent
  {
    InitInv();
    RunInv(INIT, steps);
  }

  /** However many messages arrive, at most one interrupt of this bridge is requested and not yet taken; others are
      left over from bridges deleted at the same address. */
  lemma InterruptsBounded(steps: seq<Step>)
    ensures Run(INIT, steps).outstanding <= 1 + Run(INIT, steps).carried
  {
    InitInv();
    RunInv(INIT, steps);
  }

  /** No new bridge is made while an interrupt of the old one is outstanding. */
  predicate CleanReuse(s: State, steps: seq<Step>)
    decreases |steps|
  {
    steps == []
    || (var taken := Enabled(s, steps[0]);
        && (taken && steps[0].Reuse? ==> s.outstanding == 0)
        && CleanReuse(if taken then Next(s, steps[0]) else s, steps[1..]))
  }

  lemma {:induction false} NothingCarried(s: State, steps: seq<Step>)
    requires CleanReuse(s, steps) && s.carried == 0
    ensures Run(s, steps).carried == 0
    decreases |steps|
  {
    hide PauseNext, WaitNext;
    if steps != [] { NothingCarried(if Enabled(s, steps[0]) then Next(s, steps[0]) else s, steps[1..]); }
  }

  /** If addresses are only used again once the old interrupt has fired, at most one is ever outstanding. */
  lemma AtMostOneInterrupt(steps: seq<Step>)
    requires CleanReuse(INIT, steps)
    ensures Run(INIT, steps).outstanding <= 1
  {
    NothingCarried(INIT, steps);
    InterruptsBounded(steps);
  }

  const FIRST_MESSAGE: seq<Step> := [PushMessage(""), NotifyAll, ExchangeFlag, RequestInterrupt]

  /** And only then: from any reachable state in which the address is used again too early, the first message to the
      new bridge makes the outstanding interrupts two. */
  lemma EarlyReuseDoubles(steps: seq<Step>)
    requires Enabled(Run(INIT, steps), Reuse) && Run(INIT, steps).outstanding > 0
    ensures Run(Next(Run(INIT, steps), Reuse), FIRST_MESSAGE).outstanding >= 2
  {
    hide Run, PauseNext, WaitNext, Coalesced, Watched, NoLostWakeup;
    InitInv();
    RunInv(INIT, steps);
    FourSteps(Next(Run(INIT, steps), Reuse));
  }

  lemma FourSteps(s: State)
    requires s.producer == Idle && s.stage == Running && !s.flag && !s.touchedDead
    ensures var r := Run(s, FIRST_MESSAGE);
      r.outstanding == s.outstanding + 1 && r.producer == Idle && r.stage == Running && r.stack == Signal(s.stack)
      && !r.touchedDead
  {
    var a, b, c, d := FIRST_MESSAGE[0], FIRST_MESSAGE[1], FIRST_MESSAGE[2], FIRST_MESSAGE[3];
    assert FIRST_MESSAGE[1..][1..] == [c, d] && FIRST_MESSAGE[1..] == [b, c, d] && [c, d][1..] == [d] && [d][1..] == [];
    var s1 := Next(s, a);
    var s2 := Next(s1, b);
    var s3 := Next(s2, c);
    var s4 := Next(s3, d);
    assert Run(s4, []) == s4;
    assert Run(s3, [d]) == s4;
    assert Run(s2, [c, d]) == s4;
    assert Run(s1, [b, c, d]) == s4;
  }

  /** And there are runs that do so: a bridge deleted with its interrupt outstanding. */
  lemma EarlyReuseHappens()
    ensures var s := Run(INIT, FIRST_MESSAGE + STOP_AND_DELETE); Enabled(s, Reuse) && s.outstanding == 1
  {
    hide Run;
    FourSteps(INIT);
    RunAppend(INIT, FIRST_MESSAGE, STOP_AND_DELETE);
    ThreeSteps(Run(INIT, FIRST_MESSAGE));
  }

  const STOP_AND_DELETE: seq<Step> := [CallStop, Joined, Delete]

  lemma ThreeSteps(s: State)
    requires s.producer == Idle && s.stage == Running && RunsJs(s) && !s.touchedDead
    ensures var r := Run(s, STOP_AND_DELETE);
      r.stage == Destroyed && r.outstanding == s.outstanding && r.stack == s.stack && !r.touchedDead
  {
    assert STOP_AND_DELETE[1..] == [Joined, Delete] && [Joined, Delete][1..] == [Delete] && [Delete][1..] == [];
    var s1 := Next(s, CallStop);
    var s2 := Next(s1, Joined);
    var s3 := Next(s2, Delete);
    assert Run(s3, []) == s3;
    assert Run(s2, [Delete]) == s3;
    assert Run(s1, [Joined, Delete]) == s3;
  }

  lemma {:induction false} RunAppend(s: State, a: seq<Step>, b: seq<Step>)
    ensures Run(s, a + b) == Run(Run(s, a), b)
    decreases |a|
  {
    if a == [] {
      assert a + b == b;
    } else {
      assert (a + b)[1..] == a[1..] + b;
      RunAppend(if Enabled(s, a[0]) then Next(s, a[0]) else s, a[1..], b);
    }
  }

  /** No message is stranded: once the transport thread is idle and neither an interrupt nor a pump is on
      its way, everything that was sent has been dispatched, whatever pumps and pause loops were nested. */
  lemma NothingStranded(steps: seq<Step>)
    ensures
      var s := Run(INIT, steps);
      s.stage == Running && s.producer == Idle && s.outstanding == 0 && !Top(s, Interrupt) && !PumpActive(s.stack)
      ==> s.started == s.sent
  {
    InitInv();
    RunInv(INIT, steps);
  }

  /** A V8 thread blocked in Wait sleeps on only while there is nothing for it to do. */
  lemma BlockedOnlyWhenQuiet(steps: seq<Step>)
    ensures
      var s := Run(INIT, steps);
      s.stack != [] && s.stack[|s.stack| - 1].Blocked? && !s.stack[|s.stack| - 1].signalled && s.producer != Pushed
      ==> s.queue == [] && s.paused
  {
    InitInv();
    RunInv(INIT, steps);
  }

  // ---- the bridge after it was deleted -----------------------------------------------------------

  /** Whenever the bridge is deleted, none of its activations is on the stack. */
  predicate StopsAtTop(s: State, steps: seq<Step>)
    decreases |steps|
  {
    steps == []
    || (var taken := Enabled(s, steps[0]);
        && (taken && steps[0].Delete? ==> s.stack == [Host])
        && StopsAtTop(if taken then Next(s, steps[0]) else s, steps[1..]))
  }

  ghost predicate Clear(s: State) { (s.stage == Destroyed ==> s.stack == [Host]) && !s.touchedDead }

  lemma StepClear(s: State, a: Step)
    requires Inv(s) && Clear(s) && Enabled(s, a) && (a.Delete? ==> s.stack == [Host])
    ensures Clear(Next(s, a))
  {
    hide PauseNext, WaitNext;
  }

  lemma {:induction false} RunClear(s: State, steps: seq<Step>)
    requires Inv(s) && Clear(s) && StopsAtTop(s, steps)
    ensures Clear(Run(s, steps))
    decreases |steps|
  {
    hide Inv, Clear, Next, Enabled;
    if steps != [] {
      if Enabled(s, steps[0]) {
        StepClear(s, steps[0]);
        StepInv(s, steps[0]);
        RunClear(Next(s, steps[0]), steps[1..]);
      } else {
        RunClear(s, steps[1..]);
      }
    }
  }

  /** When it is stopped from the top level only, no interrupt, pump, pause loop or transport step reaches a deleted
      bridge. */
  lemma DeletedBridgeUntouched(steps: seq<Step>)
    requires StopsAtTop(INIT, steps)
    ensures !Run(INIT, steps).touchedDead
  {
    InitInv();
    RunClear(INIT, steps);
  }

  /** And only then. When it is deleted from a pause handler or from JavaScript that a dispatch runs, at any depth, the
      V8 thread has a next step; and in every continuation, either it took one and has used the deleted bridge, or all
      that happened was that late interrupts fired. */
  lemma NestedStopTouches(steps: seq<Step>, more: seq<Step>)
    requires Enabled(Run(INIT, steps), Delete) && Run(INIT, steps).stack != [Host]
    ensures
      var d := Next(Run(INIT, steps), Delete);
      var r := Run(d, more);
      && (Enabled(d, DispatchReturns) || Enabled(d, PauseStep))
      && (Enabled(d, DispatchReturns) ==> Next(d, DispatchReturns).touchedDead)
      && (Enabled(d, PauseStep) ==> Next(d, PauseStep).touchedDead)
      && (r.touchedDead || r == d.(outstanding := r.outstanding))
  {
    hide Run, Coalesced, Watched, NoLostWakeup, Shape, Next, Enabled, RunsJs;
    InitInv();
    RunInv(INIT, steps);
    var s := Run(INIT, steps);
    NestedTop(s);
    AfterDelete(s);
    OnlyInterrupts(Next(s, Delete), more);
  }

  lemma AfterDelete(s: State)
    requires Inv(s) && Enabled(s, Delete) && (Top(s, Dispatch) || Top(s, PauseHandler))
    ensures var d := Next(s, Delete);
      && d.stage == Destroyed && !d.touchedDead && d.producer == Idle && d.stack == s.stack
      && (Enabled(d, DispatchReturns) || Enabled(d, PauseStep))
      && (Enabled(d, DispatchReturns) ==> Next(d, DispatchReturns).touchedDead)
      && (Enabled(d, PauseStep) ==> Next(d, PauseStep).touchedDead)
  {
    hide PauseNext, WaitNext, Coalesced, Watched, NoLostWakeup;
  }

  /** Such a run: a pause handler that stops the inspector, and then returns. */
  lemma NestedStopHappens()
    ensures Run(INIT, [HitBreakpoint(true), CallStop, Joined, Delete, PauseStep]).touchedDead
  {
    hide Run;
    var s1 := Next(INIT, HitBreakpoint(true));
    ThreeSteps(s1);
    var r := Run(s1, STOP_AND_DELETE);
    RunAppend(s1, STOP_AND_DELETE, [PauseStep]);
    OneMore(r, PauseStep);
    FirstStep(INIT, HitBreakpoint(true), STOP_AND_DELETE + [PauseStep]);
    assert [HitBreakpoint(true), CallStop, Joined, Delete, PauseStep]
        == [HitBreakpoint(true)] + (STOP_AND_DELETE + [PauseStep]);
  }

  lemma FirstStep(s: State, a: Step, rest: seq<Step>)
    requires Enabled(s, a)
    ensures Run(s, [a] + rest) == Run(Next(s, a), rest)
  {
    assert ([a] + rest)[1..] == rest;
  }

  lemma OneMore(s: State, a: Step)
    requires Enabled(s, a)
    ensures Run(s, [a]) == Next(s, a)
  {
    assert Run(Next(s, a), []) == Next(s, a);
  }

  lemma NestedTop(s: State)
    requires Inv(s) && Enabled(s, Delete) && s.stack != [Host]
    ensures Top(s, Dispatch) || Top(s, PauseHandler)
  {
    assert s.stack == [Host] || |s.stack| > 1;
  }

  lemma {:induction false} OnlyInterrupts(d: State, more: seq<Step>)
    requires d.stage == Destroyed && !d.touchedDead && d.producer == Idle && d.stack != [Host]
    ensures var r := Run(d, more); r.touchedDead || r == d.(outstanding := r.outstanding)
    decreases |more|
  {
    if more != [] {
      if !Enabled(d, more[0]) {
        OnlyInterrupts(d, more[1..]);
      } else if more[0].FireInterrupt? {
        OnlyInterrupts(Next(d, more[0]), more[1..]);
      } else {
        Frozen(Next(d, more[0]), more[1..]);
      }
    }
  }

  lemma {:induction false} Frozen(d: State, more: seq<Step>)
    requires d.touchedDead
    ensures Run(d, more) == d
    decreases |more|
  {
    if more != [] { Frozen(d, more[1..]); }
  }
}
