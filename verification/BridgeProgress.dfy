/** What the two threads of the inspector bridge achieve: every way a message takes to its dispatch, and the ends of
    waits and pauses. */
module BridgeProgress {
  import opened Bridge

  // ---- taking steps ------------------------------------------------------------------------------

  lemma RunOne(s: State, a: Step, rest: seq<Step>)
    requires Enabled(s, a)
    ensures Run(s, [a] + rest) == Run(Next(s, a), rest)
  {
    hide Next, Enabled;
    assert ([a] + rest)[1..] == rest;
  }

  lemma RunNone(s: State)
    ensures Run(s, []) == s
  {
  }

  /** The bridge serves, and has not been used after its deletion. */
  predicate Serving(s: State) { s.stage == Running && !s.touchedDead }

  // ---- the transport thread ------------------------------------------------------------------------

  /** EnqueueMessage from beginning to end. */
  function Enqueue(m: Message, flag: bool): seq<Step> {
    [PushMessage(m)] + ([NotifyAll] + ([ExchangeFlag] + if flag then [] else [RequestInterrupt]))
  }

  /** A message joins the end of the queue, a waiting thread is signalled, and an interrupt is requested unless one is on
      its way. */
  lemma EnqueueExactly(s: State, m: Message)
    requires Serving(s) && s.producer == Idle
    ensures Run(s, Enqueue(m, s.flag))
            == s.(queue := s.queue + [m], sent := s.sent + [m], stack := Signal(s.stack), flag := true,
                  outstanding := if s.flag then s.outstanding else s.outstanding + 1)
  {
    hide Run, Signal;
    var s1 := Next(s, PushMessage(m));
    var s2 := Next(s1, NotifyAll);
    var s3 := Next(s2, ExchangeFlag);
    var last := if s.flag then [] else [RequestInterrupt];
    RunOne(s, PushMessage(m), [NotifyAll] + ([ExchangeFlag] + last));
    RunOne(s1, NotifyAll, [ExchangeFlag] + last);
    RunOne(s2, ExchangeFlag, last);
    if s.flag {
      RunNone(s3);
    } else {
      assert [RequestInterrupt] == [RequestInterrupt] + [];
      RunOne(s3, RequestInterrupt, []);
      RunNone(Next(s3, RequestInterrupt));
    }
  }

  // ---- pumps ---------------------------------------------------------------------------------------

  /** PumpQueued when n messages are queued and nothing comes in between. */
  function Pumping(n: nat): seq<Step> {
    if n == 0 then [TakeMessage] else [TakeMessage] + ([DispatchReturns] + Pumping(n - 1))
  }

  /** A pump dispatches the whole queue, in order, and returns. */
  lemma {:induction false} PumpDispatchesAll(s: State)
    requires Serving(s) && Top(s, Pump)
    ensures Run(s, Pumping(|s.queue|)) == s.(queue := [], started := s.started + s.queue, stack := Below(s))
    decreases |s.queue|
  {
    hide Run;
    var t := Next(s, TakeMessage);
    if s.queue == [] {
      assert s.started + [] == s.started && [TakeMessage] == [TakeMessage] + [];
      RunOne(s, TakeMessage, []);
      RunNone(t);
    } else {
      var rest := Pumping(|s.queue| - 1);
      RunOne(s, TakeMessage, [DispatchReturns] + rest);
      RunOne(t, DispatchReturns, rest);
      var u := Next(t, DispatchReturns);
      assert Below(t) == Below(s) && Below(u) == Below(s);
      PumpDispatchesAll(u);
      assert s.started + [s.queue[0]] + s.queue[1..] == s.started + s.queue;
    }
  }

  /** A delivered interrupt clears the flag before it pumps, and leaves the interrupted code where it was. */
  lemma InterruptDispatchesAll(s: State)
    requires Serving(s) && RunsJs(s) && s.outstanding > 0
    ensures Run(s, [FireInterrupt] + ([ClearFlag] + Pumping(|s.queue|)))
            == s.(queue := [], started := s.started + s.queue, flag := false, outstanding := s.outstanding - 1)
  {
    hide Run, Pumping;
    var t := Next(s, FireInterrupt);
    var u := Next(t, ClearFlag);
    RunOne(s, FireInterrupt, [ClearFlag] + Pumping(|s.queue|));
    RunOne(t, ClearFlag, Pumping(|s.queue|));
    assert Below(t) == s.stack && Below(u) == s.stack;
    PumpDispatchesAll(u);
  }

  /** So does a pump that host code calls. */
  lemma CalledPumpDispatchesAll(s: State)
    requires Serving(s) && RunsHost(s)
    ensures Run(s, [CallPump] + Pumping(|s.queue|)) == s.(queue := [], started := s.started + s.queue)
  {
    hide Run, Pumping;
    var t := Next(s, CallPump);
    RunOne(s, CallPump, Pumping(|s.queue|));
    assert Below(t) == s.stack;
    PumpDispatchesAll(t);
  }

  /** From the transport thread to its dispatch, while JavaScript runs: a message enqueued when no interrupt is on its way
      brings one that dispatches it and all before it. */
  lemma MessageReachesJs(s: State, m: Message)
    requires Serving(s) && s.producer == Idle && !s.flag && RunsJs(s)
    ensures
      var e := Run(s, Enqueue(m, false));
      && e.outstanding > 0
      && Run(e, [FireInterrupt] + ([ClearFlag] + Pumping(|e.queue|)))
         == s.(sent := s.sent + [m], queue := [], started := s.started + (s.queue + [m]))
  {
    hide Run, Pumping, Enqueue;
    EnqueueExactly(s, m);
    assert Signal(s.stack) == s.stack;
    InterruptDispatchesAll(Run(s, Enqueue(m, false)));
  }

  // ---- pauses --------------------------------------------------------------------------------------

  /** A breakpoint pauses, in the host's loop if it has one. */
  lemma BreakpointPauses(s: State, hostLoop: bool)
    requires Serving(s) && (Top(s, Host) || Top(s, Dispatch))
    ensures Next(s, HitBreakpoint(hostLoop))
            == s.(paused := true, stack := s.stack + [if hostLoop then PauseHandler else PauseLoop])
  {
  }

  /** There is a pause loop, the host's or the bridge's own. */
  ghost predicate InAPause(stack: seq<Frame>) { exists k: nat {:trigger stack[k]} :: k < |stack| && InPause(stack[k]) }

  lemma StepPaused(s: State, a: Step)
    requires Enabled(s, a) && s.stack != [] && (s.paused ==> InAPause(s.stack))
    ensures var r := Next(s, a); r.paused ==> InAPause(r.stack)
  {
    hide WaitNext, Signal;
    var r, n := Next(s, a), |s.stack| - 1;
    StackDiscipline(s, a);
    if s.paused {
      var k: nat :| k < |s.stack| && InPause(s.stack[k]);
      if k < n { assert r.stack[k] == r.stack[..n][k] == s.stack[..n][k]; } else { TopPaused(s, a); }
    } else if r.paused {
      assert r.stack[n + 1] == PauseHandler || r.stack[n + 1] == PauseLoop;
    }
  }

  lemma TopPaused(s: State, a: Step)
    requires Enabled(s, a) && s.stack != [] && InPause(s.stack[|s.stack| - 1]) && s.paused
    ensures var r, n := Next(s, a), |s.stack| - 1; r.paused ==> n < |r.stack| && InPause(r.stack[n])
  {
    hide WaitNext;
  }

  lemma {:induction false} RunPaused(s: State, steps: seq<Step>)
    requires Inv(s) && (s.paused ==> InAPause(s.stack))
    ensures var r := Run(s, steps); r.paused ==> InAPause(r.stack)
    decreases |steps|
  {
    hide Next, Enabled, Inv, InAPause;
    if steps != [] {
      if Enabled(s, steps[0]) {
        NonEmptyStack(s);
        StepPaused(s, steps[0]);
        StepInv(s, steps[0]);
        RunPaused(Next(s, steps[0]), steps[1..]);
      } else {
        RunPaused(s, steps[1..]);
      }
    }
  }

  /** In every run the bridge is paused only while a pause loop is on the stack, so code that is not in one is not kept
      waiting for a resume. */
  lemma PausedOnlyInPause(steps: seq<Step>)
    ensures var s := Run(INIT, steps); s.paused ==> InAPause(s.stack)
  {
    hide Run, Inv;
    InitInv();
    RunPaused(INIT, steps);
  }

  /** A paused loop pumps: its next two steps start the oldest message. */
  lemma PauseLoopPumps(s: State)
    requires Serving(s) && s.paused && Top(s, PauseLoop) && s.queue != []
    ensures
      && Enabled(s, PauseStep) && Enabled(Next(s, PauseStep), TakeMessage)
      && var r := Next(Next(s, PauseStep), TakeMessage);
      r.started == s.started + [s.queue[0]] && r.queue == s.queue[1..] && r.stack == Below(s) + [PauseCheck, Dispatch]
  {
    var p := Next(s, PauseStep);
    assert p.stack == Below(s) + [PauseCheck] + [Pump];
    assert Below(p) == Below(s) + [PauseCheck];
    assert Next(p, TakeMessage).stack == Below(s) + [PauseCheck] + [Dispatch];
  }

  /** One turn of the loop dispatches everything before it looks whether it should go on. */
  lemma PauseLoopTurn(s: State)
    requires Serving(s) && s.paused && Top(s, PauseLoop)
    ensures Run(s, [PauseStep] + Pumping(|s.queue|))
            == s.(queue := [], started := s.started + s.queue, stack := Below(s) + [PauseCheck])
  {
    hide Run, Pumping;
    var p := Next(s, PauseStep);
    RunOne(s, PauseStep, Pumping(|s.queue|));
    assert p.stack == Below(s) + [PauseCheck] + [Pump];
    assert Below(p) == Below(s) + [PauseCheck];
    PumpDispatchesAll(p);
  }

  /** Still paused, it waits and turns again. */
  lemma PauseLoopGoesOn(s: State)
    requires Serving(s) && s.paused && Top(s, PauseCheck)
    ensures Run(s, [PauseStep] + [PauseStep]) == s.(stack := Below(s) + [PauseLoop])
  {
    hide Run;
    TwoPauseSteps(s, s.(stack := Below(s) + [PauseWait]));
  }

  /** No longer paused, it ends where the breakpoint was hit. */
  lemma PauseEnds(s: State)
    requires Serving(s) && !s.paused && (Top(s, PauseCheck) || Top(s, PauseLoop))
    ensures Run(s, [PauseStep] + [PauseStep]) == s.(stack := Below(s))
  {
    hide Run;
    var p := s.(stack := Below(s) + [PauseExit]);
    TwoPauseSteps(s, p);
    ExitEnds(p);
  }

  lemma ExitEnds(s: State)
    requires Enabled(s, PauseStep) && Top(s, PauseExit)
    ensures PauseNext(s) == s.(paused := false, stack := Below(s))
  {
  }

  /** A host loop decides by itself when it returns; that ends the pause. */
  lemma HandlerEndsPause(s: State)
    requires Serving(s) && Top(s, PauseHandler)
    ensures Run(s, [PauseStep] + [PauseStep]) == s.(paused := false, stack := Below(s))
  {
    hide Run;
    TwoPauseSteps(s, s.(stack := Below(s) + [PauseExit]));
  }

  /** The pause loop takes two steps, by way of p. */
  lemma TwoPauseSteps(s: State, p: State)
    requires Serving(s) && s.stack != [] && InPause(s.stack[|s.stack| - 1]) && !Top(s, PauseExit)
    requires PauseSteps(s, p) && p == s.(stack := Below(s) + [p.stack[|p.stack| - 1]]) && InPause(p.stack[|p.stack| - 1])
    ensures PauseSteps(p, Run(s, [PauseStep] + [PauseStep])) && Below(p) == Below(s)
  {
    hide Run, PauseNext, InPause;
    assert Below(p) == Below(s);
    RunOne(s, PauseStep, [PauseStep]);
    assert [PauseStep] == [PauseStep] + [];
    RunOne(p, PauseStep, []);
    RunNone(PauseNext(p));
  }

  predicate PauseSteps(s: State, r: State) { Enabled(s, PauseStep) && r == PauseNext(s) }

  /** A breakpoint can be resumed: when a message dispatched by the pause loop asks for it, whatever else is queued is
      dispatched, and the loop returns. */
  lemma ResumeEndsPause(s: State, below: seq<Frame>)
    requires Serving(s) && s.stack == below + [PauseCheck, Dispatch]
    ensures
      var p := Run(s, [QuitPause] + ([DispatchReturns] + Pumping(|s.queue|)));
      && p == s.(queue := [], started := s.started + s.queue, paused := false, stack := below + [PauseCheck])
      && Run(p, [PauseStep] + [PauseStep]) == p.(stack := below)
  {
    hide Run, Pumping;
    var q := Next(s, QuitPause);
    var d := Next(q, DispatchReturns);
    RunOne(s, QuitPause, [DispatchReturns] + Pumping(|s.queue|));
    RunOne(q, DispatchReturns, Pumping(|s.queue|));
    assert Below(q) == below + [PauseCheck];
    assert Below(d) == below + [PauseCheck];
    PumpDispatchesAll(d);
    var p := d.(queue := [], started := d.started + d.queue, stack := Below(d));
    assert Below(p) == below;
    PauseEnds(p);
  }

  /** Directly above the point where a pause loop will look again there is a pump, or what that pump dispatches. */
  ghost predicate Pumped(stack: seq<Frame>) {
    forall k: nat {:trigger stack[k]} :: k + 1 < |stack| && stack[k] == PauseCheck ==>
      stack[k + 1] == Pump || stack[k + 1] == Dispatch
  }

  /** What a step makes of the innermost activation. */
  lemma TopPumped(s: State, a: Step)
    requires Enabled(s, a) && s.stack != []
    ensures var r, n := Next(s, a).stack, |s.stack| - 1;
      && (Top(s, Pump) || Top(s, Dispatch) ==> |r| <= n || r[n] == Pump || r[n] == Dispatch)
      && (|r| == n + 2 ==> r[n + 1] != PauseCheck && (r[n] == PauseCheck ==> r[n + 1] == Pump))
      && (|r| == n + 1 && r[n] == PauseCheck ==> s.stack[n] == PauseCheck)
      && (Top(s, Dispatch) ==> |r| > n)
      && (|r| == n && Top(s, Pump) ==> a.TakeMessage? && s.queue == [])
  {
    var r, n := Next(s, a).stack, |s.stack| - 1;
    if a.PauseStep? && |r| == n + 2 { assert r == Below(s) + [PauseCheck] + [Pump]; }
  }

  lemma StepPumped(s: State, a: Step)
    requires Enabled(s, a) && s.stack != [] && Pumped(s.stack)
    ensures Pumped(Next(s, a).stack)
    ensures Top(Next(s, a), PauseCheck) && !Top(s, PauseCheck) ==> Top(s, Pump) && a.TakeMessage? && s.queue == []
  {
    hide Next;
    var t, r, n := s.stack, Next(s, a).stack, |s.stack| - 1;
    StackDiscipline(s, a);
    TopPumped(s, a);
    assert forall k | 0 <= k < n :: r[k] == r[..n][k] && t[k] == t[..n][k];
    assert n > 0 && t[n - 1] == PauseCheck ==> Top(s, Pump) || Top(s, Dispatch);
  }

  lemma {:induction false} RunPumped(s: State, steps: seq<Step>)
    requires Inv(s) && Pumped(s.stack)
    ensures Pumped(Run(s, steps).stack)
    decreases |steps|
  {
    hide Next, Enabled, Inv;
    if steps != [] {
      if Enabled(s, steps[0]) {
        NonEmptyStack(s);
        StepPumped(s, steps[0]);
        StepInv(s, steps[0]);
        RunPumped(Next(s, steps[0]), steps[1..]);
      } else {
        RunPumped(s, steps[1..]);
      }
    }
  }

  lemma NonEmptyStack(s: State)
    requires Inv(s)
    ensures s.stack != []
  {
  }

  /** In every run, a pause loop looks whether it is still paused only after that turn's pump has seen the queue empty. */
  lemma PauseSeesEmpty(steps: seq<Step>, a: Step)
    requires Enabled(Run(INIT, steps), a)
    ensures var s := Run(INIT, steps);
      Top(Next(s, a), PauseCheck) && !Top(s, PauseCheck) ==> Top(s, Pump) && a.TakeMessage? && s.queue == []
  {
    hide Run, Next, Inv;
    InitInv();
    RunInv(INIT, steps);
    assert Pumped(INIT.stack);
    RunPumped(INIT, steps);
    NonEmptyStack(Run(INIT, steps));
    StepPumped(Run(INIT, steps), a);
  }

  // ---- stopping ------------------------------------------------------------------------------------

  /** Stopping ends a pause, and what was not dispatched stays in the queue. */
  lemma StopEndsPause(s: State)
    requires Serving(s) && RunsJs(s) && s.producer == Idle
    ensures Run(s, STOP_AND_DELETE) == s.(stage := Destroyed, paused := false)
  {
    hide Run;
    var a := Next(s, CallStop);
    var b := Next(a, Joined);
    var c := Next(b, Delete);
    assert STOP_AND_DELETE == [CallStop] + ([Joined] + ([Delete] + []));
    RunOne(s, CallStop, [Joined] + ([Delete] + []));
    RunOne(a, Joined, [Delete] + []);
    RunOne(b, Delete, []);
    RunNone(c);
  }

  /** An interrupt of a deleted bridge does nothing; a bridge at its address starts afresh but for those. */
  lemma NewBridgeIsFresh(s: State)
    requires s.stage == Destroyed && !s.touchedDead && s.producer == Idle && s.stack == [Host]
    ensures Enabled(s, Reuse)
    ensures Next(s, Reuse) == INIT.(outstanding := s.outstanding, carried := s.outstanding)
    ensures s.outstanding > 0 ==>
      Enabled(s, FireInterrupt) && Next(s, FireInterrupt) == s.(outstanding := s.outstanding - 1)
  {
  }

  // ---- waits ---------------------------------------------------------------------------------------

  predicate Waiting(s: State) { s.stack != [] && (s.stack[|s.stack| - 1].WaitEntry? || s.stack[|s.stack| - 1].Blocked?) }

  /** Wait returns at once if there is something to do, otherwise when it was signalled and there is, or timed out. */
  lemma WaitReturnsExactly(s: State, a: Step)
    requires Serving(s) && Enabled(s, a) && Waiting(s)
    ensures
      var top := s.stack[|s.stack| - 1];
      |Next(s, a).stack| < |s.stack| <==>
        (a.WaitStep? && Ready(s) && (top.WaitEntry? || top.signalled)) || (a.Timeout? && top.Blocked? && !top.forever)
    ensures a.WaitStep? && |Next(s, a).stack| >= |s.stack| ==>
      Next(s, a) == s.(stack := Below(s) + [Blocked(s.stack[|s.stack| - 1].forever, false)])
  {
  }

  /** A message wakes the thread that sleeps in Wait, and it returns. */
  lemma MessageWakes(s: State, m: Message)
    requires Serving(s) && s.producer == Idle && s.stack != [] && s.stack[|s.stack| - 1].Blocked?
    ensures
      var e := Run(s, Enqueue(m, s.flag));
      Enabled(e, WaitStep) && Next(e, WaitStep).stack == Below(s)
  {
    hide Run, Enqueue;
    EnqueueExactly(s, m);
    var e := Run(s, Enqueue(m, s.flag));
    assert Below(e) == Below(s);
  }

  /** A wait begins to sleep, with its time limit if it has one, exactly if there is nothing to do. */
  lemma WaitSleepsExactly(s: State, forever: bool)
    requires Serving(s) && RunsHost(s)
    ensures Run(s, [CallWait(forever)] + [WaitStep])
            == s.(stack := if Ready(s) then s.stack else s.stack + [Blocked(forever, false)])
  {
    hide Run;
    var w := Next(s, CallWait(forever));
    RunOne(s, CallWait(forever), [WaitStep]);
    assert [WaitStep] == [WaitStep] + [] && Below(w) == s.stack;
    RunOne(w, WaitStep, []);
    RunNone(Next(w, WaitStep));
  }
}
