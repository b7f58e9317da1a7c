/** Which finalizers run, and what they can still see, over whole runs. */
module JscLedgerFinalizers {
  import opened Common
  import opened JscLedger
  import opened JscLedgerBalance
  import opened JscLedgerSafety
  import opened JscLedgerRuns

  // ---- a removed wrap ----------------------------------------------------------------------------

  /** The finalizer of the holder was never queued and is gone. */
  ghost predicate Disarmed(e: Env, h: nat) {
    h < |e.holders| && !e.holders[h].finalizer && OfHolder(h) !in e.enqueued
  }

  lemma RefStepDisarmed(e: Env, s: Step, h: nat)
    requires CanStep(e) && RefStep(s) && Enabled(e, s) && Disarmed(e, h)
    ensures Disarmed(Exec(e, s), h)
  {
    hide WrapHolder, Backs, Push, Holds, DoDeleteRef, DoStrengthen, DoWeaken, KillAll, MakeReference, Attach,
      DoCreateExternal, Enabled;
    RefEnabled(e, s);
    var r := Exec(e, s);
    if s.CreateReference? || s.Wrap? || s.AddFinalizer? || s.CreateExternal? {
      assert r.holders[..|e.holders|] == e.holders;
      assert r.holders[h] == r.holders[..|e.holders|][h];
    }
  }

  lemma NextDisarmed(e: Env, s: Step, h: nat)
    requires Disarmed(e, h)
    ensures Disarmed(Next(e, s), h)
  {
    hide Enabled, Exec;
    if e.aborted || !CanStep(e) || !Enabled(e, s) || (Guarded(s) && (e.inGc || e.pending.Some?)) {
    } else if ScopeStep(s) {
      ScopeStepFields(e, s);
    } else if RefStep(s) {
      RefStepDisarmed(e, s, h);
    } else {
      FrameStepFields(e, s);
      if s.NextFinalizer? { NextFinalizerRan(e, s); }
    }
  }

  lemma {:induction false} RunDisarmed(e: Env, steps: seq<Step>, h: nat)
    requires Disarmed(e, h)
    ensures Disarmed(Run(e, steps), h)
    decreases |steps|
  {
    hide Next, Disarmed;
    if steps != [] {
      NextDisarmed(e, steps[0], h);
      RunDisarmed(Next(e, steps[0]), steps[1..], h);
    }
  }

  lemma RemovedIsDisarmed(e: Env, v: Val, h: nat)
    requires Inv(e) && WrapHolder(e, v) == Some(h)
    ensures Disarmed(DoRemoveWrap(e, v), h)
  {
    hide FindWrap, Backs, StackGood, RefsGood, SettlesGood, Covered;
    forall i | 0 <= i < |e.enqueued| ensures e.enqueued[i] != OfHolder(h) {
      assert EntryGood(e, i);
    }
  }

  /** The call is made and gets past its guards. */
  predicate Accepts(e: Env, s: Step) {
    !e.aborted && Enabled(e, s) && (Guarded(s) ==> !e.inGc && e.pending.None?)
  }

  lemma RemoveTaken(e: Env, v: Val)
    requires CanStep(e) && Accepts(e, RemoveWrap(v))
    ensures Next(e, RemoveWrap(v)) == DoRemoveWrap(e, v)
  {
    hide DoRemoveWrap;
  }

  /** After napi_remove_wrap the finalizer of that wrap never starts, whatever happens later. */
  lemma RemovedWrapNeverFinalizes(e: Env, v: Val, h: nat, steps: seq<Step>)
    requires Inv(e) && WrapHolder(e, v) == Some(h) && Accepts(e, RemoveWrap(v))
    ensures OfHolder(h) !in Run(Next(e, RemoveWrap(v)), steps).ran
  {
    hide Inv, DoRemoveWrap, WrapHolder, Next, Accepts, Run;
    var r := Next(e, RemoveWrap(v));
    InvStack(e);
    RemoveTaken(e, v);
    RemovedIsDisarmed(e, v, h);
    NextInv(e, RemoveWrap(v));
    RunDisarmed(r, steps, h);
    RunInv(r, steps);
    RanWasQueued(Run(r, steps), h);
  }

  lemma RanWasQueued(e: Env, h: nat)
    requires Inv(e)
    ensures OfHolder(h) in e.ran ==> OfHolder(h) in e.enqueued
  {
    hide StackGood, RefsGood, SettlesGood, Covered;
    assert OfHolder(h) in e.ran ==> OfHolder(h) in e.ran + e.queue;
  }

  // ---- references on a wrapped object ------------------------------------------------------------

  /** The reference stays on the holder it was put on. */
  ghost predicate On(e: Env, i: nat, h: nat) {
    i < |e.refs| && e.refs[i].weakable && e.refs[i].holder == h
  }

  lemma NextOn(e: Env, s: Step, i: nat, h: nat)
    requires On(e, i, h)
    ensures On(Next(e, s), i, h)
  {
    hide Enabled, Exec;
    if CanStep(e) { NextRefs(e, s, i); }
  }

  lemma {:induction false} RunOn(e: Env, steps: seq<Step>, i: nat, h: nat)
    requires On(e, i, h)
    ensures On(Run(e, steps), i, h)
    decreases |steps|
  {
    hide Next, On;
    if steps != [] {
      NextOn(e, steps[0], i, h);
      RunOn(Next(e, steps[0]), steps[1..], i, h);
    }
  }

  lemma CreatedOnWrap(e: Env, v: Val, h: nat, count: uint32, landed: bool)
    requires WrapHolder(e, v) == Some(h)
    ensures On(MakeReference(e, v, true, count, landed), |e.refs|, h)
  {
    hide FindWrap, Holds;
  }

  lemma CreateTaken(e: Env, v: Val, count: uint32, landed: bool)
    requires CanStep(e) && Accepts(e, CreateReference(v, true, count, landed))
    ensures Next(e, CreateReference(v, true, count, landed)) == MakeReference(e, v, true, count, landed)
  {
    hide MakeReference;
  }

  /** A reference created to an object while it is wrapped reads empty by the time the finalizer of that wrap
      is queued, so the finalizer never sees the object through it, whatever happens in between. */
  lemma WrapFinalizerSeesEmpty(e: Env, v: Val, h: nat, count: uint32, landed: bool, steps: seq<Step>)
    requires Inv(e) && WrapHolder(e, v) == Some(h) && Accepts(e, CreateReference(v, true, count, landed))
    ensures var r := Run(Next(e, CreateReference(v, true, count, landed)), steps);
      |e.refs| < |r.refs| && (OfHolder(h) in r.enqueued ==> Reads(r.refs[|e.refs|]) == None)
  {
    hide Inv, MakeReference, WrapHolder, Run, Next, Accepts;
    var e1 := Next(e, CreateReference(v, true, count, landed));
    InvStack(e);
    CreateTaken(e, v, count, landed);
    CreatedOnWrap(e, v, h, count, landed);
    NextInv(e, CreateReference(v, true, count, landed));
    RunOn(e1, steps, |e.refs|, h);
    RunInv(e1, steps);
    var r := Run(e1, steps);
    if OfHolder(h) in r.enqueued {
      var k :| 0 <= k < |r.enqueued| && r.enqueued[k] == OfHolder(h);
      FinalizerSeesEmptyReferences(r, k, |e.refs|);
    }
  }

  // ---- the GC guard ------------------------------------------------------------------------------

  /** The finalizer of a holder that was made basic. */
  predicate BasicFrame(e: Env, f: Frame) {
    f.InFinalizer? && f.entry.OfHolder? && f.entry.h < |e.holders| && e.holders[f.entry.h].basic
  }

  /** What can lie above a basic finalizer: an unguarded call, and the callbacks that its JavaScript runs. */
  predicate Unguarded(f: Frame) { f.InQuery? || f.InCallback? }

  /** Below the frame, a basic finalizer means the guard is up and only unguarded activations are above it. */
  predicate FrameGood(e: Env, i: nat)
    requires i < |e.frames|
  {
    && (BasicFrame(e, e.frames[i]) ==> e.inGc && forall j :: i < j < |e.frames| ==> Unguarded(e.frames[j]))
    && (e.frames[i].InFinalizer? && e.frames[i].entry.OfHolder? ==> e.frames[i].entry.h < |e.holders|)
  }

  /** The guard is up exactly while the finalizer of a basic holder is on the stack. */
  ghost predicate GuardGood(e: Env) {
    && (e.inGc ==> exists i: nat {:trigger e.frames[i]} :: i < |e.frames| && BasicFrame(e, e.frames[i]))
    && (forall i: nat {:trigger FrameGood(e, i)} :: i < |e.frames| ==> FrameGood(e, i))
  }

  /** No holder that is there changes between basic and regular. */
  ghost predicate SameKinds(e: Env, r: Env) {
    |e.holders| <= |r.holders| && forall h | 0 <= h < |e.holders| :: r.holders[h].basic == e.holders[h].basic
  }

  lemma RefStepKinds(e: Env, s: Step)
    requires CanStep(e) && RefStep(s) && Enabled(e, s)
    ensures SameKinds(e, Exec(e, s)) && Exec(e, s).inGc == e.inGc && Exec(e, s).frames == e.frames
  {
    if MakeStep(s) {
      hide Exec, Enabled;
      MakeStepHolders(e, s);
    } else {
      ChangeStepKinds(e, s);
    }
  }

  lemma ChangeStepKinds(e: Env, s: Step)
    requires CanStep(e) && RefStep(s) && !MakeStep(s) && Enabled(e, s)
    ensures SameKinds(e, Exec(e, s)) && Exec(e, s).inGc == e.inGc && Exec(e, s).frames == e.frames
  {
    hide WrapHolder, Backs, Holds, DoDeleteRef, DoStrengthen, DoWeaken, KillAll, Enabled, DoRemoveWrap, DoCollect, DoPost;
    RefEnabled(e, s);
    if s.RemoveWrap? {
      RemoveWrapKinds(e, s.v);
    } else if s.Collect? {
      CollectKinds(e, s.h);
    }
  }

  lemma RemoveWrapKinds(e: Env, v: Val)
    ensures SameKinds(e, DoRemoveWrap(e, v))
  {
    hide WrapHolder, Backs;
  }

  lemma CollectKinds(e: Env, h: nat)
    requires h < |e.holders|
    ensures SameKinds(e, DoCollect(e, h))
  {
    hide KillAll;
  }

  lemma ScopeStepGuard(e: Env, s: Step)
    requires GuardGood(e) && CanStep(e) && ScopeStep(s) && Enabled(e, s)
    ensures GuardGood(Exec(e, s))
  {
    hide GuardGood, Exec;
    ScopeStepFields(e, s);
    var r := Exec(e, s);
    if s.EnterCallback? {
      PushGuard(e, r, InCallback(|e.scopes|, e.scopes));
    } else if s.LeaveCallback? {
      PopGuard(e, r);
    } else {
      KindsRefl(e, r);
      SameGuard(e, r);
    }
  }

  lemma FrameStepGuard(e: Env, s: Step)
    requires GuardGood(e) && QueueGood(e) && CanStep(e) && !ScopeStep(s) && !RefStep(s) && Enabled(e, s)
    requires Guarded(s) ==> !e.inGc
    ensures GuardGood(Exec(e, s))
  {
    hide DoCreatePromise, EndSettle, Record, QueueGood, SameKinds, GuardGood, BasicFrame, IsBasic, EndSettle;
    FrameStepFields(e, s);
    GuardAbove(e);
    var r := Exec(e, s);
    match s
    case CreatePromise(_, _, _) => SameGuard(e, r) by { KindsRefl(e, r); }
    case Settle(d) => PushGuard(e, r, Settling(d));
    case CallJs => PushGuard(e, r, InJs);
    case QueryJs => PushGuard(e, r, InQuery);
    case BuildFactory(_) => SameGuard(e, r) by { KindsRefl(e, r); }
    case JsReturns(_) => PopGuard(e, r);
    case Drain => PushGuard(e, r, InDrain);
    case NextFinalizer => FinalizerGuard(e);
    case FinalizerReturns =>
      FinalizerPops(e);
      if e.pending.Some? { PushGuard(PopFrame(e).(inGc := false), r, Surfacing(e.pending.value)); }
    case Surfaced => PopGuard(e, r);
    case DrainEnds => PopGuard(e, r);
  }

  lemma KindsRefl(e: Env, r: Env)
    requires r.holders == e.holders
    ensures SameKinds(e, r)
  {
  }

  /** While the guard is up the innermost activation is a finalizer or an unguarded one. */
  lemma GuardAbove(e: Env)
    requires GuardGood(e)
    ensures e.inGc ==> Top(e).Some? && (Top(e).value.InFinalizer? || Unguarded(Top(e).value))
  {
    if e.inGc {
      var i: nat :| i < |e.frames| && BasicFrame(e, e.frames[i]);
      assert FrameGood(e, i);
    }
  }

  lemma PushGuard(e: Env, r: Env, f: Frame)
    requires GuardGood(e) && r.inGc == e.inGc && r.holders == e.holders && r.frames == e.frames + [f] && !f.InFinalizer?
    requires e.inGc ==> Unguarded(f)
    ensures GuardGood(r)
  {
    forall i: nat | i < |r.frames| ensures FrameGood(r, i) {
      if i < |e.frames| { assert FrameGood(e, i); }
    }
    if e.inGc {
      var i: nat :| i < |e.frames| && BasicFrame(e, e.frames[i]);
      assert BasicFrame(r, r.frames[i]);
    }
  }

  /** Anything but a finalizer returns. */
  lemma PopGuard(e: Env, r: Env)
    requires GuardGood(e) && e.frames != [] && !Top(e).value.InFinalizer?
    requires r.inGc == e.inGc && r.holders == e.holders && r.frames == e.frames[..|e.frames| - 1]
    ensures GuardGood(r)
  {
    forall i: nat | i < |r.frames| ensures FrameGood(r, i) {
      assert FrameGood(e, i);
    }
    if e.inGc {
      var i: nat :| i < |e.frames| && BasicFrame(e, e.frames[i]);
      assert BasicFrame(r, r.frames[i]);
    }
  }

  /** A finalizer returns, and the flag is cleared: no other basic one is on the stack. */
  lemma FinalizerPops(e: Env)
    requires GuardGood(e) && Top(e).Some? && Top(e).value.InFinalizer?
    ensures GuardGood(PopFrame(e).(inGc := false))
  {
    var r := PopFrame(e).(inGc := false);
    forall i: nat | i < |r.frames| ensures FrameGood(r, i) {
      assert FrameGood(e, i);
    }
  }

  lemma FinalizerGuard(e: Env)
    requires GuardGood(e) && QueueGood(e) && e.queue != [] && Top(e) == Some(InDrain)
    ensures GuardGood(DoNextFinalizer(e))
  {
    hide NoDup, QueueGood;
    NextEntryGood(e);
    GuardAbove(e);
    var r, n := DoNextFinalizer(e), |e.frames|;
    assert r.frames[n] == InFinalizer(e.queue[0]);
    forall i: nat | i < |r.frames| ensures FrameGood(r, i) {
      if i < n { assert FrameGood(e, i); }
    }
  }

  lemma NextEntryGood(e: Env)
    requires QueueGood(e) && e.queue != []
    ensures e.queue[0].OfHolder? ==> e.queue[0].h < |e.holders|
  {
    hide NoDup;
    assert e.enqueued[|e.ran|] == e.queue[0] && EntryGood(e, |e.ran|);
  }

  lemma NextGuard(e: Env, s: Step)
    requires GuardGood(e) && Inv(e)
    ensures GuardGood(Next(e, s))
  {
    hide Enabled, Exec, Inv, QueueGood, GuardGood;
    InvStack(e);
    if e.aborted || !CanStep(e) || !Enabled(e, s) || (Guarded(s) && !e.inGc && e.pending.Some?) {
    } else if Guarded(s) && e.inGc {
      AbortedGuard(e);
    } else if ScopeStep(s) {
      ScopeStepGuard(e, s);
    } else if RefStep(s) {
      RefStepKinds(e, s);
      SameGuard(e, Exec(e, s));
    } else {
      FrameStepGuard(e, s);
    }
  }

  lemma AbortedGuard(e: Env)
    requires GuardGood(e)
    ensures GuardGood(e.(aborted := true))
  {
    var r := e.(aborted := true);
    KindsRefl(e, r);
    SameGuard(e, r);
  }

  lemma SameGuard(e: Env, r: Env)
    requires GuardGood(e) && SameKinds(e, r) && r.inGc == e.inGc && r.frames == e.frames
    ensures GuardGood(r)
  {
    forall i: nat | i < |r.frames| ensures FrameGood(r, i) && BasicFrame(r, r.frames[i]) == BasicFrame(e, e.frames[i]) {
      assert FrameGood(e, i);
    }
    if e.inGc {
      var i: nat :| i < |e.frames| && BasicFrame(e, e.frames[i]);
      assert BasicFrame(r, r.frames[i]);
    }
  }

  lemma {:induction false} RunGuard(e: Env, steps: seq<Step>)
    requires Inv(e) && GuardGood(e)
    ensures GuardGood(Run(e, steps))
    decreases |steps|
  {
    hide Inv, Next, GuardGood;
    if steps != [] {
      NextGuard(e, steps[0]);
      NextInv(e, steps[0]);
      RunGuard(Next(e, steps[0]), steps[1..]);
    }
  }

  /** In every reachable state the GC guard is up exactly while the finalizer of a basic holder is on the stack: never
      for a posted finalizer, nor for that of a holder that is not basic. Above it there is nothing, or an unguarded call and the callbacks its
      JavaScript runs, which are under the guard as well. */
  lemma GuardExactly(experimental: bool, cached: multiset<Val>, steps: seq<Step>)
    ensures var e := Run(Init(experimental, cached), steps);
      && (e.inGc <==> exists i: nat {:trigger e.frames[i]} :: i < |e.frames| && BasicFrame(e, e.frames[i]))
      && forall i: nat, j: nat {:trigger e.frames[i], e.frames[j]} :: i < j < |e.frames| && BasicFrame(e, e.frames[i]) ==>
           Unguarded(e.frames[j])
  {
    hide Inv, Run;
    InitInv(experimental, cached);
    assert GuardGood(Init(experimental, cached));
    RunGuard(Init(experimental, cached), steps);
    var e := Run(Init(experimental, cached), steps);
    forall i: nat | i < |e.frames| && BasicFrame(e, e.frames[i])
      ensures e.inGc && forall j: nat :: i < j < |e.frames| ==> Unguarded(e.frames[j])
    {
      assert FrameGood(e, i);
    }
  }

  // ---- which holders are basic ---------------------------------------------------------------------

  lemma NextKinds(e: Env, s: Step)
    requires CanStep(e)
    ensures SameKinds(e, Next(e, s)) && Next(e, s).experimental == e.experimental
  {
    hide Enabled, Exec, SameKinds;
    NextExperimental(e, s);
    if e.aborted || !Enabled(e, s) || (Guarded(s) && (e.inGc || e.pending.Some?)) {
      KindsRefl(e, Next(e, s));
    } else if ScopeStep(s) {
      ScopeStepFields(e, s);
      KindsRefl(e, Next(e, s));
    } else if RefStep(s) {
      RefStepKinds(e, s);
    } else {
      FrameStepFields(e, s);
      KindsRefl(e, Next(e, s));
    }
  }

  /** The fields no call but the two on buffers writes. */
  predicate Constant(e: Env, r: Env, s: Step) {
    r.experimental == e.experimental && r.aborted == e.aborted && (s.CreateBuffer? || s.FreeBuffer? || r.buffers == e.buffers)
  }

  lemma ExecConstant(e: Env, s: Step)
    requires CanStep(e) && Enabled(e, s)
    ensures Constant(e, Exec(e, s), s)
  {
    hide Exec, Enabled, CanStep;
    if ScopeStep(s) {
      ScopeConstant(e, s);
    } else if RefStep(s) {
      RefConstant(e, s);
    } else {
      FrameConstant(e, s);
    }
  }

  lemma ScopeConstant(e: Env, s: Step)
    requires CanStep(e) && ScopeStep(s) && Enabled(e, s)
    ensures Constant(e, Exec(e, s), s)
  {
    hide ExecRef, ExecFrame, Push, DoOpenScope, DoCloseScope, DoEscape, Record, DoTakeException, DoEnterCallback,
      DoLeaveCallback;
    assert Exec(e, s) == ExecScope(e, s);
  }

  lemma RefConstant(e: Env, s: Step)
    requires CanStep(e) && RefStep(s) && Enabled(e, s)
    ensures Constant(e, Exec(e, s), s)
  {
    hide ExecScope, ExecFrame, MakeReference, Attach, DoRemoveWrap, DoCreateExternal, DoDeleteRef, DoStrengthen, DoWeaken,
      DoCollect, DoPost, WrapHolder;
    assert Exec(e, s) == ExecRef(e, s);
  }

  lemma FrameConstant(e: Env, s: Step)
    requires CanStep(e) && !ScopeStep(s) && !RefStep(s) && Enabled(e, s)
    ensures Constant(e, Exec(e, s), s)
  {
    hide ExecScope, ExecRef, DoCreatePromise, DoSettle, DoJsReturns, DoNextFinalizer, DoFinalizerReturns, DoSurfaced;
    assert Exec(e, s) == ExecFrame(e, s);
  }

  lemma NextExperimental(e: Env, s: Step)
    ensures Next(e, s).experimental == e.experimental
  {
    hide Exec, Enabled, CanStep;
    if CanStep(e) && Enabled(e, s) { ExecConstant(e, s); }
  }

  lemma {:induction false} RunKinds(e: Env, steps: seq<Step>)
    requires Inv(e)
    ensures SameKinds(e, Run(e, steps)) && Run(e, steps).experimental == e.experimental
    decreases |steps|
  {
    hide Inv, Next;
    if steps != [] {
      InvStack(e);
      NextKinds(e, steps[0]);
      NextInv(e, steps[0]);
      RunKinds(Next(e, steps[0]), steps[1..]);
    }
  }

  /** A holder that a call makes and that carries a finalizer of the program. */
  predicate MakesHolder(e: Env, s: Step) {
    (s.Wrap? && WrapHolder(e, s.v).None?) || s.AddFinalizer? || s.CreateExternal?
  }

  lemma MadeHolder(e: Env, s: Step)
    requires CanStep(e) && Accepts(e, s) && MakesHolder(e, s)
    ensures var r := Next(e, s);
      && |r.holders| == |e.holders| + 1 && r.holders[|e.holders|].anchor == s.v
      && (r.holders[|e.holders|].basic <==> e.experimental && !s.CreateExternal?)
      && (r.holders[|e.holders|].finalizer <==> s.AddFinalizer? || s.finalizer)
      && (s.Wrap? || s.CreateExternal? ==> r.holders[|e.holders|].data == s.data)
  {
    hide Push, FindWrap, Holds, ExecScope, ExecFrame;
    assert Next(e, s) == ExecRef(e, s);
  }

  /** The holder of a wrap or of an added finalizer is basic for good exactly if the module is experimental, and that of
      an external never is. */
  lemma BasicExactly(e: Env, s: Step, steps: seq<Step>)
    requires Inv(e) && Accepts(e, s) && MakesHolder(e, s)
    ensures var r := Run(Next(e, s), steps);
      |e.holders| < |r.holders| && (r.holders[|e.holders|].basic <==> r.experimental && !s.CreateExternal?)
  {
    hide Inv, Next, Run, Accepts, MakesHolder;
    InvStack(e);
    MadeHolder(e, s);
    NextInv(e, s);
    NextExperimental(e, s);
    RunKinds(Next(e, s), steps);
  }
}
