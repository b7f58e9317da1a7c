/** Whole runs of the JavaScriptCore environment. */
module JscLedgerRuns {
  import opened Common
  import opened JscLedger
  import opened JscLedgerBalance
  import opened JscLedgerSafety

  function Run(e: Env, steps: seq<Step>): Env
    decreases |steps|
  {
    if steps == [] then e else Run(Next(e, steps[0]), steps[1..])
  }

  lemma NextInv(e: Env, s: Step)
    requires Inv(e)
    ensures CanStep(e) && Inv(Next(e, s))
  {
    hide Shape, Balanced, Next, Overflows;
    NextKeepsExactly(e, s);
  }

  lemma {:induction false} RunInv(e: Env, steps: seq<Step>)
    requires Inv(e)
    ensures Inv(Run(e, steps))
    decreases |steps|
  {
    hide Inv, Next;
    if steps != [] {
      NextInv(e, steps[0]);
      RunInv(Next(e, steps[0]), steps[1..]);
    }
  }

  // ---- the ledger --------------------------------------------------------------------------------

  /** The run does not wrap the count of a reference that protects its target. */
  predicate Fits(e: Env, steps: seq<Step>)
    decreases |steps|
  {
    steps == [] || (!Overflows(e, steps[0]) && Fits(Next(e, steps[0]), steps[1..]))
  }

  lemma {:induction false} RunBalanced(e: Env, steps: seq<Step>)
    requires Inv(e)
    ensures Balanced(Run(e, steps)) <==> Balanced(e) && Fits(e, steps)
    decreases |steps|
  {
    hide Inv, Next, Overflows, Balanced;
    if steps != [] {
      NextKeepsExactly(e, steps[0]);
      RunBalanced(Next(e, steps[0]), steps[1..]);
    }
  }

  /** After a run each value is protected exactly as often as its owners say if and only if no step of the run
      wrapped the count of a reference that protected its target: a surplus is never made good. In every case no
      owner lacks its protect. */
  lemma LedgerBalances(experimental: bool, cached: multiset<Val>, steps: seq<Step>)
    ensures var e := Run(Init(experimental, cached), steps);
      Covered(e) && (Balanced(e) <==> Fits(Init(experimental, cached), steps))
  {
    hide Shape, Run, Fits, Init, Owes;
    InitInv(experimental, cached);
    RunInv(Init(experimental, cached), steps);
    RunBalanced(Init(experimental, cached), steps);
  }

  const WRAPPING_COUNT: seq<Step> := [CreateReference(7, true, 0xFFFF_FFFF, true), Strengthen(0)]

  /** The state after the first reference is made to an object. */
  function OneReference(count: uint32): Env {
    Init(false, multiset{}).(refs := [WeakRef(7, count, 0)], holders := [Holder(7, true, false, 0, false, false, false)],
                             protects := if count > 0 then multiset{7} else multiset{})
  }

  lemma FirstReference(count: uint32)
    ensures Next(Init(false, multiset{}), CreateReference(7, true, count, true)) == OneReference(count)
  {
    var e := Init(false, multiset{});
    assert WrapHolder(e, 7) == None;
    assert Exec(e, CreateReference(7, true, count, true)) == MakeReference(e, 7, true, count, true);
  }

  function CountWrapped(): Env { OneReference(0xFFFF_FFFF).(refs := [WeakRef(7, 0, 0)]) }

  lemma ThenWrapped()
    ensures Next(OneReference(0xFFFF_FFFF), Strengthen(0)) == CountWrapped()
  {
    hide Unwind, WrapHolder, FindWrap, KillAll, Backs;
    var e := OneReference(0xFFFF_FFFF);
    assert Next(e, Strengthen(0)) == ExecRef(e, Strengthen(0));
  }

  lemma NobodyOwns()
    ensures CountWrapped().protects[7] == 1 && Owes(CountWrapped(), 7) == 0
  {
    var e := CountWrapped();
    TotalAppend([], e.refs[0], InRef(7));
    TotalAppend([], e.scopes[0], InScope(7));
    assert e.refs == [] + [e.refs[0]] && e.scopes == [] + [e.scopes[0]];
  }

  /** A count that wraps leaves its value protected by nobody. */
  lemma WrappingCountLeaks()
    ensures var e := Next(Next(Init(false, multiset{}), WRAPPING_COUNT[0]), WRAPPING_COUNT[1]);
      e.protects[7] == 1 && Owes(e, 7) == 0 && |e.refs| == 1 && e.refs[0].count == 0
  {
    hide Next, Owes, OneReference;
    FirstReference(0xFFFF_FFFF);
    ThenWrapped();
    NobodyOwns();
  }

  // ---- references that are held ------------------------------------------------------------------

  ghost predicate Strong(e: Env, i: nat) { LiveRef(e, i) && e.refs[i].count > 0 }

  /** A step leaves every reference's target as it is, but for the collection of its holder. */
  predicate SameTarget(x: Ref, y: Ref) {
    y.value == x.value && y.weakable == x.weakable && y.holder == x.holder && y.alive == x.alive
  }

  lemma RefStepTargets(e: Env, s: Step, i: nat)
    requires CanStep(e) && i < |e.refs| && RefStep(s) && Enabled(e, s)
    ensures var r := Exec(e, s);
      i < |r.refs| && (SameTarget(e.refs[i], r.refs[i]) || (s.Collect? && r.refs[i] == Kill(e.refs[i], s.h)))
  {
    hide Exec, Enabled;
    if MakeStep(s) {
      MakeStepTargets(e, s, i);
    } else {
      ChangeStepTargets(e, s, i);
    }
  }

  lemma MakeStepTargets(e: Env, s: Step, i: nat)
    requires CanStep(e) && i < |e.refs| && MakeStep(s) && Enabled(e, s)
    ensures var r := Exec(e, s);
      i < |r.refs| && (SameTarget(e.refs[i], r.refs[i]) || (s.Collect? && r.refs[i] == Kill(e.refs[i], s.h)))
  {
    hide WrapHolder, Backs, Push, Holds, Kill, DoRemoveWrap, MakeReference, Attach, DoCreateExternal, DoDeleteRef,
      DoStrengthen, DoWeaken, DoCollect, DoPost, Enabled;
    RefEnabled(e, s);
    var r := Exec(e, s);
    match s {
      case CreateReference(_, _, _, _) => PrefixAt(e.refs, r.refs, i);
      case Wrap(_, _, _, _) => if WrapHolder(e, s.v).None? { PrefixAt(e.refs, r.refs, i); }
      case AddFinalizer(_, _) => PrefixAt(e.refs, r.refs, i);
      case CreateExternal(_, _, _) => PrefixAt(e.refs, r.refs, i);
    }
  }

  lemma ChangeStepTargets(e: Env, s: Step, i: nat)
    requires CanStep(e) && i < |e.refs| && RefStep(s) && !MakeStep(s) && Enabled(e, s)
    ensures var r := Exec(e, s);
      i < |r.refs| && (SameTarget(e.refs[i], r.refs[i]) || (s.Collect? && r.refs[i] == Kill(e.refs[i], s.h)))
  {
    hide WrapHolder, Backs, Push, Holds, Kill, DoRemoveWrap, MakeReference, Attach, DoCreateExternal, DoDeleteRef,
      DoStrengthen, DoWeaken, DoCollect, DoPost, Enabled, ExecScope, ExecFrame, CanStep;
    RefEnabled(e, s);
    var r := Exec(e, s);
    assert r == ExecRef(e, s);
    match s {
      case RemoveWrap(_) =>
      case DeleteRef(j) => PutTargets(e, j, i);
      case Strengthen(j) => PutTargets(e, j, i);
      case Weaken(j) => PutTargets(e, j, i);
      case Collect(h) => CollectTargets(e, h, i);
      case PostFinalizer(_) =>
      case FreeBuffer(_) =>
    }
  }

  lemma PrefixAt(a: seq<Ref>, b: seq<Ref>, i: nat)
    requires i < |a| <= |b| && b[..|a|] == a
    ensures SameTarget(a[i], b[i])
  {
    assert b[i] == b[..|a|][i];
  }

  lemma PutTargets(e: Env, j: nat, i: nat)
    requires i < |e.refs| && j < |e.refs|
    ensures |DoDeleteRef(e, j).refs| == |e.refs| && SameTarget(e.refs[i], DoDeleteRef(e, j).refs[i])
    ensures |DoStrengthen(e, j).refs| == |e.refs| && SameTarget(e.refs[i], DoStrengthen(e, j).refs[i])
    ensures |DoWeaken(e, j).refs| == |e.refs| && SameTarget(e.refs[i], DoWeaken(e, j).refs[i])
  {
    hide Holds;
  }

  lemma CollectTargets(e: Env, h: nat, i: nat)
    requires i < |e.refs| && h < |e.holders|
    ensures |DoCollect(e, h).refs| == |e.refs| && DoCollect(e, h).refs[i] == Kill(e.refs[i], h)
  {
    hide Kill, KillAll;
  }

  lemma NextRefs(e: Env, s: Step, i: nat)
    requires CanStep(e) && i < |e.refs|
    ensures var r := Next(e, s);
      && i < |r.refs|
      && (SameTarget(e.refs[i], r.refs[i]) || (s.Collect? && Enabled(e, s) && r.refs[i] == Kill(e.refs[i], s.h)))
  {
    hide Enabled, Kill, Exec;
    if e.aborted || !Enabled(e, s) || (Guarded(s) && (e.inGc || e.pending.Some?)) {
    } else if ScopeStep(s) {
      ScopeStepFields(e, s);
    } else if RefStep(s) {
      RefStepTargets(e, s, i);
    } else {
      FrameStepFields(e, s);
    }
  }

  lemma NextKeepsReading(e: Env, s: Step, i: nat)
    requires Inv(e) && Strong(e, i)
    ensures CanStep(e) && i < |Next(e, s).refs| && Reads(Next(e, s).refs[i]) == Reads(e.refs[i])
  {
    hide Next, Shape, Balanced, Enabled;
    ShapeReady(e, s);
    NextRefs(e, s, i);
    if s.Collect? && Enabled(e, s) && Next(e, s).refs[i] == Kill(e.refs[i], s.h) {
      assert Holds(Kill(e.refs[i], s.h)) == Holds(e.refs[i]);
      HoldsReads(e.refs[i], s.h);
    }
  }

  lemma HoldsReads(r: Ref, h: nat)
    requires !r.deleted && r.count > 0 && Holds(Kill(r, h)) == Holds(r)
    ensures Reads(Kill(r, h)) == Reads(r)
  {
    if r.weakable && r.alive { assert r.value in Holds(r); }
  }

  /** The reference stays live with a positive count. */
  ghost predicate StaysStrong(e: Env, steps: seq<Step>, i: nat)
    decreases |steps|
  {
    Strong(e, i) && (steps != [] ==> StaysStrong(Next(e, steps[0]), steps[1..], i))
  }

  /** While its count stays positive, what a reference reads does not change. */
  lemma {:induction false} HeldReferenceReads(e: Env, steps: seq<Step>, i: nat)
    requires Inv(e) && StaysStrong(e, steps, i)
    ensures i < |Run(e, steps).refs| && Reads(Run(e, steps).refs[i]) == Reads(e.refs[i])
    decreases |steps|
  {
    hide Inv, Next;
    if steps != [] {
      NextKeepsReading(e, steps[0], i);
      NextInv(e, steps[0]);
      HeldReferenceReads(Next(e, steps[0]), steps[1..], i);
    }
  }

  /** A reference taken up from zero reads its target for as long as it is held exactly if the target was still
      there before the call. */
  lemma StrengthenedReadsExactly(e: Env, i: nat, steps: seq<Step>)
    requires Inv(e) && LiveRef(e, i) && Enabled(e, Strengthen(i)) && !e.aborted && e.refs[i].count == 0
    requires StaysStrong(Next(e, Strengthen(i)), steps, i)
    ensures var r := Run(Next(e, Strengthen(i)), steps);
      i < |r.refs| && (Reads(r.refs[i]).Some? <==> Reads(e.refs[i]).Some?)
  {
    hide Inv, StaysStrong, Run;
    InvStack(e);
    NextInv(e, Strengthen(i));
    HeldReferenceReads(Next(e, Strengthen(i)), steps, i);
  }

  const TAKEN_UP_LATE: seq<Step> := [CreateReference(7, true, 0, true), Collect(0), Strengthen(0)]

  /** Then its target is collected. */
  function TargetGone(): Env {
    OneReference(0).(refs := [Ref(7, 0, true, 0, false, false)], holders := [Holder(7, true, false, 0, false, false, true)])
  }

  lemma ThenCollected()
    ensures Next(OneReference(0), Collect(0)) == TargetGone()
  {
    var e := OneReference(0);
    assert e.protects[7] == 0;
    assert Next(e, Collect(0)) == DoCollect(e, 0);
  }

  lemma ThenStrengthened()
    ensures Next(TargetGone(), Strengthen(0)) == TargetGone().(refs := [Ref(7, 1, true, 0, false, false)])
  {
    var e := TargetGone();
    assert Next(e, Strengthen(0)) == DoStrengthen(e, 0);
  }

  /** A positive count alone does not keep a reference from reading empty. */
  lemma HeldButEmpty()
    ensures var e := Next(Next(Next(Init(false, multiset{}), TAKEN_UP_LATE[0]), TAKEN_UP_LATE[1]), TAKEN_UP_LATE[2]);
      |e.refs| == 1 && e.refs[0].count == 1 && !e.refs[0].deleted && Reads(e.refs[0]) == None
  {
    hide Next, OneReference, TargetGone;
    FirstReference(0);
    ThenCollected();
    ThenStrengthened();
  }

  // ---- callbacks ---------------------------------------------------------------------------------

  /** The first n frames stay on the stack. */
  ghost predicate Inside(e: Env, steps: seq<Step>, n: nat)
    decreases |steps|
  {
    n <= |e.frames| && (steps != [] ==> Inside(Next(e, steps[0]), steps[1..], n))
  }

  lemma NextFrames(e: Env, s: Step)
    requires CanStep(e)
    ensures var r := Next(e, s);
      || r.frames == e.frames
      || (|r.frames| == |e.frames| + 1 && r.frames[..|e.frames|] == e.frames)
      || (e.frames != [] && r.frames == e.frames[..|e.frames| - 1])
      || (e.frames != [] && e.frames[|e.frames| - 1].InFinalizer? && |r.frames| == |e.frames|
          && r.frames[..|e.frames| - 1] == e.frames[..|e.frames| - 1])
  {
    hide Exec, Enabled, CanStep;
    if e.aborted || !Enabled(e, s) || (Guarded(s) && (e.inGc || e.pending.Some?)) {
      assert Next(e, s).frames == e.frames;
    } else if ScopeStep(s) {
      ScopeStepFields(e, s);
      if s.LeaveCallback? { LeaverOnTop(e); }
    } else if RefStep(s) {
      RefStepFields(e, s);
    } else {
      FrameStepFrames(e, s);
    }
  }

  lemma LeaverOnTop(e: Env)
    ensures Enabled(e, LeaveCallback) ==> e.frames != []
  {
  }

  lemma FrameStepFrames(e: Env, s: Step)
    requires CanStep(e) && !ScopeStep(s) && !RefStep(s) && Enabled(e, s)
    ensures var r := Exec(e, s);
      || r.frames == e.frames
      || (|r.frames| == |e.frames| + 1 && r.frames[..|e.frames|] == e.frames)
      || (e.frames != [] && r.frames == e.frames[..|e.frames| - 1])
      || (e.frames != [] && e.frames[|e.frames| - 1].InFinalizer? && |r.frames| == |e.frames|
          && r.frames[..|e.frames| - 1] == e.frames[..|e.frames| - 1])
  {
    hide ExecScope, ExecRef, DoCreatePromise, Record, EndSettle;
    assert Exec(e, s) == ExecFrame(e, s);
  }

  lemma {:induction false} FramesKept(e: Env, steps: seq<Step>, n: nat)
    requires Inv(e) && Inside(e, steps, n) && n > 0 && e.frames[n - 1].InCallback?
    ensures |Run(e, steps).frames| >= n && Run(e, steps).frames[..n] == e.frames[..n]
    decreases |steps|
  {
    hide Inv, Next, Enabled, Overflows;
    if steps != [] {
      NextInv(e, steps[0]);
      var r := Next(e, steps[0]);
      NextFrames(e, steps[0]);
      SamePrefix(e.frames, r.frames, n);
      assert r.frames[..n][n - 1] == e.frames[..n][n - 1];
      FramesKept(r, steps[1..], n);
    }
  }

  lemma SamePrefix(a: seq<Frame>, b: seq<Frame>, n: nat)
    requires 0 < n <= |a| && n <= |b| && a[n - 1].InCallback?
    requires || b == a
             || (|b| == |a| + 1 && b[..|a|] == a)
             || (a != [] && b == a[..|a| - 1])
             || (a != [] && a[|a| - 1].InFinalizer? && |b| == |a| && b[..|a| - 1] == a[..|a| - 1])
    ensures b[..n] == a[..n]
  {
    if |b| == |a| + 1 {
      assert b[..n] == b[..|a|][..n];
    } else if |b| == |a| && n < |a| {
      assert b[..n] == b[..|a| - 1][..n] && a[..n] == a[..|a| - 1][..n];
    }
  }

  /** While a native callback runs, whatever it does and calls, the scopes below it keep their handles; when it
      returns the scope stack is the one it was entered with. */
  lemma CallbackLeavesScopes(e: Env, e1: Env, steps: seq<Step>)
    requires Inv(e) && !e.aborted && Enabled(e, EnterCallback) && e1 == Next(e, EnterCallback)
    requires Inside(e1, steps, |e.frames| + 1)
    ensures var e2 := Run(e1, steps);
      && |e2.scopes| > |e.scopes| && e2.scopes[..|e.scopes|] == e.scopes
      && (Enabled(e2, LeaveCallback) && !e2.aborted && |e2.frames| == |e.frames| + 1 ==>
            var r := Next(e2, LeaveCallback);
            r.scopes == e.scopes && r.frames == e.frames && r.pending == None)
  {
    hide Inv, Inside, Next, Enabled, Run;
    InvStack(e);
    Entered(e);
    NextInv(e, EnterCallback);
    RunInv(e1, steps);
    FramesKept(e1, steps, |e.frames| + 1);
    var e2 := Run(e1, steps);
    assert e2.frames[|e.frames|] == e2.frames[..|e.frames| + 1][|e.frames|];
    assert e2.frames[..|e.frames|] == e2.frames[..|e.frames| + 1][..|e.frames|];
    InvStack(e2);
    InsideCallback(e, e2);
  }

  lemma Entered(e: Env)
    requires CanStep(e) && !e.aborted && Enabled(e, EnterCallback)
    ensures Next(e, EnterCallback).frames == e.frames + [InCallback(|e.scopes|, e.scopes)]
  {
  }

  lemma InsideCallback(e: Env, r: Env)
    requires StackGood(r.scopes, r.frames) && CanStep(r)
    requires |r.frames| > |e.frames| && r.frames[..|e.frames|] == e.frames
    requires r.frames[|e.frames|] == InCallback(|e.scopes|, e.scopes)
    ensures |r.scopes| > |e.scopes| && r.scopes[..|e.scopes|] == e.scopes
    ensures Enabled(r, LeaveCallback) && !r.aborted && |r.frames| == |e.frames| + 1 ==>
      var l := Next(r, LeaveCallback); l.scopes == e.scopes && l.frames == e.frames && l.pending == None
  {
    hide Unwind, Nested;
    assert FrameGood(r.scopes, r.frames[|e.frames|]);
    if Enabled(r, LeaveCallback) && !r.aborted && |r.frames| == |e.frames| + 1 {
      LeaveExact(r);
      assert Next(r, LeaveCallback) == DoLeaveCallback(r);
    }
  }

  lemma InvStack(e: Env)
    requires Inv(e)
    ensures StackGood(e.scopes, e.frames) && QueueGood(e) && RefsGood(e) && CanStep(e)
  {
    ShapeReady(e, Drain);
  }

  // ---- finalizers --------------------------------------------------------------------------------

  /** From the moment a finalizer is queued, so also while it runs and ever after, every reference on its holder
      reads empty. */
  lemma FinalizerSeesEmptyReferences(e: Env, k: nat, i: nat)
    requires Inv(e) && k < |e.enqueued| && i < |e.refs| && e.refs[i].weakable && e.enqueued[k] == OfHolder(e.refs[i].holder)
    ensures Reads(e.refs[i]) == None
  {
    hide StackGood, SettlesGood, Balanced;
    assert EntryGood(e, k) && RefGood(e, i);
  }

  /** Every collected holder that still had a finalizer was queued, and so was every posted finalizer. */
  ghost predicate AllQueued(e: Env) {
    && (forall h | 0 <= h < |e.holders| && e.holders[h].collected && e.holders[h].finalizer :: OfHolder(h) in e.enqueued)
    && (forall id {:trigger Posted(id)} | 0 <= id < e.posted :: Posted(id) in e.enqueued)
  }

  ghost predicate HolderStep(e: Env, r: Env) {
    && |e.holders| <= |r.holders| && e.enqueued <= r.enqueued && e.ran <= r.ran
    && (forall h | 0 <= h < |e.holders| && r.holders[h].collected && r.holders[h].finalizer ::
          (e.holders[h].collected && e.holders[h].finalizer) || OfHolder(h) in r.enqueued)
    && (forall h | |e.holders| <= h < |r.holders| :: !r.holders[h].collected)
    && (r.posted == e.posted || (r.posted == e.posted + 1 && Posted(e.posted) in r.enqueued))
  }

  lemma RefStepQueues(e: Env, s: Step)
    requires CanStep(e) && RefStep(s) && Enabled(e, s)
    ensures HolderStep(e, Exec(e, s))
  {
    if MakeStep(s) {
      hide Exec, Enabled;
      MakeStepHolders(e, s);
    } else {
      ChangeStepQueues(e, s);
    }
  }

  lemma ChangeStepQueues(e: Env, s: Step)
    requires CanStep(e) && RefStep(s) && !MakeStep(s) && Enabled(e, s)
    ensures HolderStep(e, Exec(e, s))
  {
    hide WrapHolder, Backs, Holds, DoDeleteRef, DoStrengthen, DoWeaken, KillAll, DoRemoveWrap, DoCollect, DoPost, Enabled;
    RefEnabled(e, s);
    if s.RemoveWrap? {
      RemoveWrapQueues(e, s.v);
    } else if s.Collect? {
      CollectQueues(e, s.h);
    } else if s.PostFinalizer? || s.FreeBuffer? {
      PostQueues(if s.FreeBuffer? then e.(buffers := e.buffers[s.b := true]) else e);
    }
  }

  lemma PostQueues(e: Env)
    ensures HolderStep(e, DoPost(e)) && HolderStep(e, e)
  {
  }

  lemma RemoveWrapQueues(e: Env, v: Val)
    ensures HolderStep(e, DoRemoveWrap(e, v))
  {
    hide WrapHolder, Backs;
  }

  lemma CollectQueues(e: Env, h: nat)
    requires h < |e.holders|
    ensures HolderStep(e, DoCollect(e, h))
  {
    hide KillAll;
  }

  lemma NextHolders(e: Env, s: Step)
    requires CanStep(e)
    ensures HolderStep(e, Next(e, s))
  {
    hide Enabled, Exec;
    if e.aborted || !Enabled(e, s) || (Guarded(s) && (e.inGc || e.pending.Some?)) {
    } else if ScopeStep(s) {
      ScopeStepFields(e, s);
    } else if RefStep(s) {
      RefStepQueues(e, s);
    } else {
      FrameStepFields(e, s);
      if s.NextFinalizer? { NextFinalizerRan(e, s); }
    }
  }

  lemma NextFinalizerRan(e: Env, s: Step)
    requires CanStep(e) && s.NextFinalizer? && Enabled(e, s)
    ensures Exec(e, s).enqueued == e.enqueued && e.ran <= Exec(e, s).ran && Exec(e, s).posted == e.posted
  {
  }

  lemma NextAllQueued(e: Env, s: Step)
    requires CanStep(e) && AllQueued(e)
    ensures AllQueued(Next(e, s))
  {
    hide Next;
    NextHolders(e, s);
  }

  lemma {:induction false} RunQueues(e: Env, steps: seq<Step>)
    requires Inv(e) && AllQueued(e)
    ensures var r := Run(e, steps); AllQueued(r) && e.enqueued <= r.enqueued && e.ran <= r.ran
    decreases |steps|
  {
    hide Inv, Next, AllQueued, Overflows;
    if steps != [] {
      NextInv(e, steps[0]);
      NextAllQueued(e, steps[0]);
      NextHolders(e, steps[0]);
      RunQueues(Next(e, steps[0]), steps[1..]);
    }
  }

  /** What has been started is the part of the history that is not queued. */
  lemma StartedOnce(e: Env)
    requires QueueGood(e)
    ensures e.ran + e.queue == e.enqueued && NoDup(e.ran) && (e.queue == [] ==> e.ran == e.enqueued)
  {
    assert forall i, j | 0 <= i < j < |e.ran| :: e.enqueued[i] == e.ran[i] && e.enqueued[j] == e.ran[j];
  }

  lemma NothingWaits(e: Env)
    ensures Enabled(e, DrainEnds) ==> e.queue == []
  {
  }

  /** When a drain ends, the finalizers of all collected holders and all finalizers that code posted have been started,
      each exactly once and in the order they were queued, those posted by finalizers during the drain included. */
  lemma DrainRunsAllOnce(experimental: bool, cached: multiset<Val>, steps: seq<Step>)
    ensures var e := Run(Init(experimental, cached), steps);
      && e.ran + e.queue == e.enqueued && NoDup(e.ran)
      && (Enabled(e, DrainEnds) ==>
            && e.ran == e.enqueued
            && (forall h | 0 <= h < |e.holders| && e.holders[h].collected && e.holders[h].finalizer :: OfHolder(h) in e.ran)
            && (forall id {:trigger Posted(id)} | 0 <= id < e.posted :: Posted(id) in e.ran))
  {
    hide Inv, Run, QueueGood, Enabled, NoDup, Init;
    var e0 := Init(experimental, cached);
    InitInv(experimental, cached);
    InitQueued(experimental, cached);
    RunInv(e0, steps);
    RunQueues(e0, steps);
    var e := Run(e0, steps);
    InvStack(e);
    StartedOnce(e);
    NothingWaits(e);
  }

  lemma InitQueued(experimental: bool, cached: multiset<Val>)
    ensures AllQueued(Init(experimental, cached))
  {
  }

  // ---- calls that undo each other ----------------------------------------------------------------

  function PushAll(e: Env, vs: seq<Val>): (r: Env)
    requires |e.scopes| > 0
    ensures |r.scopes| == |e.scopes|
    decreases |vs|
  {
    if vs == [] then e else PushAll(Push(e, vs[0]), vs[1..])
  }

  lemma {:induction false} PushAllExact(e: Env, vs: seq<Val>)
    requires |e.scopes| > 0
    ensures var n := |e.scopes| - 1;
      PushAll(e, vs) == e.(protects := e.protects + multiset(vs),
                           scopes := e.scopes[n := e.scopes[n].(handles := e.scopes[n].handles + vs)])
    decreases |vs|
  {
    var n := |e.scopes| - 1;
    if vs == [] {
      assert e.scopes[n := e.scopes[n].(handles := e.scopes[n].handles + [])] == e.scopes by {
        assert e.scopes[n].handles + [] == e.scopes[n].handles;
      }
    } else {
      PushAllExact(Push(e, vs[0]), vs[1..]);
      assert vs == [vs[0]] + vs[1..];
      Assoc(e.scopes[n].handles, [vs[0]], vs[1..]);
    }
  }

  lemma CloseTop(p: Env, below: seq<Scope>, top: Scope, id: nat)
    requires below != [] && p.scopes == below + [top] && top.owner == Api(id)
    ensures DoCloseScope(p, id) == p.(scopes := below, protects := p.protects - multiset(top.handles))
  {
    assert p.scopes[..|below|] == below;
  }

  /** Closing a handle scope gives up exactly the protects of the handles made in it. */
  lemma CloseUndoesOpen(e: Env, escapable: bool, vs: seq<Val>)
    requires |e.scopes| > 0
    ensures DoCloseScope(PushAll(DoOpenScope(e, escapable), vs), e.nextScope) == e.(nextScope := e.nextScope + 1)
  {
    hide PushAll, DoCloseScope;
    var o, n := DoOpenScope(e, escapable), |e.scopes|;
    PushAllExact(o, vs);
    var top := Scope(Api(e.nextScope), escapable, false, vs);
    assert o.scopes[n].handles + vs == vs;
    assert o.scopes[n := top] == e.scopes + [top];
    CloseTop(PushAll(o, vs), e.scopes, top, e.nextScope);
    assert e.protects + multiset(vs) - multiset(vs) == e.protects;
  }

  lemma EscapeThenClose(e: Env, id: nat, v: Val, w: Val)
    requires |e.scopes| > 1 && IsTop(e, Api(id))
    requires e.scopes[|e.scopes| - 1].escapable && !e.scopes[|e.scopes| - 1].escaped
    ensures
      var n := |e.scopes| - 1;
      var esc := DoEscape(e, id, v);
      && DoCloseScope(esc, id).scopes == e.scopes[..n][n - 1 := e.scopes[n - 1].(handles := e.scopes[n - 1].handles + [v])]
      && DoEscape(esc, id, w) == esc
      && |esc.scopes| > 0
  {
  }

  lemma CloseBalance(e: Env, id: nat, v: Val, extra: nat)
    requires |e.scopes| > 0 && Off(e, v, extra)
    ensures Off(DoCloseScope(e, id), v, extra)
  {
    hide Owes;
    PopScopeBalance(e, v, extra);
  }

  /** An escaped handle is in the enclosing scope after its own scope is closed, and only one can escape. */
  lemma EscapedSurvivesClose(e: Env, id: nat, v: Val, w: Val)
    requires Covered(e) && |e.scopes| > 1 && IsTop(e, Api(id))
    requires e.scopes[|e.scopes| - 1].escapable && !e.scopes[|e.scopes| - 1].escaped
    ensures
      var n := |e.scopes| - 1;
      var esc := DoEscape(e, id, v);
      var r := DoCloseScope(esc, id);
      && r.scopes == e.scopes[..n][n - 1 := e.scopes[n - 1].(handles := e.scopes[n - 1].handles + [v])]
      && r.protects[v] > 0
      && DoEscape(esc, id, w) == esc
  {
    hide Owes, DoEscape, DoCloseScope;
    EscapeThenClose(e, id, v, w);
    assert e.protects[v] >= Owes(e, v);
    var extra := e.protects[v] - Owes(e, v);
    EscapeBalance(e, id, v, v, extra);
    CloseBalance(DoEscape(e, id, v), id, v, extra);
    HandleOwed(DoCloseScope(DoEscape(e, id, v), id), |e.scopes| - 2, v);
  }

  lemma HandleOwed(e: Env, i: nat, v: Val)
    requires i < |e.scopes| && v in e.scopes[i].handles
    ensures Owes(e, v) > 0
  {
    TotalUpdate(e.scopes, i, e.scopes[i], InScope(v));
  }

  /** Counting a reference up and down again changes nothing. */
  lemma WeakenUndoesStrengthen(e: Env, i: nat)
    requires i < |e.refs| && e.refs[i].count < 0xFFFF_FFFF
    ensures DoWeaken(DoStrengthen(e, i), i) == e
  {
    hide Holds;
    var s := DoStrengthen(e, i);
    var up := e.refs[i].(count := e.refs[i].count + 1);
    assert s.refs == e.refs[i := up] && s.refs[i] == up;
    assert up.(count := up.count - 1) == e.refs[i] && s.refs[i := e.refs[i]] == e.refs;
    if up.weakable && up.count == 1 && up.alive {
      assert e.protects + multiset{up.value} - multiset{up.value} == e.protects;
    }
  }
}
