/** What is collected or posted is queued, and what is queued is finalized at the next tick. */
module RefTrackingQueue {
  import opened Common
  import opened RefTracking
  import opened RefTrackingSafety
  import opened RefTrackingRuns
  import opened RefTrackingCalls

  // ---- nothing that waits for its finalizer is forgotten -------------------------------------------

  /** A linked tracker with a finalizer and nothing to hold is queued; only that of the instance data waits for DeleteMe. */
  predicate Waits(e: Env, i: Id)
    requires i < |e.heap|
  {
    e.heap[i].home == InFinlist && e.heap[i].hold == Empty && e.instance != Some(i) ==> i in e.pending
  }

  /** Nothing is forgotten that was not before, a target that is gone does not come back, no tracker but a new one becomes
      that of the instance data, and the finalizers of posted ones are not given up. */
  ghost predicate Kept(e: Env, r: Env) {
    |e.heap| <= |r.heap| && forall i: Id {:trigger KeptAt(e, r, i)} :: i < |r.heap| ==> KeptAt(e, r, i)
  }

  predicate KeptAt(e: Env, r: Env, i: Id)
    requires i < |r.heap|
  {
    && (i >= |e.heap| || Waits(e, i) ==> Waits(r, i))
    && (i < |e.heap| && e.heap[i].hold == Empty ==> r.heap[i].hold == Empty)
    && (i < |e.heap| && r.instance == Some(i) ==> e.instance == Some(i))
    && (i < |e.heap| && Unreachable(e, i) ==> Unreachable(r, i) && r.heap[i].dropped == e.heap[i].dropped)
  }

  /** A tracker that no call of the program can name. */
  predicate Unreachable(e: Env, i: Id)
    requires i < |e.heap|
  {
    e.heap[i].kind == TrackedFinalizer && e.instance != Some(i)
  }

  ghost predicate Queued(e: Env) {
    forall i: Id {:trigger Waits(e, i)} :: i < |e.heap| ==> Waits(e, i)
  }

  lemma KeptTrans(e: Env, m: Env, r: Env)
    requires Kept(e, m) && Kept(m, r)
    ensures Kept(e, r)
  {
    forall i: Id | i < |r.heap| ensures KeptAt(e, r, i) {
      assert KeptAt(m, r, i);
      if i < |m.heap| { assert KeptAt(e, m, i); }
    }
  }

  lemma KeptQueued(e: Env, r: Env)
    requires Queued(e) && Kept(e, r)
    ensures Queued(r)
  {
    forall i: Id | i < |r.heap| ensures Waits(r, i) {
      assert KeptAt(e, r, i);
      if i < |e.heap| { assert Waits(e, i); }
    }
  }

  lemma KeptSame(e: Env, r: Env)
    requires r.heap == e.heap && r.instance == e.instance && r.pending == e.pending
    ensures Kept(e, r)
  {
    forall i: Id | i < |e.heap| ensures KeptAt(e, r, i) {
    }
  }

  lemma KeptPut(e: Env, r: Env, id: Id)
    requires id < |e.heap| && |r.heap| == |e.heap| && r.heap == e.heap[id := r.heap[id]] && r.instance == e.instance
    requires e.pending - {id} <= r.pending && KeptAt(e, r, id)
    ensures Kept(e, r)
  {
    forall i: Id | i < |r.heap| ensures KeptAt(e, r, i) {
    }
  }

  lemma KeptNew(e: Env, r: Env, t: Tracker)
    requires r.heap == New(e, t).heap && r.instance == e.instance && e.pending <= r.pending
    requires t.home == InFinlist && t.hold == Empty ==> |e.heap| in r.pending
    ensures Kept(e, r)
  {
    hide Stored;
    forall i: Id | i < |r.heap| ensures KeptAt(e, r, i) {
    }
  }

  lemma {:induction false} KeptExec(e: Env, s: Step)
    requires Inv(e)
    ensures Kept(e, Exec(e, s))
    decreases Stored(e.heap) + StepSize(s), 0
  {
    hide WeakCallback, Stored, Inv, Kept;
    if !Enabled(e, s) {
      KeptSame(e, e);
    } else if s.Collect? {
      KeptCollect(e, s.id);
    } else {
      KeptLeaf(e, s);
    }
  }

  lemma KeptLeaf(e: Env, s: Step)
    requires Inv(e) && Enabled(e, s) && !s.Collect?
    ensures Kept(e, Exec(e, s))
  {
    hide Stored, Created, Destroy, New, Put, Inv, Kept, ReplaceInstance, DoRef, DoUnref, Touch;
    if s.RemoveWrap? { WrapsAreReferences(e, s.id); }
    if s.Delete? {
      KeptDestroy(e, s.id, GiveUp(e.heap[s.id]).(deleted := true));
    } else if s.RemoveWrap? {
      KeptDestroy(e, s.id, GiveUp(e.heap[s.id]));
      KeptUpdate(e, s.id, GiveUp(e.heap[s.id]).(callback := Null, wraps := false));
    } else if s.SetInstanceData? {
      KeptReplace(e, s.cb);
    } else if s.Ref? || s.Unref? {
      KeptCount(e, s);
    } else if s.PostFinalizer? {
      KeptPost(e, s.cb);
    } else if s.GetValue? || s.GetInstanceData? {
      KeptRead(e, s);
    } else if Created(e, s).Some? {
      CreatedHolds(e, s);
      NewKeepsRest(e, Created(e, s).value);
      KeptNew(e, Exec(e, s), Created(e, s).value);
    } else {
      KeptSame(e, e);
    }
  }

  lemma WrapsAreReferences(e: Env, id: Id)
    requires Inv(e) && Enabled(e, RemoveWrap(id))
    ensures !Unreachable(e, id)
  {
    assert Good(e, id);
  }

  lemma NewKeepsRest(e: Env, t: Tracker)
    ensures New(e, t).instance == e.instance && New(e, t).pending == e.pending
  {
    hide Stored;
  }

  lemma CreatedHolds(e: Env, s: Step)
    requires s.CreateReference? || s.Wrap? || s.AddFinalizer?
    ensures Created(e, s).Some? && Created(e, s).value.home == InFinlist ==> Created(e, s).value.hold != Empty
  {
  }

  lemma KeptPost(e: Env, cb: Callback)
    ensures Kept(e, Exec(e, PostFinalizer(cb)))
  {
    hide Stored;
    KeptNew(e, Exec(e, PostFinalizer(cb)), NewTracked(cb));
  }

  lemma KeptRead(e: Env, s: Step)
    requires Enabled(e, s) && (s.GetValue? || s.GetInstanceData?)
    ensures Kept(e, Exec(e, s))
  {
    KeptSame(e, Exec(e, s));
  }

  lemma KeptUpdate(e: Env, id: Id, t: Tracker)
    requires id < |e.heap| && t.home == e.heap[id].home && t.hold == e.heap[id].hold
    requires t.kind == e.heap[id].kind && !Unreachable(e, id)
    ensures Kept(e, Put(e, id, t))
  {
    hide Stored;
    KeptPut(e, Put(e, id, t), id);
  }

  /** Counting lets go of a target only if its collection will still be noticed. */
  lemma KeptCount(e: Env, s: Step)
    requires Inv(e) && (s.Ref? || s.Unref?) && Enabled(e, s)
    ensures Kept(e, Exec(e, s))
  {
    hide Stored, Kept;
    assert Good(e, s.id);
    KeptPut(e, Exec(e, s), s.id);
  }

  lemma KeptDestroy(e: Env, id: Id, t: Tracker)
    requires id < |e.heap| && t.callback == e.heap[id].callback
    requires t.kind == e.heap[id].kind && !Unreachable(e, id)
    ensures Kept(e, Destroy(e, id, t))
  {
    hide Stored;
    KeptPut(e, Destroy(e, id, t), id);
  }

  /** The old tracker leaves its list when another takes its place. */
  lemma KeptReplace(e: Env, cb: Callback)
    requires Inv(e) && Enabled(e, SetInstanceData(cb))
    ensures Kept(e, ReplaceInstance(e, cb))
  {
    hide Stored, Destroy, New, Kept;
    var d := e;
    KeptSame(e, e);
    if e.instance.Some? {
      OldLeaves(e, e.instance.value);
      d := DropInstance(e, e.instance.value);
    }
    InstanceKept(e, d, cb);
  }

  lemma OldLeaves(e: Env, id: Id)
    requires Inv(e) && e.instance == Some(id) && id < |e.heap|
    ensures var d := DropInstance(e, id);
      Kept(e, d) && |d.heap| == |e.heap| && d.heap[id].home == Nowhere && d.instance == e.instance
  {
    hide Stored, Kept;
    assert Good(e, id);
    KeptDestroy(e, id, GiveUp(e.heap[id]));
    if e.heap[id].finalizing { KeptSame(e, DropInstance(e, id)); }
  }

  lemma InstanceKept(e: Env, d: Env, cb: Callback)
    requires Kept(e, d) && |d.heap| == |e.heap| && d.instance == e.instance
    requires e.instance.Some? ==> e.instance.value < |d.heap| && d.heap[e.instance.value].home == Nowhere
    ensures Kept(e, New(d, NewTracked(cb)).(instance := Some(|d.heap|)))
  {
    hide Stored;
    var r := New(d, NewTracked(cb)).(instance := Some(|d.heap|));
    forall i: Id | i < |r.heap| ensures KeptAt(e, r, i) {
      if i < |d.heap| { assert KeptAt(e, d, i); }
    }
  }

  lemma {:induction false} KeptCollect(e: Env, id: Id)
    requires Inv(e) && id < |e.heap| && e.heap[id].hold == Weak
    ensures Kept(e, WeakCallback(e, id)) && Waits(WeakCallback(e, id), id)
    ensures WeakCallback(e, id).heap[id].hold == Empty
    decreases Stored(e.heap), 2
  {
    hide Finalize, Stored, Kept;
    var c := Put(e, id, e.heap[id].(hold := Empty));
    assert Good(e, id);
    assert Good(c, id);
    PutInv(e, id, c.heap[id]);
    assert Finalizing(e.heap[id]) ==> WeakCallback(e, id) == InvokeFinalizerFromGC(c, id);
    if !Finalizing(e.heap[id]) {
      KeptFinalize(c, id);
      KeptHandle(e, c, Finalize(c, id), id);
    } else if e.experimental {
      FlagInv(c, true);
      KeptFinalize(c.(inGc := true), id);
      KeptHandle(e, c.(inGc := true), Finalize(c.(inGc := true), id), id);
      KeptFlag(e, Finalize(c.(inGc := true), id), e.inGc);
    } else {
      KeptPut(e, WeakCallback(e, id), id);
    }
  }

  /** The weak callback leaves the tracker without a target; what comes then keeps everything else. */
  lemma KeptHandle(e: Env, c: Env, r: Env, id: Id)
    requires id < |e.heap| && c.heap == e.heap[id := e.heap[id].(hold := Empty)] && c.instance == e.instance
    requires c.pending == e.pending && Kept(c, r) && |r.heap| >= |e.heap| && Waits(r, id)
    ensures Kept(e, r) && r.heap[id].hold == Empty
  {
    assert KeptAt(c, r, id);
    forall i: Id | i < |r.heap| ensures KeptAt(e, r, i) {
      assert KeptAt(c, r, i);
    }
  }

  lemma KeptFlag(e: Env, r: Env, inGc: bool)
    requires Kept(e, r)
    ensures Kept(e, r.(inGc := inGc))
  {
    forall i: Id | i < |r.heap| ensures KeptAt(e, r.(inGc := inGc), i) {
      assert KeptAt(e, r, i);
    }
  }

  lemma {:induction false} KeptFinalize(e: Env, id: Id)
    requires Inv(e) && id < |e.heap| && e.heap[id].home != Nowhere
    requires e.teardown || (id !in e.pending && e.heap[id].hold != Strong && e.instance != Some(id))
    ensures Kept(e, Finalize(e, id)) && Waits(Finalize(e, id), id)
    decreases Stored(e.heap), 0
  {
    hide Stored, Good, Kept, EndFinalize;
    FinalizeInv(e, id);
    var u := Detach(e, id);
    DetachInv(e, id);
    KeptDetach(e, id);
    var c := u;
    if e.heap[id].callback.Calls? {
      KeptScript(u, e.heap[id].callback.script);
      RunScriptInv(u, e.heap[id].callback.script);
      c := RunScript(u, e.heap[id].callback.script);
      assert Follows(u, c, id);
      KeptTrans(e, u, c);
    }
    assert c.heap[id] == u.heap[id];
    KeptEnd(c, id, DeletesItself(e, id));
    KeptTrans(e, c, Finalize(e, id));
  }

  lemma KeptDetach(e: Env, id: Id)
    requires id < |e.heap|
    ensures Kept(e, Detach(e, id)) && Detach(e, id).heap[id].home == Nowhere && Detach(e, id).heap[id].finalizing
    ensures Detach(e, id).heap[id].hold == Empty
  {
    hide Stored;
    KeptPut(e, Detach(e, id), id);
  }

  lemma KeptEnd(c: Env, id: Id, deleteMe: bool)
    requires id < |c.heap| && c.heap[id].home == Nowhere && c.heap[id].hold == Empty
    ensures Kept(c, EndFinalize(c, id, deleteMe))
  {
    hide Stored;
    KeptPut(c, EndFinalize(c, id, deleteMe), id);
  }

  lemma {:induction false} KeptScript(e: Env, p: Script)
    requires Inv(e)
    ensures Kept(e, RunScript(e, p))
    decreases Stored(e.heap) + Size(p), 1
  {
    hide Inv, Exec, Kept;
    if p == [] {
      KeptSame(e, e);
    } else {
      KeptExec(e, p[0]);
      ExecInv(e, p[0]);
      KeptScript(Exec(e, p[0]), p[1..]);
      KeptTrans(e, Exec(e, p[0]), RunScript(Exec(e, p[0]), p[1..]));
    }
  }

  // ---- drains --------------------------------------------------------------------------------------

  lemma {:induction false} KeptDrain(e: Env, begin: Begin)
    requires Inv(e) && Idle(e) && Chooses(begin)
    ensures Kept(e, DrainLoop(e, begin))
    decreases Stored(e.heap), |e.pending|
  {
    hide Good, Finalize, Kept;
    if e.pending == {} {
      KeptSame(e, e);
    } else {
      var id := begin(e.heap, e.pending);
      var p := e.(pending := e.pending - {id});
      DrainOneInv(e, begin);
      DequeueInv(e, id);
      PendingIsNotInstance(e, id);
      KeptFinalize(p, id);
      KeptDequeue(e, p, Finalize(p, id), id);
      KeptDrain(DrainOne(e, begin), begin);
      KeptTrans(e, DrainOne(e, begin), DrainLoop(DrainOne(e, begin), begin));
    }
  }

  lemma KeptDequeue(e: Env, p: Env, r: Env, id: Id)
    requires id < |e.heap| && p == e.(pending := e.pending - {id}) && Kept(p, r) && |r.heap| >= |e.heap| && Waits(r, id)
    ensures Kept(e, r)
  {
    forall i: Id | i < |r.heap| ensures KeptAt(e, r, i) {
      assert KeptAt(p, r, i);
    }
  }

  lemma KeptTick(e: Env, begin: Begin)
    requires Inv(e) && Idle(e) && Chooses(begin)
    ensures Kept(e, Drain(e, begin))
  {
    hide Inv, Idle, DrainLoop;
    if e.draining || e.inGc {
      KeptSame(e, e);
    } else {
      DrainingInv(e, true);
      var d := e.(draining := true);
      KeptDrain(d, begin);
      KeptSame(e, d);
      KeptTrans(e, d, DrainLoop(d, begin));
      KeptSame(DrainLoop(d, begin), Drain(e, begin));
      KeptTrans(e, DrainLoop(d, begin), Drain(e, begin));
    }
  }

  // ---- runs ----------------------------------------------------------------------------------------

  /** At the top level no drain and no GC finalizer is going on. */
  predicate AtTop(e: Env) { !e.draining && !e.inGc && !e.teardown }

  lemma {:induction false} KeptRun(e: Env, cmds: seq<Command>, begin: Begin)
    requires Inv(e) && Idle(e) && Chooses(begin) && AtTop(e)
    ensures Kept(e, Run(e, cmds, begin)) && AtTop(Run(e, cmds, begin))
    ensures cmds != [] && cmds[|cmds| - 1].Tick? ==> Run(e, cmds, begin).pending == {}
    decreases cmds
  {
    hide Inv, Idle, Exec, Kept, DrainLoop;
    if cmds == [] {
      KeptSame(e, e);
    } else {
      var m := e;
      match cmds[0] {
        case Call(s) =>
          ExecInv(e, s);
          IdleLater(e, Exec(e, s));
          KeptExec(e, s);
          m := Exec(e, s);
        case Tick =>
          KeptTick(e, begin);
          TickAtTop(e, begin);
          m := Drain(e, begin);
      }
      KeptRun(m, cmds[1..], begin);
      KeptTrans(e, m, Run(m, cmds[1..], begin));
    }
  }

  lemma TickAtTop(e: Env, begin: Begin)
    requires Inv(e) && Idle(e) && Chooses(begin) && AtTop(e)
    ensures AtTop(Drain(e, begin)) && Drain(e, begin).pending == {}
  {
    hide Inv, Idle, DrainLoop;
    DrainingInv(e, true);
  }

  lemma InitQueued(experimental: bool)
    ensures Queued(Init(experimental)) && AtTop(Init(experimental)) && Inv(Init(experimental)) && Idle(Init(experimental))
  {
  }

  /** In every reachable state every linked tracker with a finalizer whose target was collected, and every posted one, is
      in the pending set; after a tick none is left. */
  lemma CollectedIsPending(experimental: bool, cmds: seq<Command>, begin: Begin, i: Id)
    requires Chooses(begin)
    ensures
      var e := Run(Init(experimental), cmds, begin);
      i < |e.heap| && e.heap[i].home == InFinlist && e.heap[i].hold == Empty && e.instance != Some(i) ==>
        i in e.pending && (cmds == [] || !cmds[|cmds| - 1].Tick?)
  {
    hide Inv, Idle, Run, Kept;
    InitQueued(experimental);
    KeptRun(Init(experimental), cmds, begin);
    KeptQueued(Init(experimental), Run(Init(experimental), cmds, begin));
    if i < |Run(Init(experimental), cmds, begin).heap| { assert Waits(Run(Init(experimental), cmds, begin), i); }
  }

  /** After a tick every finalizer of a tracker without a target - collected, or posted - has run exactly once, unless a
      call of the run gave it up before. */
  lemma TickFinalizes(experimental: bool, cmds: seq<Command>, begin: Begin, i: Id)
    requires Chooses(begin) && cmds != [] && cmds[|cmds| - 1].Tick?
    ensures
      var r := Run(Init(experimental), cmds, begin);
      i < |r.heap| && Finalizing(r.heap[i]) && r.heap[i].hold == Empty && r.instance != Some(i) ==>
        && r.heap[i].home == Nowhere
        && r.heap[i].runs
           == (if r.heap[i].registered && !AnyRun(Init(experimental), cmds, begin, GivesUp(i)) then 1 else 0)
  {
    hide Inv, Idle, Run, AnyRun, GivesUp;
    InitQueued(experimental);
    var r := Run(Init(experimental), cmds, begin);
    CollectedIsPending(experimental, cmds, begin, i);
    DropRun(Init(experimental), cmds, begin, i);
    if i < |r.heap| { SpentOrDropped(r, i); }
  }

  lemma SpentOrDropped(r: Env, i: Id)
    requires Inv(r) && i < |r.heap|
    ensures var t := r.heap[i];
      && (Finalizing(t) && t.home != Nowhere ==> t.home == InFinlist)
      && (t.home == Nowhere ==> t.runs == if t.registered && !t.dropped then 1 else 0)
  {
    assert Good(r, i);
  }

  /** A collection of an object with a finalizer, and then a tick: the finalizer has run, unless one that ran before it
      in that drain gave it up. In an experimental module it runs at once. */
  lemma CollectThenTick(experimental: bool, cmds: seq<Command>, begin: Begin, i: Id)
    requires Chooses(begin)
    ensures
      var e := Run(Init(experimental), cmds, begin);
      var r := Run(e, [Call(Step.Collect(i)), Tick], begin);
      Enabled(e, Step.Collect(i)) && e.heap[i].callback.Calls? ==>
        && i < |r.heap|
        && r.heap[i].runs == if AnyRun(e, [Call(Step.Collect(i)), Tick], begin, GivesUp(i)) then 0 else 1
  {
    hide Inv, Idle, Run, AnyRun, GivesUp, Exec, Kept;
    InitQueued(experimental);
    var e := Run(Init(experimental), cmds, begin);
    var after: seq<Command> := [Call(Step.Collect(i)), Tick];
    var r := Run(e, after, begin);
    KeptRun(Init(experimental), cmds, begin);
    KeptQueued(Init(experimental), e);
    if Enabled(e, Step.Collect(i)) && e.heap[i].callback.Calls? {
      StoredIsNotDropped(e, i);
      KeptRun(e, after, begin);
      KeptQueued(e, r);
      DropRun(e, after, begin, i);
      CollectEmpties(e, after, begin, i);
      assert Waits(r, i);
      SpentOrDropped(r, i);
    }
  }

  /** A callback still stored was not given up, and belongs to a tracker that is not the instance data's if it is weak. */
  lemma StoredIsNotDropped(e: Env, i: Id)
    requires Inv(e) && i < |e.heap| && e.heap[i].callback.Calls? && e.heap[i].hold == Weak
    ensures !e.heap[i].dropped && e.heap[i].registered && e.heap[i].kind == ReferenceWithFinalizer
  {
    assert Good(e, i);
  }

  lemma CollectEmpties(e: Env, after: seq<Command>, begin: Begin, i: Id)
    requires Inv(e) && Idle(e) && Chooses(begin) && AtTop(e) && Enabled(e, Step.Collect(i))
    requires e.heap[i].kind == ReferenceWithFinalizer && e.heap[i].registered && after == [Call(Step.Collect(i)), Tick]
    ensures var r := Run(e, after, begin);
      && i < |r.heap| && r.heap[i].hold == Empty && Finalizing(r.heap[i]) && r.heap[i].registered && r.instance != Some(i)
  {
    hide Idle, DrainLoop, Drain, WeakCallback, Good;
    var c := Exec(e, Step.Collect(i));
    ExecInv(e, Step.Collect(i));
    IdleLater(e, c);
    KeptCollect(e, i);
    KeptTick(c, begin);
    assert after[1..] == [Tick] && [Tick][1..] == [];
    assert Run(c, [Tick], begin) == Drain(c, begin);
    assert Follows(e, c, i) && KeptAt(c, Drain(c, begin), i);
    TickLater(c, begin, i);
  }

  lemma TickLater(c: Env, begin: Begin, i: Id)
    requires Inv(c) && Idle(c) && Chooses(begin) && i < |c.heap|
    ensures var r := Drain(c, begin);
      i < |r.heap| && r.heap[i].kind == c.heap[i].kind && r.heap[i].registered == c.heap[i].registered
  {
    hide Idle, DrainLoop, Good;
    if !(c.draining || c.inGc) {
      DrainingInv(c, true);
      assert Follows(c.(draining := true), DrainLoop(c.(draining := true), begin), i);
    }
  }

  /** A posted finalizer has run after the next tick: no call can give it up. */
  lemma PostThenTick(experimental: bool, cmds: seq<Command>, begin: Begin, p: Script)
    requires Chooses(begin)
    ensures
      var e := Run(Init(experimental), cmds, begin);
      var r := Run(e, [Call(PostFinalizer(Calls(p))), Tick], begin);
      |e.heap| < |r.heap| && r.heap[|e.heap|].runs == 1
  {
    hide Inv, Idle, Run, Exec, Kept;
    InitQueued(experimental);
    var e := Run(Init(experimental), cmds, begin);
    var after := [Call(PostFinalizer(Calls(p))), Tick];
    KeptRun(Init(experimental), cmds, begin);
    KeptQueued(Init(experimental), e);
    KeptRun(e, after, begin);
    KeptQueued(e, Run(e, after, begin));
    PostLeaves(e, after, begin, p);
    assert Waits(Run(e, after, begin), |e.heap|);
    SpentOrDropped(Run(e, after, begin), |e.heap|);
  }

  lemma PostLeaves(e: Env, after: seq<Command>, begin: Begin, p: Script)
    requires Inv(e) && Idle(e) && Chooses(begin) && AtTop(e) && after == [Call(PostFinalizer(Calls(p))), Tick]
    ensures var r, i := Run(e, after, begin), |e.heap|;
      && i < |r.heap| && r.heap[i].hold == Empty && Finalizing(r.heap[i]) && r.heap[i].registered && r.instance != Some(i)
      && !r.heap[i].dropped
  {
    hide Idle, DrainLoop, Drain, Stored;
    var i, c := |e.heap|, Exec(e, PostFinalizer(Calls(p)));
    ExecInv(e, PostFinalizer(Calls(p)));
    IdleLater(e, c);
    KeptTick(c, begin);
    assert after[1..] == [Tick] && [Tick][1..] == [];
    assert Run(c, [Tick], begin) == Drain(c, begin);
    assert KeptAt(c, Drain(c, begin), i);
    TickLater(c, begin, i);
  }
}
