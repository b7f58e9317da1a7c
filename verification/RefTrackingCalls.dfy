/** Which calls a run makes: exactly when a finalizer is given up and when a freed tracker is touched. */
module RefTrackingCalls {
  import opened Common
  import opened RefTracking
  import opened RefTrackingSafety
  import opened RefTrackingRuns

  type Test = (Env, Step) -> bool

  // ---- some call passes the test, at the state in which it is made --------------------------------

  predicate AnyExec(e: Env, s: Step, test: Test)
    decreases Stored(e.heap) + StepSize(s), 0
  {
    Enabled(e, s) && (test(e, s) || (s.Collect? && AnyCollect(e, s.id, test)))
  }

  predicate AnyCollect(e: Env, id: Id, test: Test)
    requires id < |e.heap|
    decreases Stored(e.heap), 2
  {
    var c := Put(e, id, e.heap[id].(hold := Empty));
    if !Finalizing(e.heap[id]) then AnyFinalize(c, id, test)
    else e.experimental && AnyFinalize(c.(inGc := true), id, test)
  }

  predicate AnyFinalize(e: Env, id: Id, test: Test)
    requires id < |e.heap|
    decreases Stored(e.heap), 0
  {
    e.heap[id].callback.Calls? && AnyScript(Detach(e, id), e.heap[id].callback.script, test)
  }

  predicate AnyScript(e: Env, p: Script, test: Test)
    decreases Stored(e.heap) + Size(p), 1
  {
    p != [] && (AnyExec(e, p[0], test) || AnyScript(Exec(e, p[0]), p[1..], test))
  }

  ghost predicate AnyDrain(e: Env, begin: Begin, test: Test)
    requires Inv(e) && Idle(e) && Chooses(begin)
    decreases Stored(e.heap), |e.pending|
  {
    if e.pending == {} then false
    else
      DrainOneInv(e, begin);
      AnyFinalize(e.(pending := e.pending - {begin(e.heap, e.pending)}), begin(e.heap, e.pending), test) || AnyDrain(DrainOne(e, begin), begin, test)
  }

  ghost predicate AnyFinalizeAll(e: Env, which: Home, test: Test)
    requires Inv(e) && Idle(e) && e.teardown && which != Nowhere
    decreases Stored(e.heap), |ListIn(e, which)|
  {
    if ListIn(e, which) == [] then false
    else
      HeadInv(e, which);
      AnyFinalize(e, ListIn(e, which)[0], test) || AnyFinalizeAll(Finalize(e, ListIn(e, which)[0]), which, test)
  }

  ghost predicate AnyRun(e: Env, cmds: seq<Command>, begin: Begin, test: Test)
    requires Inv(e) && Idle(e) && Chooses(begin)
    decreases cmds
  {
    if cmds == [] then false
    else
      match cmds[0]
      case Call(s) =>
        ExecInv(e, s);
        IdleLater(e, Exec(e, s));
        AnyExec(e, s, test) || AnyRun(Exec(e, s), cmds[1..], begin, test)
      case Tick =>
        DrainingInv(e, true);
        (!e.draining && !e.inGc && AnyDrain(e.(draining := true), begin, test)) || AnyRun(Drain(e, begin), cmds[1..], begin, test)
  }

  /** Some call made by a finalizer during DeleteMe passes the test. */
  ghost predicate AnyTeardown(e: Env, test: Test)
    requires Inv(e) && Idle(e)
  {
    var f := FinalizeAll(Dying(e), InFinlist);
    AnyFinalizeAll(Dying(e), InFinlist, test) || AnyFinalizeAll(f, InReflist, test)
  }

  ghost predicate AnyWhole(experimental: bool, cmds: seq<Command>, begin: Begin, test: Test)
    requires Chooses(begin)
  {
    InitInv(experimental);
    AnyRun(Init(experimental), cmds, begin, test) || AnyTeardown(Run(Init(experimental), cmds, begin), test)
  }

  // ---- freed trackers ----------------------------------------------------------------------------

  /** A tracker in use, with its Finalize begun and ended: no fault but those of its callback. */
  lemma DetachFault(e: Env, id: Id)
    requires id < |e.heap| && e.heap[id].alive
    ensures Detach(e, id).fault == e.fault && Detach(e, id).heap[id].alive && Detach(e, id).heap[id].finalizing
  {
    hide Stored;
  }

  lemma EndFault(c: Env, id: Id, deleteMe: bool)
    requires id < |c.heap| && c.heap[id].alive
    ensures EndFinalize(c, id, deleteMe).fault == c.fault
  {
    hide Stored;
  }

  lemma {:induction false} FaultFinalize(e: Env, id: Id)
    requires Inv(e) && id < |e.heap| && e.heap[id].home != Nowhere
    requires e.teardown || (id !in e.pending && e.heap[id].hold != Strong && e.instance != Some(id))
    ensures Finalize(e, id).fault == (e.fault || AnyFinalize(e, id, Faulty))
    decreases Stored(e.heap), 0
  {
    hide Faulty, Detach, EndFinalize, Good;
    assert e.heap[id].alive by { LinkedAlive(e, id); }
    var u := Detach(e, id);
    DetachInv(e, id);
    DetachFault(e, id);
    var c := u;
    if e.heap[id].callback.Calls? {
      FaultScript(u, e.heap[id].callback.script);
      RunScriptInv(u, e.heap[id].callback.script);
      c := RunScript(u, e.heap[id].callback.script);
      assert Follows(u, c, id);
    }
    EndFault(c, id, DeletesItself(e, id));
  }

  lemma LinkedAlive(e: Env, id: Id)
    requires Inv(e) && id < |e.heap| && e.heap[id].home != Nowhere
    ensures e.heap[id].alive
  {
    assert Good(e, id);
  }

  lemma {:induction false} FaultScript(e: Env, p: Script)
    requires Inv(e)
    ensures RunScript(e, p).fault == (e.fault || AnyScript(e, p, Faulty))
    decreases Stored(e.heap) + Size(p), 1
  {
    hide Inv, Faulty, Exec, AnyExec;
    if p != [] {
      FaultExec(e, p[0]);
      ExecInv(e, p[0]);
      FaultScript(Exec(e, p[0]), p[1..]);
    }
  }

  lemma {:induction false} FaultCollect(e: Env, id: Id)
    requires Inv(e) && id < |e.heap| && e.heap[id].hold == Weak
    ensures WeakCallback(e, id).fault == (e.fault || AnyCollect(e, id, Faulty))
    decreases Stored(e.heap), 2
  {
    hide Faulty, Finalize, AnyFinalize, Stored;
    var c := Put(e, id, e.heap[id].(hold := Empty));
    assert Good(e, id);
    assert Good(c, id);
    PutInv(e, id, c.heap[id]);
    if !Finalizing(e.heap[id]) {
      FaultFinalize(c, id);
    } else if e.experimental {
      FlagInv(c, true);
      FaultFinalize(c.(inGc := true), id);
    }
  }

  /** One call, with all it sets off, touches a freed tracker exactly if one of the calls made does. */
  lemma {:induction false} FaultExec(e: Env, s: Step)
    requires Inv(e)
    ensures Exec(e, s).fault == (e.fault || AnyExec(e, s, Faulty))
    decreases Stored(e.heap) + StepSize(s), 0
  {
    hide WeakCallback, AnyCollect, Inv, Stored;
    if Enabled(e, s) {
      if s.Collect? {
        FaultCollect(e, s.id);
      } else {
        FaultLeaf(e, s);
      }
    }
  }

  lemma FaultLeaf(e: Env, s: Step)
    requires Inv(e) && Enabled(e, s) && !s.Collect?
    ensures Exec(e, s).fault == (e.fault || Faulty(e, s))
  {
    hide Stored, Created, Destroy, New, DoRef, DoUnref, Put, Inv;
    if s.Delete? {
      DestroyEffect(e, s.id, GiveUp(e.heap[s.id]).(deleted := true), 0);
    } else if s.RemoveWrap? {
      DestroyEffect(e, s.id, GiveUp(e.heap[s.id]), 0);
      PutEffect(e, s.id, GiveUp(e.heap[s.id]).(callback := Null, wraps := false), 0);
    } else if s.SetInstanceData? {
      if e.instance.Some? { DestroyEffect(e, e.instance.value, GiveUp(e.heap[e.instance.value]), 0); }
      NewEffect(if e.instance.Some? then DropInstance(e, e.instance.value) else e, NewTracked(s.cb), 0);
    } else if s.Ref? {
      PutEffect(e, s.id, DoRef(e.heap[s.id]), 0);
      CountedAlive(e.heap[s.id]);
    } else if s.Unref? {
      PutEffect(e, s.id, DoUnref(e.heap[s.id]), 0);
      CountedAlive(e.heap[s.id]);
    } else if s.PostFinalizer? {
      NewEffect(e, NewTracked(s.cb), 0);
    } else if s.GetValue? || s.GetInstanceData? {
    } else if Created(e, s).Some? {
      NewEffect(e, Created(e, s).value, 0);
    }
  }

  lemma CountedAlive(t: Tracker)
    ensures DoRef(t).alive == t.alive && DoUnref(t).alive == t.alive
    ensures DoRef(t).dropped == t.dropped && DoUnref(t).dropped == t.dropped
  {
  }

  lemma DestroyEffect(e: Env, id: Id, t: Tracker, i: Id)
    requires id < |e.heap| && t.callback == e.heap[id].callback
    ensures Destroy(e, id, t).fault == (e.fault || !t.alive)
    ensures Dropped(Destroy(e, id, t), i) == if i == id then t.dropped else Dropped(e, i)
  {
    hide Stored;
  }

  lemma PutEffect(e: Env, id: Id, t: Tracker, i: Id)
    requires id < |e.heap|
    ensures Put(e, id, t).fault == e.fault && |Put(e, id, t).heap| == |e.heap| && Put(e, id, t).heap[id] == t
    ensures Dropped(Put(e, id, t), i) == if i == id then t.dropped else Dropped(e, i)
  {
    hide Stored;
  }

  lemma NewEffect(e: Env, t: Tracker, i: Id)
    ensures New(e, t).fault == e.fault
    ensures !t.dropped ==> Dropped(New(e, t), i) == Dropped(e, i)
  {
    hide Stored;
  }

  /** Before teardown no call touches a freed tracker. */
  lemma NoFaultBefore(e: Env, s: Step)
    requires Inv(e) && !e.teardown
    ensures !Faulty(e, s)
  {
    if s.Ref? || s.Unref? || s.Delete? || s.GetValue? {
      if Enabled(e, s) { assert Good(e, s.id); }
    } else if (s.SetInstanceData? || s.GetInstanceData?) && e.instance.Some? {
      assert Good(e, e.instance.value);
    }
  }

  /** Replacing instance data is safe exactly while the tracker of the old data is linked, if there is one, and reading
      it also while that tracker's own Finalize runs: both always before teardown. */
  lemma InstanceSafeExactly(e: Env, cb: Callback)
    requires Inv(e) && !e.fault
    ensures Exec(e, SetInstanceData(cb)).fault <==> e.instance.Some? && e.heap[e.instance.value].home == Nowhere
    ensures Exec(e, GetInstanceData).fault <==>
            e.instance.Some? && e.heap[e.instance.value].home == Nowhere && !e.heap[e.instance.value].finalizing
    ensures !e.teardown ==> !Exec(e, SetInstanceData(cb)).fault && !Exec(e, GetInstanceData).fault
  {
    hide Exec;
    FaultLeaf(e, SetInstanceData(cb));
    FaultLeaf(e, GetInstanceData);
    InstanceFaults(e, cb);
  }

  lemma InstanceFaults(e: Env, cb: Callback)
    requires Inv(e)
    ensures Faulty(e, SetInstanceData(cb)) <==> e.instance.Some? && e.heap[e.instance.value].home == Nowhere
    ensures Faulty(e, GetInstanceData) <==>
            e.instance.Some? && e.heap[e.instance.value].home == Nowhere && !e.heap[e.instance.value].finalizing
    ensures !e.teardown ==> !Faulty(e, SetInstanceData(cb)) && !Faulty(e, GetInstanceData)
  {
    if e.instance.Some? { assert Good(e, e.instance.value); }
  }

  lemma {:induction false} FaultFinalizeAll(e: Env, which: Home)
    requires Inv(e) && Idle(e) && e.teardown && which != Nowhere
    ensures FinalizeAll(e, which).fault == (e.fault || AnyFinalizeAll(e, which, Faulty))
    decreases Stored(e.heap), |ListIn(e, which)|
  {
    hide Faulty, Good, AnyFinalize, Finalize;
    if ListIn(e, which) != [] {
      HeadInv(e, which);
      HeadLinked(e, which);
      FaultFinalize(e, ListIn(e, which)[0]);
      FaultFinalizeAll(Finalize(e, ListIn(e, which)[0]), which);
    }
  }

  lemma HeadLinked(e: Env, which: Home)
    requires Inv(e) && which != Nowhere && ListIn(e, which) != []
    ensures ListIn(e, which)[0] < |e.heap| && e.heap[ListIn(e, which)[0]].home == which
  {
    assert ListIn(e, which)[0] in ListIn(e, which);
  }

  // ---- finalizers given up -----------------------------------------------------------------------

  /** The call gives up the finalizer of tracker i before it has run. */
  function GivesUp(i: Id): Test {
    (e: Env, s: Step) =>
      && i < |e.heap| && e.heap[i].callback.Calls?
      && (s == Step.Delete(i) || s == Step.RemoveWrap(i) || (s.SetInstanceData? && e.instance == Some(i)))
  }

  predicate Dropped(e: Env, i: Id) { i < |e.heap| && e.heap[i].dropped }

  lemma {:induction false} DropFinalize(e: Env, id: Id, i: Id)
    requires Inv(e) && id < |e.heap| && e.heap[id].home != Nowhere
    requires e.teardown || (id !in e.pending && e.heap[id].hold != Strong && e.instance != Some(id))
    ensures Dropped(Finalize(e, id), i) == (Dropped(e, i) || AnyFinalize(e, id, GivesUp(i)))
    decreases Stored(e.heap), 0
  {
    hide GivesUp, Detach, EndFinalize, Good;
    var u := Detach(e, id);
    DetachInv(e, id);
    DetachDropped(e, id, i);
    var c := u;
    if e.heap[id].callback.Calls? {
      DropScript(u, e.heap[id].callback.script, i);
      c := RunScript(u, e.heap[id].callback.script);
    }
    EndDropped(c, id, DeletesItself(e, id), i);
  }

  lemma DetachDropped(e: Env, id: Id, i: Id)
    requires id < |e.heap|
    ensures Dropped(Detach(e, id), i) == Dropped(e, i)
  {
    hide Stored;
  }

  lemma EndDropped(c: Env, id: Id, deleteMe: bool, i: Id)
    requires id < |c.heap|
    ensures Dropped(EndFinalize(c, id, deleteMe), i) == Dropped(c, i)
  {
    hide Stored;
  }

  lemma {:induction false} DropScript(e: Env, p: Script, i: Id)
    requires Inv(e)
    ensures Dropped(RunScript(e, p), i) == (Dropped(e, i) || AnyScript(e, p, GivesUp(i)))
    decreases Stored(e.heap) + Size(p), 1
  {
    hide Inv, GivesUp, Exec, AnyExec;
    if p != [] {
      DropExec(e, p[0], i);
      ExecInv(e, p[0]);
      DropScript(Exec(e, p[0]), p[1..], i);
    }
  }

  lemma {:induction false} DropCollect(e: Env, id: Id, i: Id)
    requires Inv(e) && id < |e.heap| && e.heap[id].hold == Weak
    ensures Dropped(WeakCallback(e, id), i) == (Dropped(e, i) || AnyCollect(e, id, GivesUp(i)))
    decreases Stored(e.heap), 2
  {
    hide GivesUp, Finalize, AnyFinalize, Stored;
    var c := Put(e, id, e.heap[id].(hold := Empty));
    assert Good(e, id);
    assert Good(c, id);
    PutInv(e, id, c.heap[id]);
    if !Finalizing(e.heap[id]) {
      DropFinalize(c, id, i);
    } else if e.experimental {
      FlagInv(c, true);
      DropFinalize(c.(inGc := true), id, i);
    }
  }

  /** A call, with all it sets off, gives up the finalizer of tracker i exactly if one of the calls made does. */
  lemma {:induction false} DropExec(e: Env, s: Step, i: Id)
    requires Inv(e)
    ensures Dropped(Exec(e, s), i) == (Dropped(e, i) || AnyExec(e, s, GivesUp(i)))
    decreases Stored(e.heap) + StepSize(s), 0
  {
    hide WeakCallback, AnyCollect, Inv, Stored, GivesUp;
    if Enabled(e, s) {
      if s.Collect? {
        DropCollect(e, s.id, i);
        NotCollect(e, s, i);
      } else {
        DropLeaf(e, s, i);
      }
    }
  }

  lemma NotCollect(e: Env, s: Step, i: Id)
    requires s.Collect?
    ensures !GivesUp(i)(e, s)
  {
  }

  lemma DropLeaf(e: Env, s: Step, i: Id)
    requires Inv(e) && Enabled(e, s) && !s.Collect?
    ensures Dropped(Exec(e, s), i) == (Dropped(e, i) || GivesUp(i)(e, s))
  {
    hide Exec, Enabled, Inv, GivesUp;
    if s.Delete? || s.RemoveWrap? {
      DropByUser(e, s, i);
    } else if s.SetInstanceData? {
      DropReplace(e, s.cb, i);
    } else {
      DropOther(e, s, i);
    }
  }

  lemma DropByUser(e: Env, s: Step, i: Id)
    requires Enabled(e, s) && (s.Delete? || s.RemoveWrap?)
    ensures Dropped(Exec(e, s), i) == (Dropped(e, i) || GivesUp(i)(e, s))
  {
    hide Stored, Destroy, Put;
    if s.Delete? {
      DestroyEffect(e, s.id, GiveUp(e.heap[s.id]).(deleted := true), i);
    } else {
      DestroyEffect(e, s.id, GiveUp(e.heap[s.id]), i);
      PutEffect(e, s.id, GiveUp(e.heap[s.id]).(callback := Null, wraps := false), i);
    }
  }

  /** The other calls give nothing up. */
  lemma DropOther(e: Env, s: Step, i: Id)
    requires Enabled(e, s) && !s.Collect? && !s.Delete? && !s.RemoveWrap? && !s.SetInstanceData?
    ensures Dropped(Exec(e, s), i) == Dropped(e, i) && !GivesUp(i)(e, s)
  {
    hide Stored, Created, New, DoRef, DoUnref, Put, Touch;
    if s.Ref? {
      PutEffect(e, s.id, DoRef(e.heap[s.id]), i);
      CountedAlive(e.heap[s.id]);
    } else if s.Unref? {
      PutEffect(e, s.id, DoUnref(e.heap[s.id]), i);
      CountedAlive(e.heap[s.id]);
    } else if s.PostFinalizer? {
      NewEffect(e, NewTracked(s.cb), i);
    } else if s.GetValue? || s.GetInstanceData? {
    } else if Created(e, s).Some? {
      CreatedFresh(e, s);
      NewEffect(e, Created(e, s).value, i);
    }
  }

  lemma DropReplace(e: Env, cb: Callback, i: Id)
    requires Inv(e) && Enabled(e, SetInstanceData(cb))
    ensures Dropped(Exec(e, SetInstanceData(cb)), i) == (Dropped(e, i) || GivesUp(i)(e, SetInstanceData(cb)))
  {
    hide Stored, Destroy, New, Inv;
    if e.instance.Some? {
      DestroyEffect(e, e.instance.value, GiveUp(e.heap[e.instance.value]), i);
      FinalizingIsSpent(e, e.instance.value);
    }
    NewEffect(if e.instance.Some? then DropInstance(e, e.instance.value) else e, NewTracked(cb), i);
  }

  lemma FinalizingIsSpent(e: Env, id: Id)
    requires Inv(e) && id < |e.heap|
    ensures e.heap[id].finalizing ==> e.heap[id].callback == Null
  {
    assert Good(e, id);
  }

  lemma CreatedFresh(e: Env, s: Step)
    requires s.CreateReference? || s.Wrap? || s.AddFinalizer?
    ensures Created(e, s).Some? ==> !Created(e, s).value.dropped
  {
  }

  lemma {:induction false} DropDrain(e: Env, begin: Begin, i: Id)
    requires Inv(e) && Idle(e) && Chooses(begin)
    ensures Dropped(DrainLoop(e, begin), i) == (Dropped(e, i) || AnyDrain(e, begin, GivesUp(i)))
    decreases Stored(e.heap), |e.pending|
  {
    hide GivesUp, Good, AnyFinalize, Finalize;
    if e.pending != {} {
      DrainOneInv(e, begin);
      DequeueInv(e, begin(e.heap, e.pending));
      PendingIsNotInstance(e, begin(e.heap, e.pending));
      DropFinalize(e.(pending := e.pending - {begin(e.heap, e.pending)}), begin(e.heap, e.pending), i);
      DropDrain(DrainOne(e, begin), begin, i);
    }
  }

  lemma PendingIsNotInstance(e: Env, id: Id)
    requires Inv(e) && id in e.pending
    ensures e.instance != Some(id)
  {
  }

  lemma {:induction false} DropFinalizeAll(e: Env, which: Home, i: Id)
    requires Inv(e) && Idle(e) && e.teardown && which != Nowhere
    ensures Dropped(FinalizeAll(e, which), i) == (Dropped(e, i) || AnyFinalizeAll(e, which, GivesUp(i)))
    decreases Stored(e.heap), |ListIn(e, which)|
  {
    hide GivesUp, Good, AnyFinalize, Finalize;
    if ListIn(e, which) != [] {
      HeadInv(e, which);
      HeadLinked(e, which);
      DropFinalize(e, ListIn(e, which)[0], i);
      DropFinalizeAll(Finalize(e, ListIn(e, which)[0]), which, i);
    }
  }

  lemma {:induction false} DropRun(e: Env, cmds: seq<Command>, begin: Begin, i: Id)
    requires Inv(e) && Idle(e) && Chooses(begin)
    ensures Dropped(Run(e, cmds, begin), i) == (Dropped(e, i) || AnyRun(e, cmds, begin, GivesUp(i)))
    decreases cmds
  {
    hide GivesUp, Inv, Idle, Exec, AnyExec, DrainLoop, AnyDrain;
    if cmds != [] {
      match cmds[0]
      case Call(s) =>
        DropExec(e, s, i);
        ExecInv(e, s);
        IdleLater(e, Exec(e, s));
        DropRun(Exec(e, s), cmds[1..], begin, i);
      case Tick =>
        DrainingInv(e, true);
        if !e.draining && !e.inGc { DropDrain(e.(draining := true), begin, i); }
        DropRun(Drain(e, begin), cmds[1..], begin, i);
    }
  }

  // ---- whole runs --------------------------------------------------------------------------------

  lemma WholeDropped(experimental: bool, cmds: seq<Command>, begin: Begin, i: Id)
    requires Chooses(begin)
    ensures Dropped(WholeRun(experimental, cmds, begin), i) == AnyWhole(experimental, cmds, begin, GivesUp(i))
  {
    hide GivesUp, Inv, Run, AnyRun, FinalizeAll, AnyFinalizeAll;
    InitInv(experimental);
    DropRun(Init(experimental), cmds, begin, i);
    var e := Run(Init(experimental), cmds, begin);
    DropFinalizeAll(Dying(e), InFinlist, i);
    DropFinalizeAll(FinalizeAll(Dying(e), InFinlist), InReflist, i);
  }

  lemma TeardownFault(e: Env)
    requires Inv(e) && Idle(e) && !e.teardown
    ensures DeleteMe(e).fault == AnyTeardown(e, Faulty)
  {
    hide Faulty, FinalizeAll, AnyFinalizeAll;
    FaultFinalizeAll(Dying(e), InFinlist);
    FaultFinalizeAll(FinalizeAll(Dying(e), InFinlist), InReflist);
  }

  /** Over every run ending in teardown: a registered finalizer runs exactly once, unless a call gives it up before
      it ran; then it never runs. Nothing stays linked or queued, and all that is left allocated are handles
      finalized earlier that the user never deleted. */
  lemma FinalizersRunExactlyOnce(experimental: bool, cmds: seq<Command>, begin: Begin, i: Id)
    requires Chooses(begin)
    ensures
      var r := WholeRun(experimental, cmds, begin);
      && r.reflist == [] && r.finlist == [] && r.pending == {}
      && (i < |r.heap| ==>
            var t := r.heap[i];
            && t.runs == (if t.registered && !AnyWhole(experimental, cmds, begin, GivesUp(i)) then 1 else 0)
            && (t.alive ==> Retired(t) && !t.deleted))
  {
    hide AnyWhole, WholeRun;
    WholeDropped(experimental, cmds, begin, i);
    WholeShape(experimental, cmds, begin);
    NothingQueued(WholeRun(experimental, cmds, begin));
    if i < |WholeRun(experimental, cmds, begin).heap| { AtRest(WholeRun(experimental, cmds, begin), i); }
  }

  lemma WholeShape(experimental: bool, cmds: seq<Command>, begin: Begin)
    requires Chooses(begin)
    ensures var r := WholeRun(experimental, cmds, begin); Inv(r) && Idle(r) && r.reflist == [] && r.finlist == []
  {
  }

  lemma NothingQueued(r: Env)
    requires Inv(r) && Idle(r) && r.reflist == [] && r.finlist == []
    ensures r.pending == {}
  {
    forall j: Id | j < |r.heap| ensures j !in r.pending {
      assert Good(r, j);
      assert j !in r.reflist && j !in r.finlist;
    }
  }

  lemma AtRest(r: Env, i: Id)
    requires Inv(r) && Idle(r) && r.reflist == [] && r.finlist == [] && i < |r.heap|
    ensures var t := r.heap[i];
      t.runs == (if t.registered && !t.dropped then 1 else 0) && (t.alive ==> Retired(t) && !t.deleted)
  {
    assert Good(r, i);
    assert i !in r.reflist && i !in r.finlist;
  }

  /** No freed tracker is used, freed or finalized again before teardown; over a whole run that happens exactly if
      a finalizer running in teardown makes such a call. The runtime itself never does it. */
  lemma FreedTouchedExactly(experimental: bool, cmds: seq<Command>, begin: Begin)
    requires Chooses(begin)
    ensures !Run(Init(experimental), cmds, begin).fault
    ensures WholeRun(experimental, cmds, begin).fault <==> AnyTeardown(Run(Init(experimental), cmds, begin), Faulty)
  {
    hide Faulty, AnyTeardown, DeleteMe;
    TeardownFault(Run(Init(experimental), cmds, begin));
  }

  /** All registered finalizers run exactly once if and only if no call gives one up before it ran. */
  lemma EveryFinalizerRuns(experimental: bool, cmds: seq<Command>, begin: Begin)
    requires Chooses(begin)
    ensures
      var r := WholeRun(experimental, cmds, begin);
      (forall i: Id | i < |r.heap| && r.heap[i].registered :: r.heap[i].runs == 1)
      <==> (forall i: Id | i < |r.heap| && r.heap[i].registered :: !AnyWhole(experimental, cmds, begin, GivesUp(i)))
  {
    hide AnyWhole, WholeRun, GivesUp;
    forall i: Id | i < |WholeRun(experimental, cmds, begin).heap|
      ensures var t := WholeRun(experimental, cmds, begin).heap[i];
        t.registered ==> (t.runs == 1 <==> !AnyWhole(experimental, cmds, begin, GivesUp(i)))
    {
      FinalizersRunExactlyOnce(experimental, cmds, begin, i);
    }
  }
}
