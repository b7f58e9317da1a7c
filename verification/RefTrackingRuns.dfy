/** Whole runs: calls and host ticks in any order, then DeleteMe. */
module RefTrackingRuns {
  import opened Common
  import opened RefTracking
  import opened RefTrackingSafety

  datatype Command = Call(step: Step) | Tick

  /** The element begin() of the unordered pending set yields: any function of the set and of all trackers with
      their histories. */
  type Begin = (seq<Tracker>, set<Id>) -> Id

  ghost predicate Chooses(begin: Begin) {
    forall heap: seq<Tracker>, pending: set<Id> :: pending != {} ==> begin(heap, pending) in pending
  }

  /** No finalizer is running. */
  ghost predicate Idle(e: Env) {
    forall i: Id :: i < |e.heap| ==> !e.heap[i].finalizing
  }

  lemma IdleLater(e: Env, r: Env)
    requires Idle(e) && Later(e, r)
    ensures Idle(r)
  {
    forall i: Id | i < |r.heap| ensures !r.heap[i].finalizing {
      assert Follows(e, r, i);
    }
  }

  // ---- DrainFinalizerQueue ---------------------------------------------------------------------

  lemma DequeueInv(e: Env, id: Id)
    requires Inv(e) && Idle(e) && id in e.pending
    ensures Inv(e.(pending := e.pending - {id})) && Later(e, e.(pending := e.pending - {id}))
    ensures e.heap[id].home == InFinlist && e.heap[id].hold == Empty
  {
    var r := e.(pending := e.pending - {id});
    forall i: Id | i < |e.heap| ensures Good(r, i) && Follows(e, r, i) {
      assert Good(e, i);
    }
    assert Good(e, id);
  }

  lemma FinalizeNull(e: Env, id: Id)
    requires id < |e.heap| && e.heap[id].callback == Null
    ensures Finalize(e, id).pending <= e.pending
    ensures Finalize(e, id).finlist == Remove(e.finlist, id) || Finalize(e, id).finlist == Remove(Remove(e.finlist, id), id)
    ensures Finalize(e, id).reflist == Remove(e.reflist, id) || Finalize(e, id).reflist == Remove(Remove(e.reflist, id), id)
  {}

  /** One turn of the drain loop: erase from the pending set, then finalize. */
  function DrainOne(e: Env, begin: Begin): Env
    requires begin(e.heap, e.pending) < |e.heap|
  {
    Finalize(e.(pending := e.pending - {begin(e.heap, e.pending)}), begin(e.heap, e.pending))
  }

  lemma DrainOneInv(e: Env, begin: Begin)
    requires Inv(e) && Idle(e) && Chooses(begin) && e.pending != {}
    ensures begin(e.heap, e.pending) < |e.heap|
    ensures var r := DrainOne(e, begin); Inv(r) && Idle(r) && Later(e, r)
    ensures var r := DrainOne(e, begin);
            Stored(r.heap) < Stored(e.heap) || (Stored(r.heap) == Stored(e.heap) && |r.pending| < |e.pending|)
  {
    var id := begin(e.heap, e.pending);
    var p := e.(pending := e.pending - {id});
    DequeueInv(e, id);
    FinalizeInv(p, id);
    LaterTrans(e, p, Finalize(p, id));
    IdleLater(e, Finalize(p, id));
    if e.heap[id].callback == Null {
      FinalizeNull(p, id);
      SubsetSize(Finalize(p, id).pending, p.pending);
    }
  }

  function DrainLoop(e: Env, begin: Begin): (r: Env)
    requires Inv(e) && Idle(e) && Chooses(begin)
    ensures Inv(r) && Idle(r) && Later(e, r) && r.pending == {}
    decreases Stored(e.heap), |e.pending|
  {
    if e.pending == {} then
      LaterRefl(e);
      e
    else
      DrainOneInv(e, begin);
      var r := DrainLoop(DrainOne(e, begin), begin);
      LaterTrans(e, DrainOne(e, begin), r);
      r
  }

  lemma DrainLoopTurn(e: Env, begin: Begin)
    requires Inv(e) && Idle(e) && Chooses(begin) && e.pending != {}
    ensures begin(e.heap, e.pending) < |e.heap| && Inv(DrainOne(e, begin)) && Idle(DrainOne(e, begin))
    ensures DrainLoop(e, begin) == DrainLoop(DrainOne(e, begin), begin)
  {
    DrainOneInv(e, begin);
  }

  lemma SubsetSize(a: set<Id>, b: set<Id>)
    requires a <= b
    ensures |a| <= |b|
  {
    if b != {} {
      var x :| x in b;
      SubsetSize(a - {x}, b - {x});
    }
  }

  /** DrainFinalizerQueue: refuses to nest and to run inside a GC finalizer. */
  function Drain(e: Env, begin: Begin): (r: Env)
    requires Inv(e) && Idle(e) && Chooses(begin)
    ensures Inv(r) && Idle(r) && r.teardown == e.teardown
    ensures e.draining || e.inGc || r.pending == {}
  {
    if e.draining || e.inGc then e
    else
      DrainingInv(e, true);
      var r := DrainLoop(e.(draining := true), begin);
      DrainingInv(r, false);
      r.(draining := false)
  }

  lemma DrainingInv(e: Env, on: bool)
    requires Inv(e)
    ensures Inv(e.(draining := on)) && (Idle(e) ==> Idle(e.(draining := on)))
  {
    forall i: Id | i < |e.heap| ensures Good(e.(draining := on), i) {
      assert Good(e, i);
    }
  }

  // ---- DeleteMe --------------------------------------------------------------------------------

  function ListIn(e: Env, which: Home): seq<Id> {
    if which == InFinlist then e.finlist else e.reflist
  }

  lemma HeadInv(e: Env, which: Home)
    requires Inv(e) && Idle(e) && e.teardown && ListIn(e, which) != [] && which != Nowhere
    ensures ListIn(e, which)[0] < |e.heap|
    ensures
      var r := Finalize(e, ListIn(e, which)[0]);
      && Inv(r) && Idle(r) && Later(e, r)
      && (Stored(r.heap) < Stored(e.heap)
          || (Stored(r.heap) == Stored(e.heap) && |ListIn(r, which)| < |ListIn(e, which)|))
      && (which == InReflist && e.finlist == [] ==> r.finlist == [])
  {
    var id := ListIn(e, which)[0];
    assert id in ListIn(e, which);
    assert Good(e, id);
    FinalizeInv(e, id);
    IdleLater(e, Finalize(e, id));
    if e.heap[id].callback == Null {
      FinalizeNull(e, id);
    }
  }

  /** RefTracker::FinalizeAll. */
  function FinalizeAll(e: Env, which: Home): (r: Env)
    requires Inv(e) && Idle(e) && e.teardown && which != Nowhere
    ensures Inv(r) && Idle(r) && Later(e, r) && ListIn(r, which) == []
    ensures which == InReflist && e.finlist == [] ==> r.finlist == []
    decreases Stored(e.heap), |ListIn(e, which)|
  {
    if ListIn(e, which) == [] then
      LaterRefl(e);
      e
    else
      HeadInv(e, which);
      var m := Finalize(e, ListIn(e, which)[0]);
      var r := FinalizeAll(m, which);
      LaterTrans(e, m, r);
      r
  }

  lemma FinalizeAllTurn(e: Env, which: Home)
    requires Inv(e) && Idle(e) && e.teardown && which != Nowhere && ListIn(e, which) != []
    ensures ListIn(e, which)[0] < |e.heap|
    ensures var r := Finalize(e, ListIn(e, which)[0]);
      Inv(r) && Idle(r) && r.teardown && FinalizeAll(e, which) == FinalizeAll(r, which)
  {
    hide Inv, Idle, Finalize, Stored;
    HeadInv(e, which);
  }

  lemma FinalizeAllDone(e: Env, which: Home)
    requires Inv(e) && Idle(e) && e.teardown && which != Nowhere && ListIn(e, which) == []
    ensures FinalizeAll(e, which) == e
  {
  }

  lemma TeardownInv(e: Env)
    requires Inv(e) && Idle(e)
    ensures Inv(e.(teardown := true)) && Idle(e.(teardown := true))
  {
    forall i: Id | i < |e.heap| ensures Good(e.(teardown := true), i) {
      assert Good(e, i);
    }
  }

  /** The state when DeleteMe has set the teardown flag. */
  function Dying(e: Env): (r: Env)
    requires Inv(e) && Idle(e)
    ensures Inv(r) && Idle(r) && r.teardown
  {
    TeardownInv(e);
    e.(teardown := true)
  }

  /** The state when DeleteMe is about to destroy the env itself. */
  function DeleteMe(e: Env): (r: Env)
    requires Inv(e) && Idle(e)
    ensures Inv(r) && Idle(r) && r.reflist == [] && r.finlist == []
  {
    var f := FinalizeAll(Dying(e), InFinlist);
    assert f.teardown by { assert SameFlags(Dying(e), f); }
    FinalizeAll(f, InReflist)
  }

  // ---- runs ------------------------------------------------------------------------------------

  function Run(e: Env, cmds: seq<Command>, begin: Begin): (r: Env)
    requires Inv(e) && Idle(e) && Chooses(begin)
    ensures Inv(r) && Idle(r) && r.teardown == e.teardown
    decreases cmds
  {
    if cmds == [] then e
    else
      match cmds[0]
      case Call(s) =>
        ExecInv(e, s);
        IdleLater(e, Exec(e, s));
        Run(Exec(e, s), cmds[1..], begin)
      case Tick => Run(Drain(e, begin), cmds[1..], begin)
  }

  function WholeRun(experimental: bool, cmds: seq<Command>, begin: Begin): Env
    requires Chooses(begin)
  {
    InitInv(experimental);
    DeleteMe(Run(Init(experimental), cmds, begin))
  }

  /** Before teardown a handle is good until the user deletes it, whatever was collected, and a positive
      count keeps the target readable. */
  lemma HandlesSurviveCollection(experimental: bool, cmds: seq<Command>, begin: Begin, i: Id)
    requires Chooses(begin)
    requires i < |Run(Init(experimental), cmds, begin).heap|
    ensures
      var t := Run(Init(experimental), cmds, begin).heap[i];
      && (t.ownership == Userland ==> (t.alive <==> !t.deleted))
      && (t.alive && t.refcount > 0 ==> t.hold == Strong)
  {
    assert Good(Run(Init(experimental), cmds, begin), i);
  }

  lemma RunFollows(e: Env, r: Env, i: Id)
    requires Later(e, r) && i < |e.heap|
    ensures i < |r.heap| && r.heap[i].ownership == e.heap[i].ownership
  {
    assert Follows(e, r, i);
  }

  lemma {:induction false} RunOwner(e: Env, cmds: seq<Command>, begin: Begin, i: Id)
    requires Inv(e) && Idle(e) && Chooses(begin) && i < |e.heap|
    ensures i < |Run(e, cmds, begin).heap| && Run(e, cmds, begin).heap[i].ownership == e.heap[i].ownership
    decreases cmds
  {
    hide Inv, Idle, Exec, DrainLoop, Later;
    if cmds != [] {
      match cmds[0]
      case Call(s) =>
        ExecInv(e, s);
        IdleLater(e, Exec(e, s));
        RunFollows(e, Exec(e, s), i);
        RunOwner(Exec(e, s), cmds[1..], begin, i);
      case Tick =>
        if !(e.draining || e.inGc) {
          DrainingInv(e, true);
          RunFollows(e.(draining := true), DrainLoop(e.(draining := true), begin), i);
        }
        RunOwner(Drain(e, begin), cmds[1..], begin, i);
    }
  }

  /** A handle the caller asked for and got is good, after any later calls, collections and ticks, exactly until
      the user deletes it. */
  lemma RequestedHandleStaysGood(e: Env, s: Step, cmds: seq<Command>, begin: Begin)
    requires Inv(e) && Idle(e) && Chooses(begin) && !e.teardown && Enabled(e, s)
    requires s.CreateReference? || (s.Wrap? && s.wantRef) || (s.AddFinalizer? && s.wantRef)
    requires Created(e, s).Some?
    ensures
      var r := Run(e, [Call(s)] + cmds, begin);
      |e.heap| < |r.heap| && (r.heap[|e.heap|].alive <==> !r.heap[|e.heap|].deleted)
  {
    hide Inv, Idle;
    var c := Exec(e, s);
    ExecInv(e, s);
    IdleLater(e, c);
    assert ([Call(s)] + cmds)[1..] == cmds;
    assert c == New(e, Created(e, s).value);
    RunOwner(c, cmds, begin, |e.heap|);
    UserlandGood(Run(c, cmds, begin), |e.heap|);
  }

  lemma UserlandGood(e: Env, i: Id)
    requires Inv(e) && i < |e.heap| && e.heap[i].ownership == Userland && !e.teardown
    ensures e.heap[i].alive <==> !e.heap[i].deleted
  {
    assert Good(e, i);
  }
}
