/** The order in which DeleteMe finalizes, and what the finalizers it runs may still touch. */
module RefTrackingTeardown {
  import opened Common
  import opened RefTracking
  import opened RefTrackingSafety
  import opened RefTrackingRuns
  import opened RefTrackingCalls

  // ---- what one call or callback leaves alone -----------------------------------------------------

  /** Nothing is linked again, and teardown leaves no tracker unlinked but allocated. */
  ghost predicate Quiet(e: Env, r: Env) {
    && |e.heap| <= |r.heap| && r.teardown == e.teardown
    && forall i: Id {:trigger Undisturbed(e, r, i)} :: i < |r.heap| ==> Undisturbed(e, r, i)
  }

  predicate Undisturbed(e: Env, r: Env, i: Id)
    requires i < |r.heap|
  {
    && (i < |e.heap| && r.heap[i].home == InFinlist ==> e.heap[i].home == InFinlist)
    && (e.teardown && Parked(r.heap[i]) ==> i < |e.heap| && Parked(e.heap[i]))
  }

  /** Allocated on no list, and not being finalized. */
  predicate Parked(t: Tracker) { t.alive && t.home == Nowhere && !t.finalizing }

  lemma QuietTrans(e: Env, m: Env, r: Env)
    requires Quiet(e, m) && Quiet(m, r)
    ensures Quiet(e, r)
  {
    forall i: Id | i < |r.heap| ensures Undisturbed(e, r, i) {
      assert Undisturbed(m, r, i);
      if i < |m.heap| { assert Undisturbed(e, m, i); }
    }
  }

  lemma QuietPut(e: Env, r: Env, id: Id)
    requires id < |e.heap| && |r.heap| == |e.heap| && r.heap == e.heap[id := r.heap[id]] && Undisturbed(e, r, id)
    requires r.teardown == e.teardown
    ensures Quiet(e, r)
  {
    forall i: Id | i < |r.heap| ensures Undisturbed(e, r, i) {
    }
  }

  lemma QuietNew(e: Env, t: Tracker)
    requires t.home != Nowhere
    ensures Quiet(e, New(e, t))
  {
    hide Stored;
    forall i: Id | i < |New(e, t).heap| ensures Undisturbed(e, New(e, t), i) {
    }
  }

  lemma {:induction false} QuietExec(e: Env, s: Step)
    requires Inv(e)
    ensures Quiet(e, Exec(e, s))
    decreases Stored(e.heap) + StepSize(s), 0
  {
    hide WeakCallback, Stored, Inv, Quiet;
    if !Enabled(e, s) {
      QuietSame(e, e);
    } else if s.Collect? {
      QuietCollect(e, s.id);
    } else {
      QuietLeaf(e, s);
    }
  }

  lemma QuietSame(e: Env, r: Env)
    requires r.heap == e.heap && r.teardown == e.teardown
    ensures Quiet(e, r)
  {
    forall i: Id | i < |e.heap| ensures Undisturbed(e, r, i) {
    }
  }

  lemma QuietLeaf(e: Env, s: Step)
    requires Inv(e) && Enabled(e, s) && !s.Collect?
    ensures Quiet(e, Exec(e, s))
  {
    hide Stored, Created, Destroy, New, Put, Inv, Quiet, ReplaceInstance, DoRef, DoUnref;
    if s.Delete? {
      QuietDestroy(e, s.id, GiveUp(e.heap[s.id]).(deleted := true));
    } else if s.RemoveWrap? {
      QuietDestroy(e, s.id, GiveUp(e.heap[s.id]));
      QuietUpdate(e, s.id, GiveUp(e.heap[s.id]).(callback := Null, wraps := false));
    } else if s.SetInstanceData? {
      QuietReplace(e, s.cb);
    } else if s.Ref? || s.Unref? {
      QuietCount(e, s);
    } else if s.PostFinalizer? {
      QuietNew(e, NewTracked(s.cb));
      QuietSame(New(e, NewTracked(s.cb)), Exec(e, s));
      QuietTrans(e, New(e, NewTracked(s.cb)), Exec(e, s));
    } else if s.GetValue? || s.GetInstanceData? {
      QuietSame(e, Exec(e, s));
    } else if Created(e, s).Some? {
      CreatedLinked(e, s);
      QuietNew(e, Created(e, s).value);
    } else {
      QuietSame(e, e);
    }
  }

  lemma CreatedLinked(e: Env, s: Step)
    requires s.CreateReference? || s.Wrap? || s.AddFinalizer?
    ensures Created(e, s).Some? ==> Created(e, s).value.home != Nowhere && !Created(e, s).value.torn
  {
  }

  lemma QuietUpdate(e: Env, id: Id, t: Tracker)
    requires id < |e.heap| && t.home == e.heap[id].home && t.alive == e.heap[id].alive
    requires t.finalizing == e.heap[id].finalizing
    ensures Quiet(e, Put(e, id, t))
  {
    hide Stored;
    QuietPut(e, Put(e, id, t), id);
  }

  lemma QuietCount(e: Env, s: Step)
    requires (s.Ref? || s.Unref?) && Enabled(e, s)
    ensures Quiet(e, Exec(e, s))
  {
    hide Stored;
    QuietPut(e, Exec(e, s), s.id);
  }

  lemma QuietDestroy(e: Env, id: Id, t: Tracker)
    requires id < |e.heap| && t.callback == e.heap[id].callback
    ensures Quiet(e, Destroy(e, id, t))
  {
    hide Stored;
    assert Destroy(e, id, t).heap == e.heap[id := Destroy(e, id, t).heap[id]];
    QuietPut(e, Destroy(e, id, t), id);
  }

  lemma QuietReplace(e: Env, cb: Callback)
    requires Enabled(e, SetInstanceData(cb))
    ensures Quiet(e, ReplaceInstance(e, cb))
  {
    hide Stored, Destroy, New, Quiet;
    var d := e;
    QuietSame(e, e);
    if e.instance.Some? {
      d := DropInstance(e, e.instance.value);
      QuietDestroy(e, e.instance.value, GiveUp(e.heap[e.instance.value]));
      if e.heap[e.instance.value].finalizing { QuietSame(e, d); }
    }
    QuietNew(d, NewTracked(cb));
    QuietTrans(e, d, New(d, NewTracked(cb)));
    QuietSame(New(d, NewTracked(cb)), ReplaceInstance(e, cb));
    QuietTrans(e, New(d, NewTracked(cb)), ReplaceInstance(e, cb));
  }

  lemma {:induction false} QuietCollect(e: Env, id: Id)
    requires Inv(e) && id < |e.heap| && e.heap[id].hold == Weak
    ensures Quiet(e, WeakCallback(e, id))
    decreases Stored(e.heap), 2
  {
    hide Finalize, Stored, Quiet;
    var c := Put(e, id, e.heap[id].(hold := Empty));
    QuietUpdate(e, id, c.heap[id]);
    assert Good(e, id);
    assert Good(c, id);
    PutInv(e, id, c.heap[id]);
    assert Finalizing(e.heap[id]) ==> WeakCallback(e, id) == InvokeFinalizerFromGC(c, id);
    if !Finalizing(e.heap[id]) {
      QuietFinalize(c, id);
    } else if e.experimental {
      var g := c.(inGc := true);
      FlagInv(c, true);
      QuietFinalize(g, id);
      QuietSame(c, g);
      QuietSame(Finalize(g, id), WeakCallback(e, id));
      QuietTrans(c, g, Finalize(g, id));
      QuietTrans(c, Finalize(g, id), WeakCallback(e, id));
    } else {
      QuietSame(c, WeakCallback(e, id));
    }
    QuietTrans(e, c, WeakCallback(e, id));
  }

  lemma {:induction false} QuietFinalize(e: Env, id: Id)
    requires Inv(e) && id < |e.heap| && e.heap[id].home != Nowhere
    requires e.teardown || (id !in e.pending && e.heap[id].hold != Strong && e.instance != Some(id))
    ensures Quiet(e, Finalize(e, id))
    decreases Stored(e.heap), 0
  {
    hide Stored, Good, Quiet, EndFinalize;
    var u := Detach(e, id);
    DetachInv(e, id);
    QuietPut(e, u, id);
    var c := u;
    if e.heap[id].callback.Calls? {
      QuietScript(u, e.heap[id].callback.script);
      RunScriptInv(u, e.heap[id].callback.script);
      c := RunScript(u, e.heap[id].callback.script);
      QuietTrans(e, u, c);
    }
    QuietEnd(c, id, DeletesItself(e, id));
    QuietTrans(e, c, Finalize(e, id));
  }

  lemma QuietEnd(c: Env, id: Id, deleteMe: bool)
    requires id < |c.heap| && (c.teardown ==> deleteMe)
    ensures Quiet(c, EndFinalize(c, id, deleteMe))
  {
    hide Stored;
    QuietPut(c, EndFinalize(c, id, deleteMe), id);
  }

  lemma {:induction false} QuietScript(e: Env, p: Script)
    requires Inv(e)
    ensures Quiet(e, RunScript(e, p))
    decreases Stored(e.heap) + Size(p), 1
  {
    hide Inv, Exec, Quiet;
    if p == [] {
      QuietSame(e, e);
    } else {
      QuietExec(e, p[0]);
      ExecInv(e, p[0]);
      QuietScript(Exec(e, p[0]), p[1..]);
      QuietTrans(e, Exec(e, p[0]), RunScript(Exec(e, p[0]), p[1..]));
    }
  }

  // ---- which trackers the environment finalizes in teardown ----------------------------------------

  /** A collection that finalizes h at once; otherwise a tracker with a finalizer is only queued. */
  function Collects(h: Id): Test {
    (e: Env, s: Step) => s == Step.Collect(h) && h < |e.heap| && (e.experimental || !Finalizing(e.heap[h]))
  }

  predicate Torn(e: Env, h: Id) { h < |e.heap| && e.heap[h].torn }

  /** From e to r teardown finalized h exactly if it was collected, and only an uncounted reference can be. */
  ghost predicate TornBy(e: Env, r: Env, h: Id, collected: bool) {
    && (Torn(r, h) <==> Torn(e, h) || collected)
    && (Torn(e, h) ==> r.heap[h].refcount == e.heap[h].refcount)
    && (collected ==> Collectable(r, h) && !Torn(e, h))
  }

  predicate Collectable(r: Env, h: Id) {
    && h < |r.heap| && r.heap[h].refcount == 0 && r.heap[h].kind != TrackedFinalizer
    && (r.experimental || !Finalizing(r.heap[h]))
  }

  lemma TornTrans(e: Env, m: Env, r: Env, h: Id, a: bool, b: bool)
    requires TornBy(e, m, h, a) && TornBy(m, r, h, b) && Later(m, r)
    ensures TornBy(e, r, h, a || b)
  {
    if h < |m.heap| { assert Follows(m, r, h); }
  }

  lemma {:induction false} TornExec(e: Env, s: Step, h: Id)
    requires Inv(e) && e.teardown
    ensures TornBy(e, Exec(e, s), h, AnyExec(e, s, Collects(h)))
    decreases Stored(e.heap) + StepSize(s), 0
  {
    hide WeakCallback, AnyCollect, Inv, Stored, TornBy;
    if !Enabled(e, s) {
      TornSame(e, e, h);
    } else if s.Collect? {
      TornCollect(e, s.id, h);
    } else {
      TornLeaf(e, s, h);
    }
  }

  lemma TornSame(e: Env, r: Env, h: Id)
    requires r.heap == e.heap
    ensures TornBy(e, r, h, false)
  {
  }

  lemma TornUpdate(e: Env, r: Env, id: Id, h: Id)
    requires id < |e.heap| == |r.heap| && r.heap == e.heap[id := r.heap[id]]
    requires r.heap[id].torn == e.heap[id].torn && (e.heap[id].torn ==> r.heap[id].refcount == e.heap[id].refcount)
    ensures TornBy(e, r, h, false)
  {
  }

  lemma TornNew(e: Env, t: Tracker, h: Id)
    requires !t.torn
    ensures TornBy(e, New(e, t), h, false)
  {
    hide Stored;
  }

  lemma TornLeaf(e: Env, s: Step, h: Id)
    requires Inv(e) && Enabled(e, s) && !s.Collect?
    ensures TornBy(e, Exec(e, s), h, false)
  {
    hide Stored, Created, Destroy, New, Put, Inv, TornBy, ReplaceInstance, DoRef, DoUnref;
    if s.Delete? {
      TornDestroy(e, s.id, GiveUp(e.heap[s.id]).(deleted := true), h);
    } else if s.RemoveWrap? {
      TornDestroy(e, s.id, GiveUp(e.heap[s.id]), h);
      TornPut(e, s.id, GiveUp(e.heap[s.id]).(callback := Null, wraps := false), h);
    } else if s.SetInstanceData? {
      TornReplace(e, s.cb, h);
    } else if s.Ref? || s.Unref? {
      TornCount(e, s, h);
    } else if s.PostFinalizer? {
      TornNew(e, NewTracked(s.cb), h);
      TornHeap(e, New(e, NewTracked(s.cb)), Exec(e, s), h);
    } else if s.GetValue? || s.GetInstanceData? {
      TornSame(e, Exec(e, s), h);
    } else if Created(e, s).Some? {
      CreatedLinked(e, s);
      TornNew(e, Created(e, s).value, h);
    } else {
      TornSame(e, e, h);
    }
  }

  lemma TornHeap(e: Env, r: Env, x: Env, h: Id)
    requires TornBy(e, r, h, false) && x.heap == r.heap
    ensures TornBy(e, x, h, false)
  {
  }

  lemma TornPut(e: Env, id: Id, t: Tracker, h: Id)
    requires id < |e.heap| && t.torn == e.heap[id].torn && t.refcount == e.heap[id].refcount
    ensures TornBy(e, Put(e, id, t), h, false)
  {
    hide Stored, TornBy;
    TornUpdate(e, Put(e, id, t), id, h);
  }

  /** Only a tracker with a handle is counted, and what teardown finalized has none. */
  lemma TornCount(e: Env, s: Step, h: Id)
    requires Inv(e) && (s.Ref? || s.Unref?) && Enabled(e, s)
    ensures TornBy(e, Exec(e, s), h, false)
  {
    hide Stored, TornBy;
    assert Good(e, s.id);
    TornUpdate(e, Exec(e, s), s.id, h);
  }

  lemma TornDestroy(e: Env, id: Id, t: Tracker, h: Id)
    requires id < |e.heap| && t.callback == e.heap[id].callback && t.torn == e.heap[id].torn
    requires t.refcount == e.heap[id].refcount
    ensures TornBy(e, Destroy(e, id, t), h, false)
  {
    hide Stored, TornBy;
    TornUpdate(e, Destroy(e, id, t), id, h);
  }

  lemma TornReplace(e: Env, cb: Callback, h: Id)
    requires Enabled(e, SetInstanceData(cb))
    ensures TornBy(e, ReplaceInstance(e, cb), h, false)
  {
    hide Stored, Destroy, New, TornBy;
    var d := e;
    TornSame(e, e, h);
    if e.instance.Some? {
      d := DropInstance(e, e.instance.value);
      TornDestroy(e, e.instance.value, GiveUp(e.heap[e.instance.value]), h);
      if e.heap[e.instance.value].finalizing { TornSame(e, d, h); }
    }
    TornNew(d, NewTracked(cb), h);
    TornChain(e, d, New(d, NewTracked(cb)), h);
    TornHeap(e, New(d, NewTracked(cb)), ReplaceInstance(e, cb), h);
  }

  lemma TornChain(e: Env, m: Env, r: Env, h: Id)
    requires TornBy(e, m, h, false) && TornBy(m, r, h, false)
    ensures TornBy(e, r, h, false)
  {
  }

  lemma {:induction false} TornCollect(e: Env, id: Id, h: Id)
    requires Inv(e) && e.teardown && id < |e.heap| && e.heap[id].hold == Weak
    ensures TornBy(e, WeakCallback(e, id), h, Collects(h)(e, Step.Collect(id)) || AnyCollect(e, id, Collects(h)))
    decreases Stored(e.heap), 2
  {
    hide Finalize, AnyFinalize, Stored, TornBy, TornFinalized;
    var c := Put(e, id, e.heap[id].(hold := Empty));
    TornPut(e, id, c.heap[id], h);
    assert Good(e, id);
    assert Good(c, id);
    PutInv(e, id, c.heap[id]);
    assert Finalizing(e.heap[id]) ==> WeakCallback(e, id) == InvokeFinalizerFromGC(c, id);
    if !Finalizing(e.heap[id]) {
      TornFinalize(c, id, h);
      TornCollected(e, c, Finalize(c, id), id, h, AnyFinalize(c, id, Collects(h)));
    } else if e.experimental {
      FlagInv(c, true);
      TornFinalize(c.(inGc := true), id, h);
      TornFromGc(e, c, id, h);
    } else {
      TornHeap(e, c, WeakCallback(e, id), h);
    }
  }

  lemma TornFromGc(e: Env, c: Env, id: Id, h: Id)
    requires id < |e.heap| && c == Put(e, id, e.heap[id].(hold := Empty)) && Finalizing(e.heap[id]) && e.experimental
    requires TornBy(e, c, h, false) && !Torn(c, id) && c.heap[id].refcount == 0 && c.heap[id].kind != TrackedFinalizer
    requires var g := c.(inGc := true);
      && TornFinalized(g, Finalize(g, id), id, h, AnyFinalize(g, id, Collects(h)))
      && Finalize(g, id).heap[id].kind == g.heap[id].kind && Finalize(g, id).experimental == g.experimental
    ensures TornBy(e, WeakCallback(e, id), h, Collects(h)(e, Step.Collect(id)) || AnyCollect(e, id, Collects(h)))
  {
    hide Finalize, AnyFinalize, Stored, TornBy, TornFinalized;
    var g := c.(inGc := true);
    assert WeakCallback(e, id) == InvokeFinalizerFromGC(c, id);
    assert InvokeFinalizerFromGC(c, id) == Finalize(g, id).(inGc := c.inGc);
    TornHeap(e, c, g, h);
    TornCollected(e, g, Finalize(g, id), id, h, AnyFinalize(g, id, Collects(h)));
    TornFlag(e, Finalize(g, id), WeakCallback(e, id), h, h == id || AnyFinalize(g, id, Collects(h)));
  }

  lemma TornFlag(e: Env, r: Env, x: Env, h: Id, collected: bool)
    requires TornBy(e, r, h, collected) && x.heap == r.heap && x.experimental == r.experimental
    ensures TornBy(e, x, h, collected)
  {
  }

  /** What the weak callback finalizes was uncounted. */
  lemma TornCollected(e: Env, c: Env, r: Env, id: Id, h: Id, any: bool)
    requires TornBy(e, c, h, false) && TornFinalized(c, r, id, h, any) && id < |c.heap| && id < |r.heap|
    requires r.heap[id].kind == c.heap[id].kind && r.experimental == c.experimental && !Torn(c, id)
    requires c.heap[id].refcount == 0 && c.heap[id].kind != TrackedFinalizer && (c.experimental || !Finalizing(c.heap[id]))
    ensures TornBy(e, r, h, h == id || any)
  {
  }

  /** From e to r, with Finalize of id. */
  ghost predicate TornFinalized(e: Env, r: Env, id: Id, h: Id, collected: bool) {
    && (Torn(r, h) <==> Torn(e, h) || h == id || collected)
    && (h < |e.heap| && (Torn(e, h) || h == id) ==> h < |r.heap| && r.heap[h].refcount == e.heap[h].refcount)
    && (collected ==> Collectable(r, h) && !Torn(e, h) && h != id)
  }

  lemma {:induction false} TornFinalize(e: Env, id: Id, h: Id)
    requires Inv(e) && e.teardown && id < |e.heap| && e.heap[id].home != Nowhere
    ensures TornFinalized(e, Finalize(e, id), id, h, AnyFinalize(e, id, Collects(h)))
    ensures Finalize(e, id).heap[id].kind == e.heap[id].kind && Finalize(e, id).experimental == e.experimental
    decreases Stored(e.heap), 0
  {
    hide Stored, Good, EndFinalize;
    var u := Detach(e, id);
    DetachInv(e, id);
    FinalizeInv(e, id);
    assert Follows(e, Finalize(e, id), id);
    var c := u;
    if e.heap[id].callback.Calls? {
      TornScript(u, e.heap[id].callback.script, h);
      RunScriptInv(u, e.heap[id].callback.script);
      c := RunScript(u, e.heap[id].callback.script);
    }
    TornEnd(c, id, DeletesItself(e, id), h);
  }

  lemma TornEnd(c: Env, id: Id, deleteMe: bool, h: Id)
    requires id < |c.heap|
    ensures var r := EndFinalize(c, id, deleteMe);
      && |r.heap| == |c.heap| && r.experimental == c.experimental
      && (h < |c.heap| ==> r.heap[h].torn == c.heap[h].torn && r.heap[h].refcount == c.heap[h].refcount
                           && r.heap[h].kind == c.heap[h].kind)
  {
    hide Stored;
  }

  lemma {:induction false} TornScript(e: Env, p: Script, h: Id)
    requires Inv(e) && e.teardown
    ensures TornBy(e, RunScript(e, p), h, AnyScript(e, p, Collects(h)))
    decreases Stored(e.heap) + Size(p), 1
  {
    hide Inv, Exec, AnyExec, TornBy, Collects, Later;
    if p == [] {
      TornSame(e, e, h);
    } else {
      var m := Exec(e, p[0]);
      TornExec(e, p[0], h);
      ExecInv(e, p[0]);
      SameTeardown(e, m);
      TornScript(m, p[1..], h);
      RunScriptInv(m, p[1..]);
      TornTrans(e, m, RunScript(m, p[1..]), h, AnyExec(e, p[0], Collects(h)), AnyScript(m, p[1..], Collects(h)));
    }
  }

  lemma SameTeardown(e: Env, r: Env)
    requires Later(e, r)
    ensures r.teardown == e.teardown
  {
  }

  // ---- the turns of FinalizeAll(&finalizing_reflist) -----------------------------------------------

  /** DeleteMe after n finalizers were started. */
  function Turns(e: Env, n: nat): (r: Env)
    requires Inv(e) && Idle(e) && e.teardown
    ensures Inv(r) && Idle(r) && r.teardown && |e.heap| <= |r.heap|
  {
    if n == 0 then e
    else
      var m := Turns(e, n - 1);
      if m.finlist == [] then m else
        HeadInv(m, InFinlist);
        Finalize(m, m.finlist[0])
  }

  /** The turns are those of FinalizeAll. */
  lemma {:induction false} TurnsAreFinalizeAll(e: Env, n: nat)
    requires Inv(e) && Idle(e) && e.teardown
    ensures FinalizeAll(e, InFinlist) == FinalizeAll(Turns(e, n), InFinlist)
  {
    hide FinalizeAll, Inv, Idle, Finalize;
    if n > 0 {
      TurnsAreFinalizeAll(e, n - 1);
      var m := Turns(e, n - 1);
      if m.finlist != [] { FinalizeAllTurn(m, InFinlist); }
    }
  }

  /** The trackers whose finalizers DeleteMe started in its first n turns, in order. */
  function Started(e: Env, n: nat): seq<Id>
    requires Inv(e) && Idle(e) && e.teardown
  {
    if n == 0 then []
    else if Turns(e, n - 1).finlist == [] then Started(e, n - 1)
    else Started(e, n - 1) + [Turns(e, n - 1).finlist[0]]
  }

  /** Some call made in the first n turns passes the test. */
  ghost predicate AnyTurns(e: Env, n: nat, test: Test)
    requires Inv(e) && Idle(e) && e.teardown
  {
    n > 0
    && var m := Turns(e, n - 1);
      AnyTurns(e, n - 1, test)
      || (m.finlist != [] && m.finlist[0] < |m.heap| && AnyFinalize(m, m.finlist[0], test))
  }

  lemma BelowHead(s: seq<nat>, j: nat)
    requires Descending(s) && j in s
    ensures j <= s[0]
  {
  }

  /** What the turns have done with a list that is newest first: what was started had a finalizer and, if it was there
      before, was linked then; and it is newer than whatever was there before and is still to come. */
  ghost predicate InOrder(e: Env, m: Env, started: seq<Id>) {
    && Quiet(e, m)
    && (forall s {:trigger s in started} :: s in started ==>
          s < |m.heap| && Finalizing(m.heap[s]) && (s < |e.heap| ==> e.heap[s].home == InFinlist)
          && forall j: Id {:trigger j in m.finlist} :: j in m.finlist && j < |e.heap| ==> j < s)
  }

  lemma TurnInOrder(e: Env, m: Env, started: seq<Id>)
    requires Inv(m) && Idle(m) && m.teardown && InOrder(e, m, started) && m.finlist != []
    ensures m.finlist[0] < |m.heap| && InOrder(e, Finalize(m, m.finlist[0]), started + [m.finlist[0]])
  {
    hide Stored, Good, Finalize, Idle, Quiet;
    var k := m.finlist[0];
    HeadLinked(m, InFinlist);
    FinalizeInv(m, k);
    QuietFinalize(m, k);
    var r := Finalize(m, k);
    QuietTrans(e, m, r);
    HeadHome(e, m, k);
    var all := started + [k];
    forall s | s in all
      ensures s < |r.heap| && Finalizing(r.heap[s]) && (s < |e.heap| ==> e.heap[s].home == InFinlist)
      ensures forall j: Id | j in r.finlist && j < |e.heap| :: j < s
    {
      assert s == k || s in started;
      assert Follows(m, r, s);
      forall j: Id | j in r.finlist && j < |e.heap| ensures j < s {
        StillListed(e, m, r, k, j);
      }
    }
  }

  lemma HeadHome(e: Env, m: Env, k: Id)
    requires Inv(m) && Quiet(e, m) && k < |m.heap| && m.heap[k].home == InFinlist
    ensures Finalizing(m.heap[k]) && (k < |e.heap| ==> e.heap[k].home == InFinlist)
  {
    assert Good(m, k) && Undisturbed(e, m, k);
  }

  lemma StillListed(e: Env, m: Env, r: Env, k: Id, j: Id)
    requires Inv(m) && Inv(r) && Quiet(e, m) && Quiet(m, r) && m.finlist != [] && k == m.finlist[0]
    requires k < |r.heap| && r.heap[k].home == Nowhere && j in r.finlist && j < |e.heap|
    ensures j in m.finlist && j < k
  {
    assert r.heap[j].home == InFinlist && Undisturbed(m, r, j);
    BelowHead(m.finlist, j);
  }

  lemma {:induction false} TurnsInOrder(e: Env, n: nat)
    requires Inv(e) && Idle(e) && e.teardown
    ensures InOrder(e, Turns(e, n), Started(e, n))
  {
    hide Good, Finalize, Inv, Idle, Quiet;
    if n == 0 {
      QuietSame(e, e);
    } else {
      TurnsInOrder(e, n - 1);
      var m := Turns(e, n - 1);
      if m.finlist != [] { TurnInOrder(e, m, Started(e, n - 1)); }
    }
  }

  /** After n turns teardown has finalized exactly what those turns started and what was collected meanwhile. */
  lemma {:induction false} TurnsTorn(e: Env, n: nat, h: Id)
    requires Inv(e) && Idle(e) && !e.teardown
    ensures var m, any := Turns(Dying(e), n), AnyTurns(Dying(e), n, Collects(h));
      (Torn(m, h) <==> h in Started(Dying(e), n) || any) && (any ==> Collectable(m, h))
  {
    hide Good, Finalize, Inv, Idle, Collects, AnyFinalize;
    if n == 0 {
      if h < |e.heap| { NotTorn(e, h); }
    } else {
      TurnsTorn(e, n - 1, h);
      var m := Turns(Dying(e), n - 1);
      if m.finlist != [] {
        HeadLinked(m, InFinlist);
        FinalizeInv(m, m.finlist[0]);
        TornFinalize(m, m.finlist[0], h);
        if AnyTurns(Dying(e), n - 1, Collects(h)) {
          StaysCollectable(m, Finalize(m, m.finlist[0]), m.finlist[0], h, AnyFinalize(m, m.finlist[0], Collects(h)));
        }
      }
    }
  }

  lemma StaysCollectable(m: Env, r: Env, k: Id, h: Id, any: bool)
    requires TornFinalized(m, r, k, h, any) && Later(m, r) && Collectable(m, h) && Torn(m, h)
    ensures Collectable(r, h)
  {
    assert Follows(m, r, h);
  }

  lemma NotTorn(e: Env, h: Id)
    requires Inv(e) && !e.teardown && h < |e.heap|
    ensures !e.heap[h].torn
  {
    assert Good(e, h);
  }

  // ---- what a finalizer of DeleteMe may touch -----------------------------------------------------

  /** DeleteMe is about to start the finalizer of the newest tracker. */
  predicate Starts(m: Env) { m.finlist != [] && m.finlist[0] < |m.heap| }

  /** The state at a point inside the finalizer that starts in m, when p has been done. */
  function Inside(m: Env, p: Script): Env
    requires Starts(m)
  {
    RunScript(Detach(m, m.finlist[0]), p)
  }

  /** Since DeleteMe began, up to that point of the finalizer after n turns, a collection finalized h at once. */
  ghost predicate Collected(e: Env, n: nat, p: Script, h: Id)
    requires Inv(e) && Idle(e) && !e.teardown
  {
    var m := Turns(Dying(e), n);
    AnyTurns(Dying(e), n, Collects(h)) || (Starts(m) && AnyScript(Detach(m, m.finlist[0]), p, Collects(h)))
  }

  /** Up to that point teardown has finalized what it started and what was collected. */
  lemma InsideTorn(e: Env, n: nat, p: Script, h: Id)
    requires Inv(e) && Idle(e) && !e.teardown
    ensures var m := Turns(Dying(e), n);
      m.finlist != [] ==>
        && Starts(m) && m.heap[m.finlist[0]].home == InFinlist
        && var c := Inside(m, p);
        && Inv(c) && c.teardown && Later(Detach(m, m.finlist[0]), c) && Quiet(Detach(m, m.finlist[0]), c)
        && (Torn(c, h) <==> h == m.finlist[0] || h in Started(Dying(e), n) || Collected(e, n, p, h))
        && (Collected(e, n, p, h) && h != m.finlist[0] ==> Collectable(c, h))
  {
    hide Stored, Good, Turns, RunScript, Started, Collects, AnyScript, AnyTurns, Idle;
    var m := Turns(Dying(e), n);
    if m.finlist != [] {
      var k := m.finlist[0];
      TurnsTorn(e, n, h);
      HeadLinked(m, InFinlist);
      DetachInv(m, k);
      var u := Detach(m, k);
      RunScriptInv(u, p);
      QuietScript(u, p);
      TornScript(u, p, h);
      if h < |u.heap| { assert Follows(u, RunScript(u, p), h); }
    }
  }

  /** Anywhere inside a finalizer that DeleteMe starts, a handle that the user did not delete is allocated exactly if
      DeleteMe has not come to it in an earlier turn and no collection has finalized it. A collection does so only if
      the count is zero, and outside experimental modules only if the handle has no finalizer of its own. */
  lemma HandleInTeardown(e: Env, n: nat, p: Script, h: Id)
    requires Inv(e) && Idle(e) && !e.teardown
    ensures
      var m := Turns(Dying(e), n);
      m.finlist != [] ==>
        && Starts(m)
        && var c := Inside(m, p);
        h < |c.heap| && c.heap[h].ownership == Userland && !c.heap[h].deleted ==>
          && (c.heap[h].alive <==> h !in Started(Dying(e), n) && !Collected(e, n, p, h))
          && (Collected(e, n, p, h) ==>
                c.heap[h].refcount == 0 && (c.experimental || c.heap[h].kind != ReferenceWithFinalizer))
  {
    hide Stored, Good, Turns, Inside, Started, Collected, Idle, Quiet;
    var m := Turns(Dying(e), n);
    if m.finlist != [] {
      InsideTorn(e, n, p, h);
      if h == m.finlist[0] { HeadIsNew(e, n, p); }
      if h < |Inside(m, p).heap| { AliveUntorn(m, Inside(m, p), h); }
    }
  }

  /** The tracker whose finalizer runs was neither started before nor collected. */
  lemma HeadIsNew(e: Env, n: nat, p: Script)
    requires Inv(e) && Idle(e) && !e.teardown
    ensures var m := Turns(Dying(e), n);
      m.finlist != [] ==>
        Starts(m) && m.finlist[0] !in Started(Dying(e), n) && !Collected(e, n, p, m.finlist[0])
  {
    hide Stored, Good, Turns, RunScript, Started, Collects, AnyScript, AnyTurns, Idle;
    var m := Turns(Dying(e), n);
    if m.finlist != [] {
      var k := m.finlist[0];
      TurnsTorn(e, n, k);
      HeadLinked(m, InFinlist);
      DetachInv(m, k);
      TornScript(Detach(m, k), p, k);
      LinkedUntorn(m, k);
    }
  }

  lemma LinkedUntorn(m: Env, k: Id)
    requires Inv(m) && k < |m.heap| && m.heap[k].home != Nowhere
    ensures !Torn(m, k) && (m.teardown ==> Torn(Detach(m, k), k))
  {
    hide Stored;
    assert Good(m, k);
  }

  /** In teardown a handle that was not deleted is freed exactly if teardown finalized it, but for the one whose
      finalizer runs. */
  lemma AliveUntorn(m: Env, c: Env, h: Id)
    requires Inv(m) && Idle(m) && m.teardown && m.finlist != [] && m.finlist[0] < |m.heap|
    requires m.heap[m.finlist[0]].home == InFinlist
    requires Inv(c) && Later(Detach(m, m.finlist[0]), c) && h < |c.heap|
    ensures c.heap[h].ownership == Userland && !c.heap[h].deleted ==>
              (c.heap[h].alive <==> !c.heap[h].torn || h == m.finlist[0])
  {
    hide Stored;
    var k := m.finlist[0];
    var u := Detach(m, k);
    assert u.heap == m.heap[k := u.heap[k]];
    assert Good(c, h) && Good(m, k) && Follows(u, c, h);
  }

  // ---- the order of creation -----------------------------------------------------------------------

  /** In terms of age, when the finalizer was registered before DeleteMe: a handle that exists when the finalizer
      starts and was not collected is freed exactly if it has a finalizer of its own, is newer, and had not been
      finalized before DeleteMe. Deleting or reading it then touches a freed tracker. */
  lemma NewerHandlesAreGone(e: Env, n: nat, p: Script, h: Id)
    requires Inv(e) && Idle(e) && !e.teardown
    ensures
      var m := Turns(Dying(e), n);
      m.finlist != [] && m.finlist[0] < |e.heap| && h < |m.heap| && !Collected(e, n, p, h) ==>
        && Starts(m)
        && var c, k := Inside(m, p), m.finlist[0];
        && |m.heap| <= |c.heap|
        && (c.heap[h].ownership == Userland && !c.heap[h].deleted ==>
              var gone := c.heap[h].kind == ReferenceWithFinalizer && k < h && (h < |e.heap| ==> e.heap[h].home != Nowhere);
              && (c.heap[h].alive <==> !gone)
              && (Faulty(c, Delete(h)) <==> Enabled(c, Delete(h)) && gone)
              && (Faulty(c, GetValue(h)) <==> Enabled(c, GetValue(h)) && gone))
  {
    hide Stored, Good, Turns, Inside, Started, Collected, Idle, Quiet;
    var m := Turns(Dying(e), n);
    if m.finlist != [] && m.finlist[0] < |e.heap| && h < |m.heap| {
      InsideTorn(e, n, p, h);
      HandleInTeardown(e, n, p, h);
      TurnsInOrder(Dying(e), n);
      var c := Inside(m, p);
      if c.heap[h].ownership == Userland && !c.heap[h].deleted { StartedByAge(e, m, c, h, Started(Dying(e), n)); }
    }
  }

  lemma StartedByAge(e: Env, m: Env, c: Env, h: Id, started: seq<Id>)
    requires Inv(e) && Idle(e) && Inv(m) && Idle(m) && m.teardown && InOrder(Dying(e), m, started) && m.finlist != []
    requires m.finlist[0] < |m.heap| && m.finlist[0] < |e.heap|
    requires Inv(c) && Later(Detach(m, m.finlist[0]), c) && h < |m.heap| <= |c.heap| && c.heap[h].ownership == Userland
    requires !c.heap[h].deleted
    ensures h in started ==> c.heap[h].kind == ReferenceWithFinalizer && m.finlist[0] < h && (h < |e.heap| ==> e.heap[h].home != Nowhere)
    ensures c.heap[h].alive && c.heap[h].kind == ReferenceWithFinalizer && m.finlist[0] < h ==>
              h < |e.heap| && e.heap[h].home == Nowhere
  {
    hide Stored;
    var k := m.finlist[0];
    assert k in m.finlist;
    assert Follows(Detach(m, k), c, h);
    assert Good(m, h) && Good(c, h) && Undisturbed(Dying(e), m, h);
    if h in m.finlist { BelowHead(m.finlist, h); }
  }

  /** The instance data. Replacing it, anywhere inside a finalizer that DeleteMe starts, faults exactly if DeleteMe has
      come to its tracker, and reading it exactly if it has done so in an earlier turn. When the finalizer was registered
      before DeleteMe: exactly if the tracker is not older, or newer, and was not made by this finalizer. */
  lemma InstanceInTeardown(e: Env, n: nat, p: Script, cb: Callback)
    requires Inv(e) && Idle(e) && !e.teardown
    ensures
      var m := Turns(Dying(e), n);
      m.finlist != [] ==>
        && Starts(m)
        && var c, k := Inside(m, p), m.finlist[0];
        c.instance.Some? ==>
          var i := c.instance.value;
          && (Faulty(c, SetInstanceData(cb)) <==> i == k || i in Started(Dying(e), n))
          && (Faulty(c, GetInstanceData) <==> i in Started(Dying(e), n))
          && (k < |e.heap| ==>
                && (Faulty(c, SetInstanceData(cb)) <==> k <= i < |m.heap|)
                && (Faulty(c, GetInstanceData) <==> k < i < |m.heap|))
  {
    hide Stored, Good, Turns, Inside, Started, Collected, Idle, Quiet, Faulty, Detach;
    var m := Turns(Dying(e), n);
    if m.finlist != [] {
      HeadIsNew(e, n, p);
      InsideTorn(e, n, p, 0);
      var c := Inside(m, p);
      if c.instance.Some? {
        InsideTorn(e, n, p, c.instance.value);
        TurnsInOrder(Dying(e), n);
        InstanceFaults(c, cb);
        InstanceTorn(m, c);
        InstanceByAge(e, m, c, Started(Dying(e), n));
      }
    }
  }

  lemma InstanceTorn(m: Env, c: Env)
    requires Inv(m) && Idle(m) && m.teardown && m.finlist != [] && m.finlist[0] < |m.heap|
    requires Inv(c) && Later(Detach(m, m.finlist[0]), c) && c.instance.Some?
    ensures var i := c.instance.value;
      && i < |c.heap| && (c.heap[i].home == Nowhere <==> Torn(c, i)) && (c.heap[i].finalizing <==> i == m.finlist[0])
      && !Collectable(c, i)
  {
    hide Stored;
    assert Good(c, c.instance.value) && Follows(Detach(m, m.finlist[0]), c, c.instance.value);
  }

  lemma InstanceByAge(e: Env, m: Env, c: Env, started: seq<Id>)
    requires Inv(e) && Idle(e) && Inv(m) && Idle(m) && m.teardown && InOrder(Dying(e), m, started) && m.finlist != []
    requires m.finlist[0] < |m.heap|
    requires Inv(c) && Quiet(Detach(m, m.finlist[0]), c) && c.instance.Some? && c.instance.value < |c.heap|
    ensures var i, k := c.instance.value, m.finlist[0];
      && (k < |e.heap| && i in started ==> k < i < |m.heap|)
      && (k < i < |m.heap| ==> c.heap[i].home == Nowhere)
  {
    hide Stored;
    var i, k := c.instance.value, m.finlist[0];
    assert k in m.finlist;
    assert Undisturbed(Detach(m, k), c, i);
    if i < |m.heap| && c.heap[i].home != Nowhere {
      assert Good(c, i);
      BelowHead(m.finlist, i);
    }
  }
}
