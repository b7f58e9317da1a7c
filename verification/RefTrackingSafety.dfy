/** What every call, collection, tick and teardown keeps, and what a whole run guarantees. */
module RefTrackingSafety {
  import opened Common
  import opened RefTracking

  // ---- the invariant ---------------------------------------------------------------------------

  /** A reference the runtime is done with and that waits for the user to delete it. */
  predicate Retired(t: Tracker) {
    t.ownership == Userland && t.hold == Empty && t.callback == Null && t.refcount == 0
  }

  predicate Good(e: Env, i: Id)
    requires i < |e.heap|
  {
    var t := e.heap[i];
    // Lists, pending set and call stack hold live trackers only, and no live tracker is lost.
    && (t.home != Nowhere ==> t.alive && t.home == HomeOf(t))
    && (t.finalizing ==> t.alive && t.home == Nowhere && t.callback == Null && t.hold == Empty)
    && (i in e.pending ==> t.alive && Finalizing(t) && t.hold == Empty && (t.home == InFinlist || t.finalizing))
    && (t.alive ==> t.home != Nowhere || t.finalizing || Retired(t))
    // A registered callback is still stored, has run once, or was given up: exactly one of the three.
    && (t.callback.Calls? ==> t.home == InFinlist)
    && (if t.registered then t.runs + (if t.dropped then 1 else 0) + (if t.callback.Calls? then 1 else 0) == 1
        else t.runs == 0 && !t.dropped && t.callback == Null)
    // A positive count holds its target; only an uncounted, linked reference is weak.
    && (t.hold == Weak ==> t.weakable && t.refcount == 0 && t.home != Nowhere)
    && (t.refcount > 0 && t.alive && !t.finalizing ==> t.hold == Strong)
    && (t.kind == TrackedFinalizer ==> t.ownership == Runtime && t.hold == Empty)
    && (t.kind == ReferenceWithFinalizer ==> t.weakable)
    // Besides the user, only teardown frees what the user owns: every one of them it finalizes.
    && (t.torn ==> e.teardown && (t.alive ==> t.finalizing)) && (t.finalizing && e.teardown ==> t.torn)
    && (t.ownership == Userland && !t.alive ==> t.deleted || t.torn)
    && (t.deleted ==> !t.alive) && (!t.alive ==> t.hold == Empty)
  }

  /** The list l holds the trackers of that home, each once, newest first. */
  ghost predicate ListOf(l: seq<Id>, heap: seq<Tracker>, home: Home) {
    Descending(l) && NoDup(l) && forall i: Id {:trigger i in l} :: i in l <==> i < |heap| && heap[i].home == home
  }

  ghost predicate Lists(e: Env) {
    ListOf(e.reflist, e.heap, InReflist) && ListOf(e.finlist, e.heap, InFinlist)
    && forall i: Id :: i in e.pending ==> i < |e.heap|
  }

  /** The tracker of the instance data is linked until teardown finalizes it. */
  predicate InstanceGood(e: Env) {
    e.instance.Some? ==>
      && e.instance.value < |e.heap| && e.instance.value !in e.pending
      && e.heap[e.instance.value].kind == TrackedFinalizer
      && (e.heap[e.instance.value].home == InFinlist || e.heap[e.instance.value].torn)
  }

  /** No freed tracker is touched before teardown. */
  ghost predicate Inv(e: Env) {
    && Lists(e) && (e.fault ==> e.teardown) && InstanceGood(e)
    && forall i: Id {:trigger Good(e, i)} :: i < |e.heap| ==> Good(e, i)
  }

  /** How a later state of the same call frame relates to an earlier one. */
  ghost predicate Later(e: Env, r: Env) {
    && SameFlags(e, r) && |e.heap| <= |r.heap|
    && forall i: Id {:trigger Follows(e, r, i)} :: i < |r.heap| ==> Follows(e, r, i)
  }

  predicate Follows(e: Env, r: Env, i: Id)
    requires i < |r.heap|
  {
    if i < |e.heap| then
      var t, u := e.heap[i], r.heap[i];
      && u.kind == t.kind && u.ownership == t.ownership && u.registered == t.registered
      && (u.alive ==> t.alive) && u.runs >= t.runs && (t.dropped ==> u.dropped)
      && u.finalizing == t.finalizing
      && (t.finalizing ==> u == t && (i in r.pending <==> i in e.pending))
    else !r.heap[i].finalizing
  }

  lemma LaterTrans(e: Env, m: Env, r: Env)
    requires Later(e, m) && Later(m, r)
    ensures Later(e, r)
  {
    forall i: Id | i < |r.heap| ensures Follows(e, r, i) {
      assert Follows(m, r, i);
      if i < |m.heap| { assert Follows(e, m, i); }
    }
  }

  lemma InitInv(experimental: bool)
    ensures Inv(Init(experimental))
  {}

  // ---- primitives keep it ----------------------------------------------------------------------

  lemma ListPush(l: seq<Id>, heap: seq<Tracker>, t: Tracker, home: Home)
    requires ListOf(l, heap, home)
    ensures ListOf(if t.home == home then [|heap|] + l else l, heap + [t], home)
  {
    hide Descending, NoDup;
    forall i | 0 <= i < |l| ensures l[i] < |heap| {
      assert l[i] in l;
    }
    PrependDescending(l, |heap|);
  }

  lemma SameGood(e: Env, r: Env, i: Id)
    requires i < |e.heap| && i < |r.heap| && Good(e, i) && r.heap[i] == e.heap[i]
    requires r.teardown == e.teardown && (i in r.pending <==> i in e.pending)
    ensures Good(r, i) && Follows(e, r, i)
  {}

  lemma NewLists(e: Env, t: Tracker)
    requires Lists(e) && t.home == HomeOf(t)
    ensures Lists(New(e, t))
  {
    ListPush(e.reflist, e.heap, t, InReflist);
    ListPush(e.finlist, e.heap, t, InFinlist);
  }

  lemma NewInv(e: Env, t: Tracker)
    requires Inv(e) && t.home == HomeOf(t) && !t.finalizing
    requires Good(New(e, t), |e.heap|)
    ensures Inv(New(e, t)) && Later(e, New(e, t))
  {
    hide Good, Stored, CallbackSize, ListOf;
    var r := New(e, t);
    forall i: Id | i < |r.heap| ensures Good(r, i) && Follows(e, r, i) {
      if i < |e.heap| { SameGood(e, r, i); }
    }
    assert Lists(r) by { NewLists(e, t); }
  }

  lemma ListRemove(l: seq<Id>, heap: seq<Tracker>, id: Id, t: Tracker, home: Home)
    requires ListOf(l, heap, home) && id < |heap| && home != Nowhere && t.home == Nowhere
    ensures ListOf(Remove(l, id), heap[id := t], home)
  {
    RemoveDescending(l, id);
  }

  /** One tracker changes without moving between lists. */
  lemma PutInv(e: Env, id: Id, t: Tracker)
    requires Inv(e) && id < |e.heap| && t.home == e.heap[id].home && t.kind == e.heap[id].kind
    requires e.heap[id].torn ==> t.torn
    requires Good(Put(e, id, t), id)
    ensures Inv(Put(e, id, t))
    ensures Follows(e, Put(e, id, t), id) ==> Later(e, Put(e, id, t))
  {
    var r := Put(e, id, t);
    forall i: Id | i < |r.heap| ensures Good(r, i) && (i != id ==> Follows(e, r, i)) {
      assert Good(e, i);
    }
  }

  /** One tracker changes and leaves its list. */
  lemma LeaveInv(e: Env, id: Id, r: Env)
    requires Inv(e) && id < |e.heap| && |r.heap| == |e.heap|
    requires r == Unlink(e, id).(heap := e.heap[id := r.heap[id]], pending := r.pending, fault := r.fault)
    requires e.pending - {id} <= r.pending <= e.pending
    requires r.heap[id].home == Nowhere && r.heap[id].kind == e.heap[id].kind && Good(r, id)
    requires e.instance == Some(id) ==> r.heap[id].torn
    requires r.fault ==> r.teardown
    ensures Inv(r)
    ensures Follows(e, r, id) ==> Later(e, r)
  {
    ListRemove(e.reflist, e.heap, id, r.heap[id], InReflist);
    ListRemove(e.finlist, e.heap, id, r.heap[id], InFinlist);
    forall i: Id | i < |r.heap| ensures Good(r, i) && (i != id ==> Follows(e, r, i)) {
      if i != id { assert Good(e, i); }
    }
  }

  lemma DestroyInv(e: Env, id: Id, t: Tracker)
    requires Inv(e) && id < |e.heap| && !e.heap[id].finalizing && e.instance != Some(id)
    requires e.heap[id].alive || e.heap[id].torn
    requires t == GiveUp(e.heap[id]).(deleted := t.deleted)
    requires t.ownership == Userland ==> t.deleted
    ensures Inv(Destroy(e, id, t)) && Later(e, Destroy(e, id, t))
  {
    hide Good, Stored, Destroy;
    assert Good(e, id);
    DestroyedGood(e, id, t);
    LeaveInv(e, id, Destroy(e, id, t));
  }

  lemma DestroyedGood(e: Env, id: Id, t: Tracker)
    requires id < |e.heap| && Good(e, id) && !e.heap[id].finalizing && (e.heap[id].alive || e.heap[id].torn)
    requires t == GiveUp(e.heap[id]).(deleted := t.deleted) && (t.ownership == Userland ==> t.deleted)
    ensures
      var r := Destroy(e, id, t);
      && |r.heap| == |e.heap| && Good(r, id) && Follows(e, r, id)
      && r.heap[id].home == Nowhere && r.heap[id].kind == e.heap[id].kind
      && r == Unlink(e, id).(heap := e.heap[id := r.heap[id]], pending := e.pending - {id}, fault := r.fault)
      && r.fault == (e.fault || !e.heap[id].alive) && (e.heap[id].torn ==> r.heap[id].torn && e.teardown)
  {
    hide Stored, Remove, Destroy, Good;
    DestroyedTo(e, id, t);
    DeadGood(e, id, t, Destroy(e, id, t));
  }

  lemma DestroyedTo(e: Env, id: Id, t: Tracker)
    requires id < |e.heap| && t.callback == e.heap[id].callback
    ensures
      var r := Destroy(e, id, t);
      && r.heap[id] == t.(home := Nowhere, hold := Empty, callback := Null, alive := false)
      && r.fault == (e.fault || !t.alive)
      && r == Unlink(e, id).(heap := e.heap[id := r.heap[id]], pending := e.pending - {id}, fault := r.fault)
  {
    hide Stored, Remove;
  }

  lemma DeadGood(e: Env, id: Id, t: Tracker, r: Env)
    requires id < |e.heap| == |r.heap| && Good(e, id) && !e.heap[id].finalizing && (e.heap[id].alive || e.heap[id].torn)
    requires t == GiveUp(e.heap[id]).(deleted := t.deleted) && (t.ownership == Userland ==> t.deleted)
    requires r.heap[id] == t.(home := Nowhere, hold := Empty, callback := Null, alive := false)
    requires r == Unlink(e, id).(heap := r.heap, pending := e.pending - {id}, fault := r.fault)
    ensures Good(r, id) && Follows(e, r, id) && (e.heap[id].torn ==> r.heap[id].torn && e.teardown)
  {
    hide Stored;
  }

  // ---- calls and callbacks keep it -------------------------------------------------------------

  lemma DetachInv(e: Env, id: Id)
    requires Inv(e) && id < |e.heap| && e.heap[id].home != Nowhere && (e.instance == Some(id) ==> e.teardown)
    ensures Inv(Detach(e, id)) && Detach(e, id).heap == e.heap[id := Detach(e, id).heap[id]]
  {
    var u := Detach(e, id);
    assert Good(e, id);
    assert u.heap == e.heap[id := u.heap[id]];
    LeaveInv(e, id, u);
  }

  lemma EndFinalizeInv(c: Env, id: Id, deleteMe: bool)
    requires Inv(c) && id < |c.heap| && c.heap[id].finalizing
    requires deleteMe <==> c.heap[id].kind == TrackedFinalizer || c.heap[id].ownership == Runtime || c.teardown
    requires deleteMe || (id !in c.pending && c.heap[id].refcount == 0)
    ensures Inv(EndFinalize(c, id, deleteMe))
  {
    var r := EndFinalize(c, id, deleteMe);
    assert Good(c, id);
    if deleteMe {
      FreedGood(c, id);
      LeaveInv(c, id, r);
    } else {
      PutInv(c, id, r.heap[id]);
    }
  }

  lemma FreedGood(c: Env, id: Id)
    requires id < |c.heap| && Good(c, id) && c.heap[id].finalizing
    requires c.heap[id].ownership == Runtime || c.teardown
    ensures
      var r := EndFinalize(c, id, true);
      && Good(r, id) && r.heap[id].home == Nowhere && r.heap[id].kind == c.heap[id].kind
      && r == Unlink(c, id).(heap := c.heap[id := r.heap[id]], pending := c.pending - {id})
  {}

  lemma {:induction false} FinalizeInv(e: Env, id: Id)
    requires Inv(e) && id < |e.heap| && e.heap[id].home != Nowhere
    requires e.teardown || (id !in e.pending && e.heap[id].hold != Strong && e.instance != Some(id))
    ensures Inv(Finalize(e, id)) && Later(e, Finalize(e, id))
    ensures Finalize(e, id).heap[id].home == Nowhere
    decreases Stored(e.heap), 0
  {
    var u := Detach(e, id);
    DetachInv(e, id);
    assert Good(e, id);
    var c := u;
    if e.heap[id].callback.Calls? {
      RunScriptInv(u, e.heap[id].callback.script);
      c := RunScript(u, e.heap[id].callback.script);
    }
    FinalizeRest(e, u, c, id);
  }

  lemma FinalizeRest(e: Env, u: Env, c: Env, id: Id)
    requires Inv(e) && id < |e.heap| && e.heap[id].home != Nowhere
    requires e.teardown || (id !in e.pending && e.heap[id].hold != Strong && e.instance != Some(id))
    requires u == Detach(e, id) && Inv(c) && |c.heap| >= |u.heap|
    requires u == c || Later(u, c)
    ensures Inv(EndFinalize(c, id, DeletesItself(e, id)))
    ensures Later(e, EndFinalize(c, id, DeletesItself(e, id)))
    ensures EndFinalize(c, id, DeletesItself(e, id)).heap[id].home == Nowhere
  {
    assert Good(e, id);
    assert u == c || Follows(u, c, id);
    EndFinalizeInv(c, id, DeletesItself(e, id));
    RestFollows(e, c, id);
    FinalizeLater(e, u, c, EndFinalize(c, id, DeletesItself(e, id)), id);
  }

  lemma RestFollows(e: Env, c: Env, id: Id)
    requires id < |e.heap| && id < |c.heap| && Good(e, id) && e.heap[id].home != Nowhere
    requires c.heap[id] == Detach(e, id).heap[id]
    ensures Follows(e, EndFinalize(c, id, DeletesItself(e, id)), id)
    ensures EndFinalize(c, id, DeletesItself(e, id)).heap[id].home == Nowhere
  {}

  /** r follows e when only id was taken out (u), then anything happened (c), then id was put to rest. */
  lemma FinalizeLater(e: Env, u: Env, c: Env, r: Env, id: Id)
    requires id < |e.heap| && !e.heap[id].finalizing && Inv(e)
    requires |u.heap| == |e.heap| && u.heap == e.heap[id := u.heap[id]] && u.pending == e.pending
    requires u == c || Later(u, c)
    requires |c.heap| == |r.heap| && id < |c.heap| && r.heap == c.heap[id := r.heap[id]]
    requires c.pending - {id} <= r.pending <= c.pending
    requires Follows(e, r, id)
    requires SameFlags(e, u) && SameFlags(u, c) && SameFlags(c, r)
    ensures Later(e, r)
  {
    forall i: Id | i < |r.heap| ensures Follows(e, r, i) {
      if u != c { assert Follows(u, c, i); } else { assert Good(e, i); }
    }
  }

  lemma {:induction false} RunScriptInv(e: Env, p: Script)
    requires Inv(e)
    ensures Inv(RunScript(e, p)) && Later(e, RunScript(e, p))
    decreases Stored(e.heap) + Size(p), 1
  {
    if p == [] {
      LaterRefl(e);
    } else {
      ExecInv(e, p[0]);
      RunScriptInv(Exec(e, p[0]), p[1..]);
      LaterTrans(e, Exec(e, p[0]), RunScript(Exec(e, p[0]), p[1..]));
    }
  }

  lemma LaterRefl(e: Env)
    requires Inv(e)
    ensures Later(e, e)
  {
    forall i: Id | i < |e.heap| ensures Follows(e, e, i) {
      assert Good(e, i);
    }
  }

  lemma {:induction false} WeakCallbackInv(e: Env, id: Id)
    requires Inv(e) && id < |e.heap| && e.heap[id].hold == Weak
    ensures Inv(WeakCallback(e, id)) && Later(e, WeakCallback(e, id))
    decreases Stored(e.heap), 2
  {
    assert Good(e, id);
    var c := Put(e, id, e.heap[id].(hold := Empty));
    PutInv(e, id, c.heap[id]);
    assert Good(c, id);
    if Finalizing(e.heap[id]) { FromGcInv(c, id); } else { FinalizeInv(c, id); }
    LaterTrans(e, c, WeakCallback(e, id));
  }

  lemma {:induction false} FromGcInv(e: Env, id: Id)
    requires Inv(e) && id < |e.heap| && e.heap[id].home == InFinlist && e.heap[id].hold == Empty
    requires (e.experimental ==> id !in e.pending) && e.heap[id].kind != TrackedFinalizer
    ensures Inv(InvokeFinalizerFromGC(e, id)) && Later(e, InvokeFinalizerFromGC(e, id))
    decreases Stored(e.heap), 1
  {
    if !e.experimental {
      EnqueueInv(e, id);
    } else {
      FlagInv(e, true);
      FinalizeInv(e.(inGc := true), id);
      FlagInv(Finalize(e.(inGc := true), id), e.inGc);
      FlagLater(e, true, Finalize(e.(inGc := true), id));
    }
  }

  lemma EnqueueInv(e: Env, id: Id)
    requires Inv(e) && id < |e.heap| && e.heap[id].home == InFinlist && e.heap[id].hold == Empty
    requires e.instance != Some(id)
    ensures Inv(e.(pending := e.pending + {id})) && Later(e, e.(pending := e.pending + {id}))
  {
    var r := e.(pending := e.pending + {id});
    assert Good(e, id);
    forall i: Id | i < |r.heap| ensures Good(r, i) && Follows(e, r, i) {
      assert Good(e, i);
    }
  }

  lemma FlagInv(e: Env, inGc: bool)
    requires Inv(e)
    ensures Inv(e.(inGc := inGc))
  {
    forall i: Id | i < |e.heap| ensures Good(e.(inGc := inGc), i) {
      assert Good(e, i);
    }
  }

  lemma FlagLater(e: Env, inGc: bool, r: Env)
    requires Later(e.(inGc := inGc), r)
    ensures Later(e, r.(inGc := e.inGc))
  {
    forall i: Id | i < |r.heap| ensures Follows(e, r.(inGc := e.inGc), i) {
      assert Follows(e.(inGc := inGc), r, i);
    }
  }

  lemma CreationInv(e: Env, s: Step)
    requires Inv(e) && (s.CreateReference? || s.Wrap? || s.AddFinalizer?)
    ensures Inv(Create(e, s)) && Later(e, Create(e, s))
  {
    hide Good, Created, Stored;
    if Created(e, s).Some? {
      CreatedGood(e, s);
      NewInv(e, Created(e, s).value);
    } else {
      LaterRefl(e);
    }
  }

  lemma CreatedGood(e: Env, s: Step)
    requires (s.CreateReference? || s.Wrap? || s.AddFinalizer?) && Created(e, s).Some? && |e.heap| !in e.pending
    ensures var t := Created(e, s).value;
      Good(New(e, t), |e.heap|) && t.home == HomeOf(t) && !t.finalizing
  {
    hide Good, New, NewReference;
    var owner := if !s.CreateReference? && !s.wantRef then Runtime else Userland;
    match s
    case CreateReference(count, weakable) => FreshGood(e, PlainReference, Userland, count, weakable, Null, false);
    case Wrap(_, cb) => FreshGood(e, if cb.Null? then ReferenceWithData else ReferenceWithFinalizer, owner, 0, true, cb, true);
    case AddFinalizer(_, cb) => FreshGood(e, ReferenceWithFinalizer, owner, 0, true, cb, false);
  }

  lemma FreshGood(e: Env, kind: Kind, ownership: Ownership, count: uint32, weakable: bool, cb: Callback, wraps: bool)
    requires |e.heap| !in e.pending && kind != TrackedFinalizer && (cb.Calls? ==> kind == ReferenceWithFinalizer)
    requires kind == ReferenceWithFinalizer ==> weakable
    ensures var t := NewReference(kind, ownership, count, weakable, cb, wraps);
      Good(New(e, t), |e.heap|) && t.home == HomeOf(t) && !t.finalizing
  {
    hide Stored, CallbackSize;
    var t := NewReference(kind, ownership, count, weakable, cb, wraps);
    var r := New(e, t);
    assert r.heap[|e.heap|] == t && r.pending == e.pending;
  }

  function Counted(t: Tracker, s: Step): Tracker {
    if s.Ref? then DoRef(t) else DoUnref(t)
  }

  lemma CountGood(e: Env, s: Step, id: Id)
    requires id < |e.heap| && Good(e, id)
    ensures Good(Put(e, id, Counted(e.heap[id], s)), id)
    ensures Follows(e, Put(e, id, Counted(e.heap[id], s)), id)
  {}

  lemma CountInv(e: Env, s: Step)
    requires Inv(e) && (s.Ref? || s.Unref?) && Held(e, s.id)
    ensures var r := Touch(Put(e, s.id, Counted(e.heap[s.id], s)), s.id); Inv(r) && Later(e, r)
  {
    CountGood(e, s, s.id);
    assert Good(e, s.id);
    PutInv(e, s.id, Counted(e.heap[s.id], s));
    FaultInv(Put(e, s.id, Counted(e.heap[s.id], s)), e.fault || !e.heap[s.id].alive);
    LaterTrans(e, Put(e, s.id, Counted(e.heap[s.id], s)), Touch(Put(e, s.id, Counted(e.heap[s.id], s)), s.id));
  }

  lemma FaultInv(e: Env, fault: bool)
    requires Inv(e) && (fault ==> e.teardown)
    ensures Inv(e.(fault := fault)) && Later(e, e.(fault := fault))
  {
    forall i: Id | i < |e.heap| ensures Good(e.(fault := fault), i) && Follows(e, e.(fault := fault), i) {
      assert Good(e, i);
    }
  }

  /** Every API call and every collection keeps the invariant, from any state and at any depth. */
  lemma {:induction false} ExecInv(e: Env, s: Step)
    requires Inv(e)
    ensures Inv(Exec(e, s)) && Later(e, Exec(e, s))
    decreases Stored(e.heap) + StepSize(s), 0
  {
    if !Enabled(e, s) {
      LaterRefl(e);
    } else if s.CreateReference? || s.Wrap? || s.AddFinalizer? {
      CreationInv(e, s);
    } else if s.Ref? || s.Unref? {
      CountInv(e, s);
    } else if s.Delete? {
      assert Good(e, s.id);
      DestroyInv(e, s.id, GiveUp(e.heap[s.id]).(deleted := true));
    } else if s.RemoveWrap? {
      RemoveWrapInv(e, s.id);
    } else if s.Collect? {
      WeakCallbackInv(e, s.id);
    } else if s.PostFinalizer? {
      PostInv(e, s.cb);
    } else if s.SetInstanceData? {
      ReplaceInstanceInv(e, s.cb);
    } else {
      ReadInv(e, s);
    }
  }

  lemma ReadInv(e: Env, s: Step)
    requires Inv(e) && (s.GetValue? || s.GetInstanceData?) && Enabled(e, s)
    ensures Inv(Exec(e, s)) && Later(e, Exec(e, s))
  {
    LaterRefl(e);
    if s.GetValue? {
      assert Good(e, s.id);
      FaultInv(e, e.fault || !e.heap[s.id].alive);
    } else if e.instance.Some? {
      assert Good(e, e.instance.value);
      FaultInv(e, e.fault || !e.heap[e.instance.value].alive);
    }
  }

  lemma PostInv(e: Env, cb: Callback)
    requires Inv(e)
    ensures Inv(Exec(e, PostFinalizer(cb))) && Later(e, Exec(e, PostFinalizer(cb)))
  {
    var n := New(e, NewTracked(cb));
    NewInv(e, NewTracked(cb));
    EnqueueInv(n, |e.heap|);
    LaterTrans(e, n, Exec(e, PostFinalizer(cb)));
  }

  lemma RemoveWrapInv(e: Env, id: Id)
    requires Inv(e) && Enabled(e, RemoveWrap(id))
    ensures Inv(Exec(e, RemoveWrap(id))) && Later(e, Exec(e, RemoveWrap(id)))
  {
    hide Destroy, Stored;
    assert Good(e, id);
    var t := e.heap[id];
    if t.ownership == Userland {
      PutInv(e, id, GiveUp(t).(callback := Null, wraps := false));
    } else {
      DestroyInv(e, id, GiveUp(t));
    }
  }

  lemma ReplaceInstanceInv(e: Env, cb: Callback)
    requires Inv(e)
    ensures Inv(ReplaceInstance(e, cb)) && Later(e, ReplaceInstance(e, cb))
  {
    hide New, Destroy, Good;
    NoInstanceInv(e);
    var n := e.(instance := None);
    if e.instance.None? {
      NewInstanceInv(e, n, cb);
    } else {
      DropInstanceInv(e);
      NewInstanceInv(e, DropInstance(e, e.instance.value).(instance := None), cb);
      NewIgnoresInstance(DropInstance(e, e.instance.value), NewTracked(cb));
    }
  }

  lemma NewIgnoresInstance(d: Env, t: Tracker)
    ensures New(d.(instance := None), t).(instance := Some(|d.heap|)) == New(d, t).(instance := Some(|d.heap|))
  {
    hide Stored, CallbackSize;
  }

  lemma DropInstanceInv(e: Env)
    requires Inv(e) && e.instance.Some?
    ensures var d := DropInstance(e, e.instance.value).(instance := None); Inv(d) && Later(e, d)
  {
    hide Good;
    var i, n := e.instance.value, e.(instance := None);
    NoInstanceInv(e);
    assert Good(e, i);
    if e.heap[i].finalizing {
      FinalizingTears(e, i);
      FaultInv(n, true);
      LaterTrans(e, n, n.(fault := true));
    } else {
      InstanceHome(e, i);
      DestroyInv(n, i, GiveUp(e.heap[i]));
      LaterTrans(e, n, Destroy(n, i, GiveUp(e.heap[i])));
      DestroyIgnoresInstance(e, i, GiveUp(e.heap[i]));
    }
  }

  lemma FinalizingTears(e: Env, i: Id)
    requires i < |e.heap| && Good(e, i) && InstanceGood(e) && e.instance == Some(i) && e.heap[i].finalizing
    ensures e.teardown
  {
  }

  lemma InstanceHome(e: Env, i: Id)
    requires i < |e.heap| && Good(e, i) && InstanceGood(e) && e.instance == Some(i)
    ensures (e.heap[i].alive || e.heap[i].torn) && e.heap[i].ownership == Runtime
  {
  }

  lemma DestroyIgnoresInstance(e: Env, i: Id, t: Tracker)
    requires i < |e.heap| && t.callback == e.heap[i].callback
    ensures Destroy(e.(instance := None), i, t) == Destroy(e, i, t).(instance := None)
  {
    hide Stored;
  }

  lemma NoInstanceInv(e: Env)
    requires Inv(e)
    ensures Inv(e.(instance := None)) && Later(e, e.(instance := None))
  {
    var r := e.(instance := None);
    forall i: Id | i < |e.heap| ensures Good(r, i) && Follows(e, r, i) {
      assert Good(e, i);
    }
  }

  lemma NewInstanceInv(e: Env, d: Env, cb: Callback)
    requires Inv(d) && Later(e, d) && d.instance == None
    ensures
      var r := New(d, NewTracked(cb)).(instance := Some(|d.heap|));
      Inv(r) && Later(e, r)
  {
    var n := New(d, NewTracked(cb));
    NewInv(d, NewTracked(cb));
    InstanceInv(n, |d.heap|);
    LaterTrans(e, d, n);
    LaterTrans(e, n, n.(instance := Some(|d.heap|)));
  }

  lemma InstanceInv(e: Env, id: Id)
    requires Inv(e) && id < |e.heap| && e.heap[id].kind == TrackedFinalizer
    requires id !in e.pending && e.heap[id].home == InFinlist
    ensures Inv(e.(instance := Some(id))) && Later(e, e.(instance := Some(id)))
  {
    var r := e.(instance := Some(id));
    forall i: Id | i < |r.heap| ensures Good(r, i) && Follows(e, r, i) {
      assert Good(e, i);
    }
  }
}
