/** What single calls on V8 references achieve, which of them undo each other, and what a GC finalizer may do. */
module RefTrackingLaws {
  import opened Common
  import opened RefTracking
  import opened RefTrackingSafety
  import opened RefTrackingRuns
  import opened RefTrackingCalls

  // ---- counting ------------------------------------------------------------------------------------

  /** Counting up and down again changes nothing, as long as the count has not wrapped: what is counted is held, what is
      not is watched by a weak handle or has none. */
  lemma UnrefUndoesRef(t: Tracker)
    requires t.refcount < 0xFFFF_FFFF && (t.refcount > 0 ==> t.hold == Strong)
    requires t.refcount == 0 && t.hold != Empty ==> t.weakable && t.hold == Weak
    ensures DoUnref(DoRef(t)) == t
    ensures t.hold != Empty ==> DoRef(t).refcount == t.refcount + 1 && DoRef(t).hold == Strong
    ensures t.hold == Empty ==> DoRef(t) == t
  {
  }

  // ---- creation ------------------------------------------------------------------------------------

  /** What a creating call gives: a tracker of its own, owned by the user exactly if the caller gets a handle, holding
      its target if counted and watching it otherwise, with the callback it was given. It has no effect inside a GC
      finalizer of an experimental module, for a value that cannot be held weakly outside experimental modules, and for
      a missing callback. */
  lemma CreationExactly(e: Env, s: Step)
    requires Inv(e) && (s.CreateReference? || s.Wrap? || s.AddFinalizer?)
    ensures
      var r, id := Exec(e, s), |e.heap|;
      var refused := if s.CreateReference? then !e.experimental && !s.weakable
                     else s.cb.Null? && (s.AddFinalizer? || s.wantRef);
      if refused || (e.experimental && e.inGc) then r == e
      else
        && r.heap[..|e.heap|] == e.heap && |r.heap| == id + 1
        && var t := r.heap[id];
        && t.alive && t.home == HomeOf(t) && !t.finalizing && !t.dropped && !t.deleted && t.runs == 0
        && (t.ownership == Userland <==> s.CreateReference? || s.wantRef)
        && t.refcount == (if s.CreateReference? then s.count else 0)
        && t.hold == (if t.refcount > 0 then Strong else if s.CreateReference? && !s.weakable then Empty else Weak)
        && t.callback == (if s.CreateReference? then Null else s.cb) && (t.registered <==> t.callback.Calls?)
        && (t.wraps <==> s.Wrap?) && t.kind != TrackedFinalizer
        && (Finalizing(t) <==> !s.CreateReference? && s.cb.Calls?)
  {
    hide Stored, Exec, New;
    CreatingExec(e, s);
    if Created(e, s).Some? { NewLast(e, Created(e, s).value); }
  }

  lemma NewLast(e: Env, t: Tracker)
    ensures New(e, t).heap == e.heap + [t]
  {
    hide Stored;
  }

  /** A handle is usable from the start, and to the end of its life only once. */
  lemma HandleIsUsable(e: Env, s: Step)
    requires Inv(e) && !(e.experimental && e.inGc) && (s.CreateReference? || s.Wrap? || s.AddFinalizer?)
    requires Created(e, s).Some? && (s.CreateReference? || s.wantRef)
    ensures
      var r, id := Exec(e, s), |e.heap|;
      && Enabled(r, Ref(id)) && Enabled(r, Unref(id)) && Enabled(r, GetValue(id)) && Enabled(r, Delete(id))
      && var d := Exec(r, Delete(id));
      && !Enabled(d, Ref(id)) && !Enabled(d, Unref(id)) && !Enabled(d, GetValue(id)) && !Enabled(d, Delete(id))
      && |d.heap| == |r.heap| && d.heap[id].home == Nowhere && !d.heap[id].alive
  {
    hide Stored, Destroy, Exec;
    CreationExactly(e, s);
    CreatedQueue(e, s);
    UseLast(Exec(e, s), |e.heap|);
  }

  lemma UseLast(r: Env, id: Id)
    requires |r.heap| == id + 1 && r.heap[id].ownership == Userland && r.heap[id].kind != TrackedFinalizer
    requires !r.heap[id].deleted && !r.heap[id].finalizing && !(r.experimental && r.inGc)
    ensures Enabled(r, Ref(id)) && Enabled(r, Unref(id)) && Enabled(r, GetValue(id)) && Enabled(r, Delete(id))
    ensures
      var d := Exec(r, Delete(id));
      && !Enabled(d, Ref(id)) && !Enabled(d, Unref(id)) && !Enabled(d, GetValue(id)) && !Enabled(d, Delete(id))
      && |d.heap| == |r.heap| && d.heap[id].home == Nowhere && !d.heap[id].alive
  {
    hide Stored, Destroy;
    DestroyLast(r, id, GiveUp(r.heap[id]).(deleted := true));
  }

  /** A wrap can be removed, once; the native's finalizer goes with it, and the reference too unless the user has it. */
  lemma WrapThenRemove(e: Env, wantRef: bool, cb: Callback)
    requires Inv(e) && !(e.experimental && e.inGc) && Created(e, Wrap(wantRef, cb)).Some?
    ensures
      var c, id := Exec(e, Wrap(wantRef, cb)), |e.heap|;
      && Enabled(c, RemoveWrap(id))
      && var r := Exec(c, RemoveWrap(id));
      && |r.heap| == id + 1 && r.heap[..id] == e.heap && !Enabled(r, RemoveWrap(id))
      && r.heap[id].callback == Null && (r.heap[id].dropped <==> cb.Calls?)
      && (r.heap[id].alive <==> wantRef) && r.pending == e.pending - {id}
  {
    hide Exec, Stored, Inv;
    NotYetPending(e);
    CreationExactly(e, Wrap(wantRef, cb));
    CreatedQueue(e, Wrap(wantRef, cb));
    RemoveLast(Exec(e, Wrap(wantRef, cb)), |e.heap|);
  }

  lemma CreatedQueue(e: Env, s: Step)
    requires s.CreateReference? || s.Wrap? || s.AddFinalizer?
    ensures Exec(e, s).pending == e.pending && Exec(e, s).inGc == e.inGc && Exec(e, s).experimental == e.experimental
    ensures Created(e, s).Some? <==>
            !(if s.CreateReference? then !e.experimental && !s.weakable else s.cb.Null? && (s.AddFinalizer? || s.wantRef))
  {
    hide Stored, Exec, Enabled;
    CreatingExec(e, s);
  }

  lemma CreatingExec(e: Env, s: Step)
    requires s.CreateReference? || s.Wrap? || s.AddFinalizer?
    ensures Exec(e, s) == if Enabled(e, s) then Create(e, s) else e
  {
    hide Stored, Create, Enabled;
  }

  lemma RemoveLast(c: Env, id: Id)
    requires |c.heap| == id + 1 && c.heap[id].alive && c.heap[id].wraps && c.heap[id].hold != Empty && !c.heap[id].dropped
    requires !(c.experimental && c.inGc)
    ensures Enabled(c, RemoveWrap(id))
    ensures
      var r := Exec(c, RemoveWrap(id));
      && |r.heap| == id + 1 && r.heap[..id] == c.heap[..id] && !Enabled(r, RemoveWrap(id))
      && r.heap[id].callback == Null && (r.heap[id].dropped <==> c.heap[id].callback.Calls?)
      && (r.heap[id].alive <==> c.heap[id].ownership == Userland)
      && r.pending == if r.heap[id].alive then c.pending else c.pending - {id}
  {
    hide Stored, Destroy, Put;
    DestroyLast(c, id, GiveUp(c.heap[id]));
    PutLast(c, id, GiveUp(c.heap[id]).(callback := Null, wraps := false));
  }

  lemma PutLast(c: Env, id: Id, t: Tracker)
    requires |c.heap| == id + 1
    ensures Put(c, id, t) == c.(heap := c.heap[..id] + [t])
  {
    hide Stored;
    assert c.heap[id := t] == c.heap[..id] + [t];
  }

  lemma DestroyLast(c: Env, id: Id, t: Tracker)
    requires |c.heap| == id + 1 && t.callback == c.heap[id].callback
    ensures
      var r := Destroy(c, id, t);
      && r.heap == c.heap[..id] + [t.(home := Nowhere, hold := Empty, callback := Null, alive := false)]
      && r.pending == c.pending - {id} && SameFlags(c, r)
  {
    hide Stored, Remove;
    var r := Destroy(c, id, t);
    assert r.heap[..id] == c.heap[..id] && r.heap == r.heap[..id] + [r.heap[id]];
  }

  lemma NotYetPending(e: Env)
    requires Inv(e)
    ensures |e.heap| !in e.pending
  {
  }

  // ---- GC finalizers of experimental modules ---------------------------------------------------------

  /** Inside a GC finalizer every call on references is refused. */
  lemma GcLeaf(e: Env, s: Step, j: Id)
    requires Inv(e) && e.inGc && e.experimental && j < |e.heap| && e.heap[j].kind != TrackedFinalizer
    ensures j < |Exec(e, s).heap| && Exec(e, s).heap[j] == e.heap[j]
    ensures Exec(e, s).inGc && Exec(e, s).experimental
  {
    hide Stored;
  }

  lemma {:induction false} GcScript(e: Env, p: Script, j: Id)
    requires Inv(e) && e.inGc && e.experimental && j < |e.heap| && e.heap[j].kind != TrackedFinalizer
    ensures j < |RunScript(e, p).heap| && RunScript(e, p).heap[j] == e.heap[j]
    decreases |p|
  {
    hide Inv, Exec;
    if p != [] {
      GcLeaf(e, p[0], j);
      ExecInv(e, p[0]);
      GcScript(Exec(e, p[0]), p[1..], j);
    }
  }

  /** Whatever the finalizer does that a collection runs at once in an experimental module, no other reference changes. */
  lemma GcFinalizerChangesNoReference(e: Env, id: Id, j: Id)
    requires Inv(e) && e.experimental && Enabled(e, Step.Collect(id)) && Finalizing(e.heap[id])
    requires j < |e.heap| && j != id && e.heap[j].kind != TrackedFinalizer
    ensures j < |Exec(e, Step.Collect(id)).heap| && Exec(e, Step.Collect(id)).heap[j] == e.heap[j]
  {
    hide Stored, Good, EndFinalize, RunScript, Detach;
    var c := Put(e, id, e.heap[id].(hold := Empty));
    assert Good(e, id);
    CollectedGood(e, id);
    PutInv(e, id, c.heap[id]);
    FlagInv(c, true);
    var g := c.(inGc := true);
    DetachInv(g, id);
    var u := Detach(g, id);
    DetachOthers(g, id, j);
    if e.heap[id].callback.Calls? { GcScript(u, e.heap[id].callback.script, j); }
    EndOthers(if e.heap[id].callback.Calls? then RunScript(u, e.heap[id].callback.script) else u, id, DeletesItself(g, id), j);
    assert Exec(e, Step.Collect(id)) == InvokeFinalizerFromGC(c, id);
  }

  lemma CollectedGood(e: Env, id: Id)
    requires Inv(e) && Enabled(e, Step.Collect(id))
    ensures var c := Put(e, id, e.heap[id].(hold := Empty)); Good(c, id) && c.heap[id].home != Nowhere
    ensures Finalizing(e.heap[id]) ==> e.heap[id].home == InFinlist && e.instance != Some(id)
  {
    hide Stored;
    assert Good(e, id);
  }

  lemma DetachOthers(e: Env, id: Id, j: Id)
    requires id < |e.heap| && j < |e.heap| && j != id
    ensures Detach(e, id).heap[j] == e.heap[j] && Detach(e, id).inGc == e.inGc && Detach(e, id).experimental == e.experimental
  {
    hide Stored;
  }

  lemma EndOthers(c: Env, id: Id, deleteMe: bool, j: Id)
    requires id < |c.heap| && j < |c.heap| && j != id
    ensures EndFinalize(c, id, deleteMe).heap[j] == c.heap[j]
  {
    hide Stored;
  }
}
