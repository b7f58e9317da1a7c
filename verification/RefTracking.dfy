/** The life of napi references and finalizers on V8, as a state machine.
    Every tracker ever created keeps its own identity (its index in `heap`); a freed one stays there
    with `!alive`, so touching it again is visible as a `fault`.
    What one invocation of a user finalizer does is a finite script of API calls and collections. It is
    carried by the registration, which loses nothing because a finalizer runs at most once. */
module RefTracking {
  import opened Common

  type Id = nat
  type uint32 = x: nat | x < 0x1_0000_0000

  datatype Ownership = Runtime | Userland
  datatype Kind = PlainReference | ReferenceWithData | ReferenceWithFinalizer | TrackedFinalizer

  /** What the persistent handle does for its target. */
  datatype Hold = Empty | Weak | Strong

  type Script = seq<Step>

  /** A finalize callback: null, or one whose only invocation performs the script. */
  datatype Callback = Null | Calls(script: Script)

  datatype Step =
    | CreateReference(count: uint32, weakable: bool)
    | Wrap(wantRef: bool, cb: Callback)
    | AddFinalizer(wantRef: bool, cb: Callback)
    | Ref(id: Id)
    | Unref(id: Id)
    | Delete(id: Id)
    | RemoveWrap(id: Id)
    | Collect(id: Id)                       // the weak callback of one reference
    | PostFinalizer(cb: Callback)
    | SetInstanceData(cb: Callback)
    | GetValue(id: Id)                      // napi_get_reference_value
    | GetInstanceData

  /** The list a tracker is linked in. */
  datatype Home = Nowhere | InReflist | InFinlist

  datatype Tracker = Tracker(
    kind: Kind, ownership: Ownership, refcount: uint32, hold: Hold, weakable: bool,
    callback: Callback,         // the stored finalize callback
    wraps: bool,                // an object is wrapped by this reference
    home: Home,
    alive: bool,                // allocated and not yet freed
    finalizing: bool,           // its Finalize is on the call stack
    registered: bool,           // history: created with a finalize callback
    runs: nat,                  // history: how often that callback was started
    dropped: bool,              // history: that callback was given up before it ran
    deleted: bool,              // history: the user passed it to napi_delete_reference
    torn: bool)                 // history: finalized by DeleteMe

  datatype Env = Env(
    experimental: bool,
    heap: seq<Tracker>,
    reflist: seq<Id>, finlist: seq<Id>, pending: set<Id>,
    inGc: bool, draining: bool, teardown: bool,
    instance: Option<Id>,
    fault: bool)                // history: a freed tracker was used, freed or finalized again

  function Init(experimental: bool): Env {
    Env(experimental, [], [], [], {}, false, false, false, None, false)
  }

  predicate SameFlags(e: Env, r: Env) {
    r.experimental == e.experimental && r.inGc == e.inGc && r.draining == e.draining && r.teardown == e.teardown
  }

  // ---- sizes: what bounds every run ------------------------------------------------------------

  function Size(p: Script): nat
    decreases p
  {
    if p == [] then 0 else StepSize(p[0]) + Size(p[1..])
  }

  function CallbackSize(cb: Callback): nat
    decreases cb
  {
    match cb case Null => 0 case Calls(p) => 1 + Size(p)
  }

  function StepSize(s: Step): (n: nat)
    ensures n > 0
    decreases s
  {
    match s
    case Wrap(_, cb) => 1 + CallbackSize(cb)
    case AddFinalizer(_, cb) => 1 + CallbackSize(cb)
    case PostFinalizer(cb) => 1 + CallbackSize(cb)
    case SetInstanceData(cb) => 1 + CallbackSize(cb)
    case _ => 1
  }

  /** The work still stored in unfired callbacks. */
  function Stored(heap: seq<Tracker>): nat {
    if heap == [] then 0
    else Stored(heap[..|heap| - 1]) + CallbackSize(heap[|heap| - 1].callback)
  }

  lemma {:induction false} StoredUpdate(heap: seq<Tracker>, i: nat, t: Tracker)
    requires i < |heap|
    ensures Stored(heap[i := t]) + CallbackSize(heap[i].callback) == Stored(heap) + CallbackSize(t.callback)
  {
    var n := |heap| - 1;
    if i < n {
      StoredUpdate(heap[..n], i, t);
      assert heap[i := t][..n] == heap[..n][i := t];
    } else {
      assert heap[i := t][..n] == heap[..n];
    }
  }

  // ---- primitives ------------------------------------------------------------------------------

  predicate Finalizing(t: Tracker) { t.kind == ReferenceWithFinalizer || t.kind == TrackedFinalizer }

  function HomeOf(t: Tracker): Home { if Finalizing(t) then InFinlist else InReflist }

  /** Allocation followed by Link: the new tracker goes to the head of its list. */
  function New(e: Env, t: Tracker): (r: Env)
    ensures |r.heap| == |e.heap| + 1 && Stored(r.heap) == Stored(e.heap) + CallbackSize(t.callback)
  {
    var heap := e.heap + [t];
    assert heap[..|heap| - 1] == e.heap;
    if Finalizing(t) then e.(heap := heap, finlist := [|e.heap|] + e.finlist)
    else e.(heap := heap, reflist := [|e.heap|] + e.reflist)
  }

  function Put(e: Env, id: Id, t: Tracker): (r: Env)
    requires id < |e.heap|
    ensures |r.heap| == |e.heap|
    ensures Stored(r.heap) + CallbackSize(e.heap[id].callback) == Stored(e.heap) + CallbackSize(t.callback)
  {
    StoredUpdate(e.heap, id, t);
    e.(heap := e.heap[id := t])
  }

  function Unlink(e: Env, id: Id): (r: Env)
    requires id < |e.heap|
    ensures |r.heap| == |e.heap| && Stored(r.heap) == Stored(e.heap)
    ensures r == e.(heap := e.heap[id := e.heap[id].(home := Nowhere)], reflist := r.reflist, finlist := r.finlist)
  {
    Put(e, id, e.heap[id].(home := Nowhere))
      .(reflist := Remove(e.reflist, id), finlist := Remove(e.finlist, id))
  }

  /** The destructor: dequeues and unlinks the tracker and releases its handle and callback. */
  function Free(e: Env, id: Id): (r: Env)
    requires id < |e.heap|
    ensures |r.heap| == |e.heap| && Stored(r.heap) <= Stored(e.heap)
    ensures r == e.(heap := e.heap[id := r.heap[id]], reflist := r.reflist, finlist := r.finlist,
                    pending := e.pending - {id}, fault := r.fault)
  {
    var u := Unlink(e, id);
    Put(u, id, u.heap[id].(hold := Empty, callback := Null, alive := false))
      .(pending := e.pending - {id}, fault := e.fault || !e.heap[id].alive)
  }

  /** History: the user gives up the tracker, and with it a callback that has not run. */
  function GiveUp(t: Tracker): Tracker {
    t.(dropped := t.dropped || t.callback.Calls?)
  }

  function NewReference(kind: Kind, ownership: Ownership, count: uint32, weakable: bool, cb: Callback, wraps: bool)
    : (t: Tracker)
  {
    var hold := if count > 0 then Strong else if weakable then Weak else Empty;
    var home := if kind == ReferenceWithFinalizer then InFinlist else InReflist;
    Tracker(kind, ownership, count, hold, weakable, cb, wraps, home, true, false, cb.Calls?, 0, false, false, false)
  }

  function NewTracked(cb: Callback): Tracker {
    Tracker(TrackedFinalizer, Runtime, 0, Empty, false, cb, false, InFinlist, true, false, cb.Calls?, 0, false, false, false)
  }

  // ---- the API calls ---------------------------------------------------------------------------

  /** A napi_ref the caller was given and has not deleted. */
  predicate Held(e: Env, id: Id) {
    id < |e.heap| && e.heap[id].ownership == Userland && e.heap[id].kind != TrackedFinalizer && !e.heap[id].deleted
  }

  /** The call reaches a tracker that is freed, or frees one whose Finalize is running and will free it again; a
      tracker under its own Finalize may still be read. */
  predicate Faulty(e: Env, s: Step) {
    match s
    case Ref(id) => Enabled(e, s) && !e.heap[id].alive
    case Unref(id) => Enabled(e, s) && !e.heap[id].alive
    case Delete(id) => Enabled(e, s) && !e.heap[id].alive
    case GetValue(id) => Enabled(e, s) && !e.heap[id].alive
    case GetInstanceData => Enabled(e, s) && e.instance.Some? && !e.heap[e.instance.value].alive
    case SetInstanceData(_) =>
      Enabled(e, s) && e.instance.Some? && (!e.heap[e.instance.value].alive || e.heap[e.instance.value].finalizing)
    case _ => false
  }

  /** The calls a program can make. Calls guarded by CheckGCAccess abort inside a GC finalizer. */
  predicate Enabled(e: Env, s: Step) {
    match s
    case CreateReference(_, weakable) => !(e.experimental && e.inGc)
    case Wrap(_, _) => !(e.experimental && e.inGc)
    case AddFinalizer(_, _) => !(e.experimental && e.inGc)
    case Ref(id) => !(e.experimental && e.inGc) && Held(e, id)
    case Unref(id) => !(e.experimental && e.inGc) && Held(e, id)
    case Delete(id) => !(e.experimental && e.inGc) && Held(e, id) && !e.heap[id].finalizing
    case RemoveWrap(id) =>
      !(e.experimental && e.inGc) && id < |e.heap| && e.heap[id].alive && e.heap[id].wraps
      && e.heap[id].hold != Empty
    case Collect(id) => !e.inGc && id < |e.heap| && e.heap[id].alive && e.heap[id].hold == Weak
    case PostFinalizer(_) => true
    case SetInstanceData(_) => e.instance.Some? ==> e.instance.value < |e.heap|
    case GetValue(id) => !(e.experimental && e.inGc) && Held(e, id)
    case GetInstanceData => e.instance.Some? ==> e.instance.value < |e.heap|
  }

  function DoRef(t: Tracker): (u: Tracker)
    ensures u.callback == t.callback
  {
    if t.hold == Empty then t
    else
      var n := (t.refcount + 1) % 0x1_0000_0000;
      t.(refcount := n, hold := if n == 1 && t.weakable then Strong else t.hold)
  }

  function DoUnref(t: Tracker): (u: Tracker)
    ensures u.callback == t.callback
  {
    if t.hold == Empty || t.refcount == 0 then t
    else
      var n := t.refcount - 1;
      t.(refcount := n, hold := if n > 0 then t.hold else if t.weakable then Weak else Empty)
  }

  /** The reference a creating call allocates; None when it returns napi_invalid_arg. */
  function Created(e: Env, s: Step): (t: Option<Tracker>)
    requires s.CreateReference? || s.Wrap? || s.AddFinalizer?
    ensures t.Some? ==> CallbackSize(t.value.callback) < StepSize(s)
  {
    match s
    case CreateReference(count, weakable) =>
      if !e.experimental && !weakable then None
      else Some(NewReference(PlainReference, Userland, count, weakable, Null, false))
    case Wrap(wantRef, cb) =>
      if wantRef && cb.Null? then None
      else if cb.Null? then Some(NewReference(ReferenceWithData, Runtime, 0, true, Null, true))
      else Some(NewReference(ReferenceWithFinalizer, if wantRef then Userland else Runtime, 0, true, cb, true))
    case AddFinalizer(wantRef, cb) =>
      if cb.Null? then None
      else Some(NewReference(ReferenceWithFinalizer, if wantRef then Userland else Runtime, 0, true, cb, false))
  }

  function Create(e: Env, s: Step): (r: Env)
    requires s.CreateReference? || s.Wrap? || s.AddFinalizer?
    ensures |r.heap| >= |e.heap| && Stored(r.heap) < Stored(e.heap) + StepSize(s)
  {
    match Created(e, s) case None => e case Some(t) => New(e, t)
  }

  function Exec(e: Env, s: Step): (r: Env)
    ensures |r.heap| >= |e.heap| && Stored(r.heap) < Stored(e.heap) + StepSize(s)
    decreases Stored(e.heap) + StepSize(s), 0
  {
    hide Create, ReplaceInstance, Destroy, DoRef, DoUnref, New, Touch, Stored, Put;
    if !Enabled(e, s) then e
    else
      match s
      case CreateReference(_, _) => Create(e, s)
      case Wrap(_, _) => Create(e, s)
      case AddFinalizer(_, _) => Create(e, s)
      case Ref(id) => Touch(Put(e, id, DoRef(e.heap[id])), id)
      case Unref(id) => Touch(Put(e, id, DoUnref(e.heap[id])), id)
      case Delete(id) => Destroy(e, id, GiveUp(e.heap[id]).(deleted := true))
      case RemoveWrap(id) =>
        var t := e.heap[id];
        if t.ownership == Userland then Put(e, id, GiveUp(t).(callback := Null, wraps := false))
        else Destroy(e, id, GiveUp(t))
      case Collect(id) => WeakCallback(e, id)
      case PostFinalizer(cb) => New(e, NewTracked(cb)).(pending := e.pending + {|e.heap|})
      case SetInstanceData(cb) => ReplaceInstance(e, cb)
      case GetValue(id) => Touch(e, id)
      case GetInstanceData => if e.instance.Some? then Touch(e, e.instance.value) else e
  }

  /** A call that reads or writes the tracker. */
  function Touch(e: Env, id: Id): (r: Env)
    requires id < |e.heap|
    ensures r.heap == e.heap
  {
    e.(fault := e.fault || !e.heap[id].alive)
  }

  /** delete, after the history of t is noted. */
  function Destroy(e: Env, id: Id, t: Tracker): (r: Env)
    requires id < |e.heap| && t.callback == e.heap[id].callback
    ensures |r.heap| == |e.heap| && Stored(r.heap) <= Stored(e.heap)
  {
    Free(Put(e, id, t), id)
  }

  function ReplaceInstance(e: Env, cb: Callback): (r: Env)
    requires e.instance.Some? ==> e.instance.value < |e.heap|
    ensures |r.heap| >= |e.heap| && Stored(r.heap) <= Stored(e.heap) + CallbackSize(cb)
  {
    var d := if e.instance.None? then e else DropInstance(e, e.instance.value);
    New(d, NewTracked(cb)).(instance := Some(|d.heap|))
  }

  /** Deletes the tracker of the old instance data without asking whether it is still allocated. Under its own
      Finalize it is freed here and again on return. */
  function DropInstance(e: Env, id: Id): (r: Env)
    requires id < |e.heap|
    ensures |r.heap| == |e.heap| && Stored(r.heap) <= Stored(e.heap)
  {
    if e.heap[id].finalizing then e.(fault := true) else Destroy(e, id, GiveUp(e.heap[id]))
  }

  /** Reference::WeakCallback. */
  function WeakCallback(e: Env, id: Id): (r: Env)
    requires id < |e.heap|
    ensures |r.heap| >= |e.heap| && Stored(r.heap) <= Stored(e.heap)
    decreases Stored(e.heap), 2
  {
    var c := Put(e, id, e.heap[id].(hold := Empty));
    if !Finalizing(e.heap[id]) then Finalize(c, id) else InvokeFinalizerFromGC(c, id)
  }

  /** napi_env__::InvokeFinalizerFromGC. */
  function InvokeFinalizerFromGC(e: Env, id: Id): (r: Env)
    requires id < |e.heap|
    ensures |r.heap| >= |e.heap| && Stored(r.heap) <= Stored(e.heap)
    decreases Stored(e.heap), 1
  {
    if !e.experimental then e.(pending := e.pending + {id})
    else Finalize(e.(inGc := true), id).(inGc := e.inGc)
  }

  /** Reference::Finalize and TrackedFinalizer::Finalize. */
  function Finalize(e: Env, id: Id): (r: Env)
    requires id < |e.heap|
    ensures |r.heap| >= |e.heap| && Stored(r.heap) <= Stored(e.heap)
    ensures e.heap[id].callback.Calls? ==> Stored(r.heap) < Stored(e.heap)
    decreases Stored(e.heap), 0
  {
    var u := Detach(e, id);
    var c := if e.heap[id].callback.Calls? then RunScript(u, e.heap[id].callback.script) else u;
    EndFinalize(c, id, DeletesItself(e, id))
  }

  /** The end of Finalize, after the user callback returned. */
  function EndFinalize(c: Env, id: Id, deleteMe: bool): (r: Env)
    requires id < |c.heap|
    ensures |r.heap| == |c.heap| && r.heap == c.heap[id := r.heap[id]] && SameFlags(c, r)
    ensures c.pending - {id} <= r.pending <= c.pending
    ensures Stored(r.heap) <= Stored(c.heap)
  {
    hide Unlink, Free;
    var d := Put(c, id, c.heap[id].(finalizing := false));
    if deleteMe then Free(d, id) else d
  }

  predicate DeletesItself(e: Env, id: Id)
    requires id < |e.heap|
  {
    e.heap[id].kind == TrackedFinalizer || e.heap[id].ownership == Runtime || e.teardown
  }

  /** Finalize up to the point where the user callback starts. */
  function Detach(e: Env, id: Id): (r: Env)
    requires id < |e.heap|
    ensures |r.heap| == |e.heap| && r.heap == e.heap[id := r.heap[id]] && r.pending == e.pending && SameFlags(e, r)
    ensures Stored(r.heap) + CallbackSize(e.heap[id].callback) == Stored(e.heap)
  {
    StartFinalizing(Unlink(e, id), id)
  }

  /** Marks a tracker as being finalized and takes its callback. */
  function StartFinalizing(e: Env, id: Id): (r: Env)
    requires id < |e.heap|
    ensures |r.heap| == |e.heap| && r.heap == e.heap[id := r.heap[id]] && r.pending == e.pending && SameFlags(e, r)
    ensures Stored(r.heap) + CallbackSize(e.heap[id].callback) == Stored(e.heap)
  {
    var t := e.heap[id];
    Put(e, id, t.(hold := Empty, callback := Null, finalizing := true, torn := t.torn || e.teardown,
                  runs := if t.callback.Calls? then t.runs + 1 else t.runs))
      .(fault := e.fault || !t.alive)
  }

  function RunScript(e: Env, p: Script): (r: Env)
    ensures |r.heap| >= |e.heap| && Stored(r.heap) <= Stored(e.heap) + Size(p)
    decreases Stored(e.heap) + Size(p), 1
  {
    if p == [] then e else RunScript(Exec(e, p[0]), p[1..])
  }
}
