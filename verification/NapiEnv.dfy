/** The V8 environment as the object its code updates in place. Every method is proved equal to the
    transition of RefTracking it implements, so everything proved about runs holds of it. */
module NapiEnvObject {
  import opened Common
  import opened RefTracking
  import opened RefTrackerList
  import opened RefTrackingSafety
  import R = RefTrackingRuns

  class NapiEnv {
    const experimental: bool
    const begin: R.Begin            // the iteration order of the unordered pending set
    const lists: TrackerLists       // reflist and finalizing_reflist
    var heap: seq<Tracker>
    var pendingFinalizers: set<Id>
    var inGcFinalizer: bool
    var drainingFinalizers: bool
    var tearingDown: bool
    var instanceData: Option<Id>
    var fault: bool

    /** The state, with each list as the identities its pointers run through. */
    ghost function Abs(): Env
      reads this, lists
    {
      Env(experimental, heap, Ids(lists.refs), Ids(lists.fins), pendingFinalizers, inGcFinalizer, drainingFinalizers,
          tearingDown, instanceData, fault)
    }

    /** The state without the lists, which no guard looks at. */
    function View(): Env
      reads this
    {
      Env(experimental, heap, [], [], pendingFinalizers, inGcFinalizer, drainingFinalizers, tearingDown, instanceData,
          fault)
    }

    lemma SameGuards(s: Step)
      ensures Enabled(View(), s) == Enabled(Abs(), s)
      ensures s.CreateReference? || s.Wrap? || s.AddFinalizer? ==> Created(View(), s) == Created(Abs(), s)
    {
    }

    /** Both doubly linked lists are well formed, over a node for every tracker. */
    ghost predicate Valid()
      reads this, lists, lists.Nodes(), lists.refs, lists.fins
    {
      lists.Valid() && |lists.trackers| == |heap|
    }

    constructor (experimental: bool, begin: R.Begin)
      ensures Valid() && Abs() == Init(experimental) && this.begin == begin
      ensures fresh(lists) && fresh(lists.Nodes())
    {
      this.experimental, this.begin := experimental, begin;
      lists := new TrackerLists();
      heap, pendingFinalizers, instanceData := [], {}, None;
      inGcFinalizer, drainingFinalizers, tearingDown, fault := false, false, false, false;
    }

    method Link(t: Tracker) returns (id: Id)
      requires Valid()
      modifies this, lists, lists.Nodes()
      ensures Valid() && fresh(lists.Nodes() - old(lists.Nodes()))
      ensures Abs() == New(old(Abs()), t) && id == |old(heap)|
    {
      hide Ids;
      id := lists.New(Finalizing(t));
      heap := heap + [t];
    }

    /** Writes the fields of tracker id. */
    method Set(id: Id, t: Tracker)
      requires id < |heap|
      modifies this`heap
      ensures Abs() == Put(old(Abs()), id, t) && heap == old(heap)[id := t]
      ensures t.callback == old(heap)[id].callback ==> Stored(heap) == Stored(old(heap))
    {
      StoredUpdate(heap, id, t);
      heap := heap[id := t];
    }

    method Unlink(id: Id)
      requires Valid() && id < |heap|
      modifies this, lists, lists.Nodes()
      ensures Valid() && fresh(lists.Nodes() - old(lists.Nodes()))
      ensures Abs() == RefTracking.Unlink(old(Abs()), id)
    {
      hide Ids, Remove;
      heap := heap[id := heap[id].(home := Nowhere)];
      lists.Unlink(id);
    }

    /** The destructors of the reference classes and of TrackedFinalizer. */
    method Free(id: Id)
      requires Valid() && id < |heap|
      modifies this, lists, lists.Nodes()
      ensures Valid() && fresh(lists.Nodes() - old(lists.Nodes()))
      ensures Abs() == RefTracking.Free(old(Abs()), id)
    {
      hide Stored, Ids, Remove, TrackerLists.Valid;
      if !heap[id].alive { fault := true; }
      Unlink(id);
      pendingFinalizers := pendingFinalizers - {id};
      heap := heap[id := heap[id].(hold := Empty, callback := Null, alive := false)];
    }

    /** Finalize up to the user callback: release the handle, leave the list, take the callback. */
    method Detach(id: Id) returns (callback: Callback, deleteMe: bool)
      requires Valid() && id < |heap|
      modifies this, lists, lists.Nodes()
      ensures Valid() && fresh(lists.Nodes() - old(lists.Nodes()))
      ensures Abs() == RefTracking.Detach(old(Abs()), id)
      ensures callback == old(heap)[id].callback && deleteMe == DeletesItself(old(Abs()), id)
    {
      hide RefTracking.Unlink, RefTracking.StartFinalizing, Stored, Ids, Remove, TrackerLists.Valid, CallbackSize;
      var t := heap[id];
      callback := t.callback;
      deleteMe := t.kind == TrackedFinalizer || t.ownership == Runtime || tearingDown;
      Unlink(id);
      StartFinalizing(id);
    }

    /** Marks an unlinked tracker as being finalized. */
    method StartFinalizing(id: Id)
      requires id < |heap|
      modifies this`heap, this`fault
      ensures Abs() == RefTracking.StartFinalizing(old(Abs()), id)
    {
      hide Stored, Put, CallbackSize, Ids;
      var t := heap[id];
      Set(id, t.(hold := Empty, callback := Null, finalizing := true, torn := t.torn || tearingDown,
                 runs := if t.callback.Calls? then t.runs + 1 else t.runs));
      if !t.alive { fault := true; }
    }

    method Finalize(id: Id)
      requires Valid() && id < |heap|
      modifies this, lists, lists.Nodes()
      ensures Valid() && fresh(lists.Nodes() - old(lists.Nodes()))
      ensures Abs() == RefTracking.Finalize(old(Abs()), id)
      decreases Stored(heap), 0
    {
      hide Ids, TrackerLists.Valid, RefTracking.Detach, RefTracking.EndFinalize;
      var callback, deleteMe := Detach(id);
      if callback.Calls? { RunScript(callback.script); }
      EndFinalize(id, deleteMe);
    }

    method EndFinalize(id: Id, deleteMe: bool)
      requires Valid() && id < |heap|
      modifies this, lists, lists.Nodes()
      ensures Valid() && fresh(lists.Nodes() - old(lists.Nodes()))
      ensures Abs() == RefTracking.EndFinalize(old(Abs()), id, deleteMe)
    {
      Set(id, heap[id].(finalizing := false));
      if deleteMe { Free(id); }
    }

    method WeakCallback(id: Id)
      requires Valid() && id < |heap|
      modifies this, lists, lists.Nodes()
      ensures Valid() && fresh(lists.Nodes() - old(lists.Nodes()))
      ensures Abs() == RefTracking.WeakCallback(old(Abs()), id)
      decreases Stored(heap), 2
    {
      hide Ids, TrackerLists.Valid, RefTracking.Finalize, RefTracking.InvokeFinalizerFromGC, Stored;
      Set(id, heap[id].(hold := Empty));
      if Finalizing(heap[id]) { InvokeFinalizerFromGC(id); } else { Finalize(id); }
    }

    method InvokeFinalizerFromGC(id: Id)
      requires Valid() && id < |heap|
      modifies this, lists, lists.Nodes()
      ensures Valid() && fresh(lists.Nodes() - old(lists.Nodes()))
      ensures Abs() == RefTracking.InvokeFinalizerFromGC(old(Abs()), id)
      decreases Stored(heap), 1
    {
      hide RefTracking.Finalize;
      if !experimental {
        pendingFinalizers := pendingFinalizers + {id};
      } else {
        var saved := inGcFinalizer;
        inGcFinalizer := true;
        Finalize(id);
        inGcFinalizer := saved;
      }
    }

    method RunScript(p: Script)
      requires Valid()
      modifies this, lists, lists.Nodes()
      ensures Valid() && fresh(lists.Nodes() - old(lists.Nodes()))
      ensures Abs() == RefTracking.RunScript(old(Abs()), p)
      decreases Stored(heap) + Size(p), 1
    {
      if p != [] {
        Exec(p[0]);
        RunScript(p[1..]);
      }
    }

    method Exec(s: Step)
      requires Valid()
      modifies this, lists, lists.Nodes()
      ensures Valid() && fresh(lists.Nodes() - old(lists.Nodes()))
      ensures Abs() == RefTracking.Exec(old(Abs()), s)
      decreases Stored(heap) + StepSize(s), 0
    {
      hide RefTracking.WeakCallback, RefTracking.Create, ReplaceInstance, Destroy, RefTracking.Free, Put, DoRef, DoUnref,
        New, StepSize, Touch, Ids, TrackerLists.Valid, Stored;
      SameGuards(s);
      if !Enabled(View(), s) { return; }
      match s
      case CreateReference(_, _) => Create(s);
      case Wrap(_, _) => Create(s);
      case AddFinalizer(_, _) => Create(s);
      case Ref(id) => var _ := Ref(id);
      case Unref(id) => var _ := Unref(id);
      case Delete(id) => Delete(id);
      case RemoveWrap(id) => RemoveWrap(id);
      case Collect(id) => WeakCallback(id);
      case PostFinalizer(cb) => PostFinalizer(cb);
      case SetInstanceData(cb) => SetInstanceData(cb);
      case GetValue(id) => var _ := GetReferenceValue(id);
      case GetInstanceData => var _ := GetInstanceData();
    }

    method Delete(id: Id)
      requires Valid() && id < |heap|
      modifies this, lists, lists.Nodes()
      ensures Valid() && fresh(lists.Nodes() - old(lists.Nodes()))
      ensures Abs() == Destroy(old(Abs()), id, GiveUp(old(heap)[id]).(deleted := true))
    {
      heap := heap[id := GiveUp(heap[id]).(deleted := true)];
      Free(id);
    }

    method PostFinalizer(cb: Callback)
      requires Valid()
      modifies this, lists, lists.Nodes()
      ensures Valid() && fresh(lists.Nodes() - old(lists.Nodes()))
      ensures Abs() == New(old(Abs()), NewTracked(cb)).(pending := old(pendingFinalizers) + {old(|heap|)})
    {
      var id := Link(NewTracked(cb));
      pendingFinalizers := pendingFinalizers + {id};
    }

    method Create(s: Step)
      requires Valid() && (s.CreateReference? || s.Wrap? || s.AddFinalizer?)
      modifies this, lists, lists.Nodes()
      ensures Valid() && fresh(lists.Nodes() - old(lists.Nodes()))
      ensures Abs() == RefTracking.Create(old(Abs()), s)
    {
      SameGuards(s);
      var t := Created(View(), s);
      if t.Some? { var _ := Link(t.value); }
    }

    /** History: the tracker is read or written. */
    method Use(id: Id)
      requires id < |heap|
      modifies this`fault
      ensures heap == old(heap)
      ensures Abs() == Touch(old(Abs()), id)
    {
      if !heap[id].alive { fault := true; }
    }

    /** Reference::Ref; a freed reference reads as one without a handle. */
    method Ref(id: Id) returns (count: nat)
      requires Valid() && id < |heap|
      modifies this, lists, lists.Nodes()
      ensures Valid() && fresh(lists.Nodes() - old(lists.Nodes()))
      ensures Abs() == Touch(Put(old(Abs()), id, DoRef(old(heap)[id])), id)
      ensures count == if old(heap)[id].hold == Empty then 0 else heap[id].refcount
    {
      hide Stored, Ids, TrackerLists.Valid, Put, Touch, DoRef;
      var t;
      count, t := CountUp(heap[id]);
      Set(id, t);
      Use(id);
    }

    static method CountUp(t: Tracker) returns (count: nat, u: Tracker)
      ensures u == DoRef(t) && count == if t.hold == Empty then 0 else u.refcount
    {
      if t.hold == Empty { return 0, t; }
      count := (t.refcount + 1) % 0x1_0000_0000;
      u := t.(refcount := count, hold := if count == 1 && t.weakable then Strong else t.hold);
    }

    /** Reference::Unref. */
    method Unref(id: Id) returns (count: nat)
      requires Valid() && id < |heap|
      modifies this, lists, lists.Nodes()
      ensures Valid() && fresh(lists.Nodes() - old(lists.Nodes()))
      ensures Abs() == Touch(Put(old(Abs()), id, DoUnref(old(heap)[id])), id)
      ensures count == if old(heap)[id].hold == Empty then 0 else heap[id].refcount
    {
      hide Stored, Ids, TrackerLists.Valid, Put, Touch, DoUnref;
      var t;
      count, t := CountDown(heap[id]);
      Set(id, t);
      Use(id);
    }

    /** Reference::Get: whether there is still a value to read. */
    method GetReferenceValue(id: Id) returns (held: bool)
      requires id < |heap|
      modifies this`fault
      ensures Abs() == Touch(old(Abs()), id)
      ensures held <==> heap[id].hold != Empty
    {
      held := heap[id].hold != Empty;
      Use(id);
    }

    static method CountDown(t: Tracker) returns (count: nat, u: Tracker)
      ensures u == DoUnref(t) && count == if t.hold == Empty then 0 else u.refcount
    {
      if t.hold == Empty || t.refcount == 0 { return 0, t; }
      count := t.refcount - 1;
      u := t.(refcount := count, hold := if count > 0 then t.hold else if t.weakable then Weak else Empty);
    }

    method RemoveWrap(id: Id)
      requires Valid() && id < |heap|
      modifies this, lists, lists.Nodes()
      ensures Valid() && fresh(lists.Nodes() - old(lists.Nodes()))
      ensures var t := old(heap)[id];
        Abs() == if t.ownership == Userland then Put(old(Abs()), id, GiveUp(t).(callback := Null, wraps := false))
                 else Destroy(old(Abs()), id, GiveUp(t))
    {
      hide RefTracking.Free;
      var t := heap[id];
      heap := heap[id := GiveUp(t)];
      if t.ownership == Userland {
        heap := heap[id := heap[id].(callback := Null, wraps := false)];
      } else {
        Free(id);
      }
    }

    method SetInstanceData(cb: Callback)
      requires Valid() && (instanceData.Some? ==> instanceData.value < |heap|)
      modifies this, lists, lists.Nodes()
      ensures Valid() && fresh(lists.Nodes() - old(lists.Nodes()))
      ensures Abs() == ReplaceInstance(old(Abs()), cb)
    {
      hide Ids, TrackerLists.Valid, DropInstance, New, Stored;
      if instanceData.Some? { DeleteInstance(instanceData.value); }
      var id := Link(NewTracked(cb));
      instanceData := Some(id);
    }

    /** Reads the tracker of the instance data, still allocated or not. */
    method GetInstanceData() returns (tracker: Option<Id>)
      requires instanceData.Some? ==> instanceData.value < |heap|
      modifies this`fault
      ensures Abs() == if instanceData.Some? then Touch(old(Abs()), instanceData.value) else old(Abs())
      ensures tracker == instanceData
    {
      tracker := instanceData;
      if tracker.Some? { Use(tracker.value); }
    }

    /** Deletes the old tracker, still allocated or not; under its own Finalize it is freed a second time on return. */
    method DeleteInstance(id: Id)
      requires Valid() && id < |heap|
      modifies this, lists, lists.Nodes()
      ensures Valid() && fresh(lists.Nodes() - old(lists.Nodes()))
      ensures Abs() == DropInstance(old(Abs()), id)
    {
      hide RefTracking.Free;
      if heap[id].finalizing {
        fault := true;
      } else {
        heap := heap[id := GiveUp(heap[id])];
        Free(id);
      }
    }

    method DrainFinalizerQueue()
      requires Valid() && Inv(Abs()) && R.Idle(Abs()) && R.Chooses(begin)
      modifies this, lists, lists.Nodes()
      ensures Valid() && fresh(lists.Nodes() - old(lists.Nodes()))
      ensures Abs() == R.Drain(old(Abs()), begin)
    {
      hide Stored, Ids, TrackerLists.Valid, Inv, R.Idle, R.DrainOne;
      if drainingFinalizers || inGcFinalizer { return; }
      R.DrainingInv(Abs(), true);
      drainingFinalizers := true;
      ghost var e := Abs();
      while pendingFinalizers != {}
        invariant Valid() && fresh(lists.Nodes() - old(lists.Nodes())) && Inv(Abs()) && R.Idle(Abs())
        invariant R.DrainLoop(Abs(), begin) == R.DrainLoop(e, begin)
        decreases Stored(heap), |pendingFinalizers|
      {
        R.DrainOneInv(Abs(), begin);
        R.DrainLoopTurn(Abs(), begin);
        FinalizeNext();
      }
      drainingFinalizers := false;
    }

    method FinalizeNext()
      requires Valid() && pendingFinalizers != {} && begin(heap, pendingFinalizers) < |heap|
      modifies this, lists, lists.Nodes()
      ensures Valid() && fresh(lists.Nodes() - old(lists.Nodes()))
      ensures Abs() == R.DrainOne(old(Abs()), begin)
    {
      hide RefTracking.Finalize;
      var id := begin(heap, pendingFinalizers);
      pendingFinalizers := pendingFinalizers - {id};
      Finalize(id);
    }

    /** The node behind a head is the first of its list. */
    lemma HeadOf(which: Home)
      requires Valid() && which != Nowhere
      ensures var head := if which == InFinlist then lists.finalizing else lists.reflist;
        if R.ListIn(Abs(), which) == [] then head.next == null
        else head.next != null && head.next.id == R.ListIn(Abs(), which)[0]
    {
    }

    method FinalizeAll(which: Home)
      requires Valid() && Inv(Abs()) && R.Idle(Abs()) && tearingDown && which != Nowhere
      modifies this, lists, lists.Nodes()
      ensures Valid() && fresh(lists.Nodes() - old(lists.Nodes()))
      ensures Abs() == R.FinalizeAll(old(Abs()), which)
    {
      hide Stored, Ids, TrackerLists.Valid, Inv, R.Idle, R.FinalizeAll, RefTracking.Finalize;
      ghost var e := Abs();
      var head := if which == InFinlist then lists.finalizing else lists.reflist;
      HeadOf(which);
      while head.next != null
        invariant Valid() && fresh(lists.Nodes() - old(lists.Nodes())) && Inv(Abs()) && R.Idle(Abs()) && tearingDown
        invariant R.FinalizeAll(Abs(), which) == R.FinalizeAll(e, which)
        invariant head.next == null <==> R.ListIn(Abs(), which) == []
        invariant head.next != null ==> head.next.id == R.ListIn(Abs(), which)[0]
        decreases Stored(heap), |R.ListIn(Abs(), which)|
      {
        R.HeadInv(Abs(), which);
        R.FinalizeAllTurn(Abs(), which);
        Finalize(head.next.id);
        HeadOf(which);
      }
      R.FinalizeAllDone(Abs(), which);
    }

    /** Up to `delete this`: the flag of the thread is restored and the lists are gone with the env. */
    method DeleteMe()
      requires Valid() && Inv(Abs()) && R.Idle(Abs())
      modifies this, lists, lists.Nodes()
      ensures Valid() && fresh(lists.Nodes() - old(lists.Nodes()))
      ensures Abs() == R.DeleteMe(old(Abs())).(teardown := old(tearingDown))
      ensures lists.reflist.next == null && lists.finalizing.next == null
    {
      hide R.FinalizeAll, Ids, TrackerLists.Valid, Inv, R.Idle;
      R.TeardownInv(Abs());
      var previous := tearingDown;
      tearingDown := true;
      FinalizeAll(InFinlist);
      FinalizeAll(InReflist);
      HeadOf(InFinlist);
      HeadOf(InReflist);
      tearingDown := previous;
    }
  }
}
