/** Conditions on the text of a program: what no call in it does, no run of it does. */
module RefTrackingPrograms {
  import opened Common
  import opened RefTracking
  import opened RefTrackingSafety
  import opened RefTrackingRuns
  import opened RefTrackingCalls

  type Allowed = Step -> bool

  /** All calls of the script are allowed, and all calls of the callbacks it registers. */
  predicate ScriptOk(p: Script, ok: Allowed)
    decreases p
  {
    p == [] || (ok(p[0]) && StepOk(p[0], ok) && ScriptOk(p[1..], ok))
  }

  predicate CallbackOk(cb: Callback, ok: Allowed)
    decreases cb
  {
    cb.Calls? ==> ScriptOk(cb.script, ok)
  }

  /** All calls of the callback that the call registers are allowed. */
  predicate StepOk(s: Step, ok: Allowed)
    decreases s
  {
    match s
    case Wrap(_, cb) => CallbackOk(cb, ok)
    case AddFinalizer(_, cb) => CallbackOk(cb, ok)
    case PostFinalizer(cb) => CallbackOk(cb, ok)
    case SetInstanceData(cb) => CallbackOk(cb, ok)
    case _ => true
  }

  ghost predicate HeapOk(e: Env, ok: Allowed) {
    forall i: Id {:trigger e.heap[i]} :: i < |e.heap| ==> CallbackOk(e.heap[i].callback, ok)
  }

  /** The test finds disallowed calls only. */
  ghost predicate Excludes(ok: Allowed, test: Test) { forall e: Env, s: Step :: test(e, s) ==> !ok(s) }

  lemma UpdateOk(e: Env, r: Env, id: Id, ok: Allowed)
    requires HeapOk(e, ok) && id < |e.heap| == |r.heap| && r.heap == e.heap[id := r.heap[id]]
    requires r.heap[id].callback == e.heap[id].callback || r.heap[id].callback == Null
    ensures HeapOk(r, ok)
  {
    assert CallbackOk(e.heap[id].callback, ok);
  }

  lemma NewOk(e: Env, t: Tracker, ok: Allowed)
    requires HeapOk(e, ok) && CallbackOk(t.callback, ok)
    ensures HeapOk(New(e, t), ok)
  {
    hide Stored;
  }

  lemma {:induction false} NeverExec(e: Env, s: Step, ok: Allowed, test: Test)
    requires HeapOk(e, ok) && StepOk(s, ok) && Excludes(ok, test)
    ensures HeapOk(Exec(e, s), ok) && (ok(s) ==> !AnyExec(e, s, test))
    decreases Stored(e.heap) + StepSize(s), 0
  {
    hide WeakCallback, AnyCollect, Stored;
    if Enabled(e, s) {
      if s.Collect? {
        NeverCollect(e, s.id, ok, test);
      } else {
        LeafOk(e, s, ok);
      }
    }
  }

  lemma LeafOk(e: Env, s: Step, ok: Allowed)
    requires HeapOk(e, ok) && StepOk(s, ok) && Enabled(e, s) && !s.Collect?
    ensures HeapOk(Exec(e, s), ok)
  {
    hide Stored, Created, Destroy, New, Put, HeapOk, DoRef, DoUnref, ReplaceInstance;
    if s.Delete? {
      DestroyOk(e, s.id, GiveUp(e.heap[s.id]).(deleted := true), ok);
    } else if s.RemoveWrap? {
      DestroyOk(e, s.id, GiveUp(e.heap[s.id]), ok);
      PutOk(e, s.id, GiveUp(e.heap[s.id]).(callback := Null, wraps := false), ok);
    } else if s.SetInstanceData? {
      ReplaceOk(e, s.cb, ok);
    } else if s.Ref? || s.Unref? {
      CountedCallback(e.heap[s.id]);
      PutOk(e, s.id, DoRef(e.heap[s.id]), ok);
      PutOk(e, s.id, DoUnref(e.heap[s.id]), ok);
      SameHeapOk(Put(e, s.id, if s.Ref? then DoRef(e.heap[s.id]) else DoUnref(e.heap[s.id])), Exec(e, s), ok);
    } else if s.PostFinalizer? {
      NewOk(e, NewTracked(s.cb), ok);
      SameHeapOk(New(e, NewTracked(s.cb)), Exec(e, s), ok);
    } else if s.GetValue? || s.GetInstanceData? {
      SameHeapOk(e, Exec(e, s), ok);
    } else if Created(e, s).Some? {
      CreatedCallback(e, s, ok);
      NewOk(e, Created(e, s).value, ok);
    }
  }

  lemma SameHeapOk(e: Env, r: Env, ok: Allowed)
    requires HeapOk(e, ok) && r.heap == e.heap
    ensures HeapOk(r, ok)
  {
  }

  lemma CountedCallback(t: Tracker)
    ensures DoRef(t).callback == t.callback && DoUnref(t).callback == t.callback
  {
  }

  lemma CreatedCallback(e: Env, s: Step, ok: Allowed)
    requires (s.CreateReference? || s.Wrap? || s.AddFinalizer?) && StepOk(s, ok) && Created(e, s).Some?
    ensures CallbackOk(Created(e, s).value.callback, ok)
  {
  }

  lemma PutOk(e: Env, id: Id, t: Tracker, ok: Allowed)
    requires HeapOk(e, ok) && id < |e.heap| && (t.callback == e.heap[id].callback || t.callback == Null)
    ensures HeapOk(Put(e, id, t), ok)
  {
    hide Stored, HeapOk;
    UpdateOk(e, Put(e, id, t), id, ok);
  }

  lemma DestroyOk(e: Env, id: Id, t: Tracker, ok: Allowed)
    requires HeapOk(e, ok) && id < |e.heap| && t.callback == e.heap[id].callback
    ensures HeapOk(Destroy(e, id, t), ok)
  {
    hide Stored, HeapOk;
    UpdateOk(e, Destroy(e, id, t), id, ok);
  }

  lemma ReplaceOk(e: Env, cb: Callback, ok: Allowed)
    requires HeapOk(e, ok) && CallbackOk(cb, ok) && Enabled(e, SetInstanceData(cb))
    ensures HeapOk(ReplaceInstance(e, cb), ok)
  {
    hide Stored, Destroy, New, HeapOk;
    var d := e;
    if e.instance.Some? {
      d := DropInstance(e, e.instance.value);
      DestroyOk(e, e.instance.value, GiveUp(e.heap[e.instance.value]), ok);
      SameHeapOk(e, e.(fault := true), ok);
    }
    NewOk(d, NewTracked(cb), ok);
    SameHeapOk(New(d, NewTracked(cb)), ReplaceInstance(e, cb), ok);
  }

  lemma {:induction false} NeverCollect(e: Env, id: Id, ok: Allowed, test: Test)
    requires HeapOk(e, ok) && id < |e.heap| && Excludes(ok, test)
    ensures HeapOk(WeakCallback(e, id), ok) && !AnyCollect(e, id, test)
    decreases Stored(e.heap), 2
  {
    hide Finalize, AnyFinalize, Stored, HeapOk;
    var c := Put(e, id, e.heap[id].(hold := Empty));
    PutOk(e, id, c.heap[id], ok);
    assert Finalizing(e.heap[id]) ==> WeakCallback(e, id) == InvokeFinalizerFromGC(c, id);
    if !Finalizing(e.heap[id]) {
      NeverFinalize(c, id, ok, test);
    } else if e.experimental {
      SameHeapOk(c, c.(inGc := true), ok);
      NeverFinalize(c.(inGc := true), id, ok, test);
      SameHeapOk(Finalize(c.(inGc := true), id), WeakCallback(e, id), ok);
    } else {
      SameHeapOk(c, WeakCallback(e, id), ok);
    }
  }

  lemma {:induction false} NeverFinalize(e: Env, id: Id, ok: Allowed, test: Test)
    requires HeapOk(e, ok) && id < |e.heap| && Excludes(ok, test)
    ensures HeapOk(Finalize(e, id), ok) && !AnyFinalize(e, id, test)
    decreases Stored(e.heap), 0
  {
    hide Stored, EndFinalize;
    var u := Detach(e, id);
    assert CallbackOk(e.heap[id].callback, ok);
    UpdateOk(e, u, id, ok);
    var c := u;
    if e.heap[id].callback.Calls? {
      NeverScript(u, e.heap[id].callback.script, ok, test);
      c := RunScript(u, e.heap[id].callback.script);
    }
    EndOk(c, id, DeletesItself(e, id), ok);
  }

  lemma EndOk(c: Env, id: Id, deleteMe: bool, ok: Allowed)
    requires HeapOk(c, ok) && id < |c.heap|
    ensures HeapOk(EndFinalize(c, id, deleteMe), ok)
  {
    hide Stored, HeapOk;
    UpdateOk(c, EndFinalize(c, id, deleteMe), id, ok);
  }

  lemma {:induction false} NeverScript(e: Env, p: Script, ok: Allowed, test: Test)
    requires HeapOk(e, ok) && ScriptOk(p, ok) && Excludes(ok, test)
    ensures HeapOk(RunScript(e, p), ok) && !AnyScript(e, p, test)
    decreases Stored(e.heap) + Size(p), 1
  {
    hide HeapOk, Excludes, Exec, AnyExec;
    if p != [] {
      NeverExec(e, p[0], ok, test);
      NeverScript(Exec(e, p[0]), p[1..], ok, test);
    }
  }

  lemma {:induction false} NeverDrain(e: Env, begin: Begin, ok: Allowed, test: Test)
    requires Inv(e) && Idle(e) && Chooses(begin) && HeapOk(e, ok) && Excludes(ok, test)
    ensures HeapOk(DrainLoop(e, begin), ok) && !AnyDrain(e, begin, test)
    decreases Stored(e.heap), |e.pending|
  {
    hide Good, Finalize, AnyFinalize, HeapOk, Excludes;
    if e.pending != {} {
      DrainOneInv(e, begin);
      var id := begin(e.heap, e.pending);
      SameHeapOk(e, e.(pending := e.pending - {id}), ok);
      NeverFinalize(e.(pending := e.pending - {id}), id, ok, test);
      NeverDrain(DrainOne(e, begin), begin, ok, test);
    }
  }

  lemma {:induction false} NeverFinalizeAll(e: Env, which: Home, ok: Allowed, test: Test)
    requires Inv(e) && Idle(e) && e.teardown && which != Nowhere && HeapOk(e, ok) && Excludes(ok, test)
    ensures HeapOk(FinalizeAll(e, which), ok) && !AnyFinalizeAll(e, which, test)
    decreases Stored(e.heap), |ListIn(e, which)|
  {
    hide Good, Finalize, AnyFinalize, HeapOk, Excludes;
    if ListIn(e, which) != [] {
      HeadInv(e, which);
      NeverFinalize(e, ListIn(e, which)[0], ok, test);
      NeverFinalizeAll(Finalize(e, ListIn(e, which)[0]), which, ok, test);
    }
  }

  /** All calls of the callbacks that the program registers are allowed; with all, those of the program too. */
  predicate ProgramOk(cmds: seq<Command>, ok: Allowed, all: bool) {
    forall c | c in cmds :: c.Call? ==> StepOk(c.step, ok) && (all ==> ok(c.step))
  }

  lemma {:induction false} NeverRun(e: Env, cmds: seq<Command>, begin: Begin, ok: Allowed, all: bool, test: Test)
    requires Inv(e) && Idle(e) && Chooses(begin) && HeapOk(e, ok) && Excludes(ok, test) && ProgramOk(cmds, ok, all)
    ensures HeapOk(Run(e, cmds, begin), ok) && (all ==> !AnyRun(e, cmds, begin, test))
    decreases cmds
  {
    hide Inv, Idle, Exec, AnyExec, DrainLoop, AnyDrain, HeapOk, Excludes;
    if cmds != [] {
      assert cmds[0] in cmds && ProgramOk(cmds[1..], ok, all);
      match cmds[0]
      case Call(s) =>
        NeverExec(e, s, ok, test);
        ExecInv(e, s);
        IdleLater(e, Exec(e, s));
        NeverRun(Exec(e, s), cmds[1..], begin, ok, all, test);
      case Tick =>
        DrainingInv(e, true);
        SameHeapOk(e, e.(draining := true), ok);
        if !e.draining && !e.inGc {
          NeverDrain(e.(draining := true), begin, ok, test);
          SameHeapOk(DrainLoop(e.(draining := true), begin), Drain(e, begin), ok);
        }
        NeverRun(Drain(e, begin), cmds[1..], begin, ok, all, test);
    }
  }

  lemma NeverTeardown(e: Env, ok: Allowed, test: Test)
    requires Inv(e) && Idle(e) && HeapOk(e, ok) && Excludes(ok, test)
    ensures !AnyTeardown(e, test)
  {
    hide FinalizeAll, AnyFinalizeAll, HeapOk, Excludes;
    SameHeapOk(e, Dying(e), ok);
    NeverFinalizeAll(Dying(e), InFinlist, ok, test);
    NeverFinalizeAll(FinalizeAll(Dying(e), InFinlist), InReflist, ok, test);
  }

  predicate GivesNothingUp(s: Step) { !s.Delete? && !s.RemoveWrap? && !s.SetInstanceData? }

  predicate TouchesNothing(s: Step) {
    !s.Ref? && !s.Unref? && !s.Delete? && !s.GetValue? && !s.SetInstanceData? && !s.GetInstanceData?
  }

  /** When nothing in the program or its callbacks deletes, unwraps or sets instance data, every registered finalizer
      has run exactly once by the end of teardown. */
  lemma ProgramKeepsFinalizers(experimental: bool, cmds: seq<Command>, begin: Begin, i: Id)
    requires Chooses(begin) && ProgramOk(cmds, GivesNothingUp, true)
    requires i < |WholeRun(experimental, cmds, begin).heap|
    ensures var t := WholeRun(experimental, cmds, begin).heap[i]; t.runs == if t.registered then 1 else 0
  {
    hide Inv, Idle, Run, AnyRun, AnyTeardown, WholeRun, HeapOk;
    InitInv(experimental);
    InitOk(experimental, GivesNothingUp);
    NeverGivesUp(i);
    NeverRun(Init(experimental), cmds, begin, GivesNothingUp, true, GivesUp(i));
    NeverTeardown(Run(Init(experimental), cmds, begin), GivesNothingUp, GivesUp(i));
    FinalizersRunExactlyOnce(experimental, cmds, begin, i);
  }

  lemma InitOk(experimental: bool, ok: Allowed)
    ensures HeapOk(Init(experimental), ok) && Idle(Init(experimental))
  {
  }

  lemma NeverGivesUp(i: Id)
    ensures Excludes(GivesNothingUp, GivesUp(i))
  {
  }

  lemma NeverFaulty()
    ensures Excludes(TouchesNothing, Faulty)
  {
  }

  /** When no finalizer counts, deletes or reads references, nor sets or reads instance data, no run touches a freed
      tracker, whatever the program itself calls. */
  lemma ProgramTouchesNothingFreed(experimental: bool, cmds: seq<Command>, begin: Begin)
    requires Chooses(begin) && ProgramOk(cmds, TouchesNothing, false)
    ensures !WholeRun(experimental, cmds, begin).fault
  {
    hide Inv, Idle, Run, AnyRun, AnyTeardown, WholeRun, HeapOk;
    InitInv(experimental);
    InitOk(experimental, TouchesNothing);
    NeverFaulty();
    NeverRun(Init(experimental), cmds, begin, TouchesNothing, false, Faulty);
    NeverTeardown(Run(Init(experimental), cmds, begin), TouchesNothing, Faulty);
    FreedTouchedExactly(experimental, cmds, begin);
  }
}
