/** Programs whose finalizers touch a freed tracker in teardown. */
module RefTrackingFaults {
  import opened Common
  import opened RefTracking
  import opened RefTrackingSafety
  import opened RefTrackingRuns
  import opened RefTrackingCalls

  /** One finalizer with one call, and behind it a newer tracker that DeleteMe finalizes first. */
  ghost predicate OneCallBehind(e: Env, s: Step) {
    && Inv(e) && Idle(e) && !e.teardown && |e.heap| == 2 && e.finlist == [1, 0] && e.reflist == [] && e.pending == {}
    && e.heap[0].callback == Calls([s]) && e.heap[1].callback in {Null, Calls([])}
    && !e.heap[0].finalizing && e.heap[0].alive && !e.inGc
  }

  /** When the call in the older finalizer is faulty with the newer tracker freed, DeleteMe faults. */
  lemma CallFaults(e: Env, s: Step)
    requires OneCallBehind(e, s)
    requires var d := Detach(Finalize(Dying(e), 1), 0); Faulty(d, s)
    ensures DeleteMe(e).fault
  {
    hide Good, Stored, Faulty, Inv, Finalize, Detach, AnyFinalize, AnyFinalizeAll, DeleteMe, FinalizeAll;
    var m := Finalize(Dying(e), 1);
    FinalizeNewer(e, s);
    OneCallFaults(m, s);
    TurnFaults(m);
    LaterTurnFaults(Dying(e));
    TeardownFault(e);
  }

  lemma OneCallFaults(m: Env, s: Step)
    requires m.heap != [] && m.heap[0].callback == Calls([s]) && Faulty(Detach(m, 0), s)
    ensures AnyFinalize(m, 0, Faulty)
  {
    hide Stored, Detach, Exec, Enabled;
    FaultyEnabled(Detach(m, 0), s);
    assert AnyScript(Detach(m, 0), [s], Faulty);
  }

  lemma TurnFaults(m: Env)
    requires Inv(m) && Idle(m) && m.teardown && m.finlist != [] && m.finlist[0] < |m.heap|
    requires AnyFinalize(m, m.finlist[0], Faulty)
    ensures AnyFinalizeAll(m, InFinlist, Faulty)
  {
    hide Inv, Idle, Stored, Faulty, AnyFinalize, Finalize;
    HeadInv(m, InFinlist);
  }

  lemma LaterTurnFaults(t: Env)
    requires Inv(t) && Idle(t) && t.teardown && t.finlist != [] && t.finlist[0] < |t.heap|
    requires var m := Finalize(t, t.finlist[0]); Inv(m) && Idle(m) && m.teardown && AnyFinalizeAll(m, InFinlist, Faulty)
    ensures AnyFinalizeAll(t, InFinlist, Faulty)
  {
    hide Inv, Idle, Stored, Faulty, AnyFinalize, Finalize;
    HeadInv(t, InFinlist);
  }

  lemma FaultyEnabled(e: Env, s: Step)
    requires Faulty(e, s)
    ensures Enabled(e, s)
  {
  }

  lemma FinalizeNewer(e: Env, s: Step)
    requires OneCallBehind(e, s)
    ensures var m := Finalize(Dying(e), 1);
      m.finlist == [0] && |m.heap| == 2 && m.heap[0] == e.heap[0] && !m.heap[1].alive && m.instance == e.instance
      && m.heap[1].deleted == e.heap[1].deleted && m.heap[1].ownership == e.heap[1].ownership
      && m.heap[1].kind == e.heap[1].kind && !m.heap[1].finalizing && m.inGc == e.inGc
      && Inv(m) && Idle(m) && m.teardown
  {
    hide Good, Stored, Detach, EndFinalize, Inv, Idle;
    var t := Dying(e);
    HeadInv(t, InFinlist);
    DetachNewer(t);
    assert RunScript(Detach(t, 1), []) == Detach(t, 1);
    EndNewer(Detach(t, 1));
  }

  lemma DetachNewer(t: Env)
    requires |t.heap| == 2 && t.finlist == [1, 0]
    ensures var u := Detach(t, 1);
      u.finlist == [0] && |u.heap| == 2 && u.heap[0] == t.heap[0] && u.instance == t.instance && SameFlags(t, u)
      && u.heap[1].deleted == t.heap[1].deleted && u.heap[1].ownership == t.heap[1].ownership
      && u.heap[1].kind == t.heap[1].kind
  {
    hide Stored;
    assert Remove([1, 0], 1) == [0];
  }

  lemma EndNewer(u: Env)
    requires |u.heap| == 2 && u.finlist == [0]
    ensures var m := EndFinalize(u, 1, true);
      m.finlist == [0] && |m.heap| == 2 && m.heap[0] == u.heap[0] && !m.heap[1].alive && m.instance == u.instance
      && m.heap[1].deleted == u.heap[1].deleted && m.heap[1].ownership == u.heap[1].ownership
      && m.heap[1].kind == u.heap[1].kind && !m.heap[1].finalizing
  {
    hide Stored;
    assert Remove([0], 1) == [0] by { assert Remove([0][1..], 1) == []; }
  }

  /** An object finalizer that makes one call, and a newer handle with a finalizer of its own. */
  function OlderThanHandle(s: Step): seq<Command> {
    [Call(AddFinalizer(false, Calls([s]))), Call(AddFinalizer(true, Calls([])))]
  }

  /** An object finalizer that makes one call, and then instance data. */
  function OlderThanInstance(s: Step): seq<Command> {
    [Call(AddFinalizer(false, Calls([s]))), Call(SetInstanceData(Null))]
  }

  lemma AfterTwoCalls(s: Step, second: Step, begin: Begin)
    requires Chooses(begin)
    requires second == AddFinalizer(true, Calls([])) || second == SetInstanceData(Null)
    ensures
      var e := Run(Init(false), [Call(AddFinalizer(false, Calls([s]))), Call(second)], begin);
      && OneCallBehind(e, s)
      && (second.SetInstanceData? ==> e.instance == Some(1))
      && (second.AddFinalizer? ==>
            e.heap[1].ownership == Userland && !e.heap[1].deleted && e.heap[1].kind == ReferenceWithFinalizer)
  {
    hide Good, Stored, StepSize, CallbackSize;
    var first := AddFinalizer(false, Calls([s]));
    var cmds := [Call(first), Call(second)];
    InitInv(false);
    ExecInv(Init(false), first);
    var e1 := Exec(Init(false), first);
    IdleLater(Init(false), e1);
    ExecInv(e1, second);
    IdleLater(e1, Exec(e1, second));
    assert cmds[1..] == [Call(second)] && [Call(second)][1..] == [];
    assert Run(e1, [Call(second)], begin) == Exec(e1, second);
  }

  predicate Uses(s: Step, h: Id) { s == Step.Delete(h) || s == GetValue(h) || s == Ref(h) || s == Unref(h) }

  lemma UseOfNewer(e: Env, s: Step)
    requires OneCallBehind(e, s) && Uses(s, 1) && e.heap[1].ownership == Userland && !e.heap[1].deleted
    requires e.heap[1].kind == ReferenceWithFinalizer
    ensures DeleteMe(e).fault
  {
    hide Good, Stored, Inv, Idle, DeleteMe, Exec, Finalize, Detach;
    FinalizeNewer(e, s);
    DetachOther(Finalize(Dying(e), 1));
    CallFaults(e, s);
  }

  lemma InstanceOfNewer(e: Env, s: Step)
    requires OneCallBehind(e, s) && (s.SetInstanceData? || s.GetInstanceData?) && e.instance == Some(1)
    ensures DeleteMe(e).fault
  {
    hide Good, Stored, Inv, Idle, DeleteMe, Exec, Finalize, Detach;
    FinalizeNewer(e, s);
    DetachOther(Finalize(Dying(e), 1));
    CallFaults(e, s);
  }

  /** A finalizer that deletes, reads or counts a newer handle with a finalizer of its own: DeleteMe has freed it. */
  lemma NewerHandleFaults(s: Step, begin: Begin)
    requires Chooses(begin) && Uses(s, 1)
    ensures WholeRun(false, OlderThanHandle(s), begin).fault
  {
    hide OneCallBehind, Inv, Idle, Run, DeleteMe;
    StartGood();
    AfterTwoCalls(s, AddFinalizer(true, Calls([])), begin);
    UseOfNewer(Run(Init(false), OlderThanHandle(s), begin), s);
  }

  /** A finalizer that reads or replaces instance data set after it: DeleteMe has freed the old tracker. */
  lemma NewerInstanceFaults(s: Step, begin: Begin)
    requires Chooses(begin) && (s.SetInstanceData? || s.GetInstanceData?)
    ensures WholeRun(false, OlderThanInstance(s), begin).fault
  {
    hide OneCallBehind, Inv, Idle, Run, DeleteMe;
    StartGood();
    AfterTwoCalls(s, SetInstanceData(Null), begin);
    InstanceOfNewer(Run(Init(false), OlderThanInstance(s), begin), s);
  }

  lemma StartGood()
    ensures Inv(Init(false)) && Idle(Init(false))
  {
    InitInv(false);
  }

  lemma DetachOther(m: Env)
    requires |m.heap| == 2
    ensures var d := Detach(m, 0);
      |d.heap| == 2 && d.heap[1] == m.heap[1] && d.instance == m.instance && d.inGc == m.inGc && d.experimental == m.experimental
  {
    hide Stored;
  }

  /** An older weak handle and a finalizer that uses it after a collection, which frees it because of the teardown flag. */
  function CollectsThenUses(s: Step): seq<Command> {
    [Call(CreateReference(0, true)), Call(AddFinalizer(false, Calls([Step.Collect(0), s])))]
  }

  ghost predicate WeakBelow(e: Env, s: Step) {
    && Inv(e) && Idle(e) && !e.teardown && |e.heap| == 2 && e.finlist == [1] && !e.inGc && e.pending == {}
    && e.heap[1].callback == Calls([Step.Collect(0), s])
    && e.heap[0] == NewReference(PlainReference, Userland, 0, true, Null, false)
  }

  lemma AfterWeakBelow(s: Step, begin: Begin)
    requires Chooses(begin)
    ensures WeakBelow(Run(Init(false), CollectsThenUses(s), begin), s)
  {
    hide Good, Stored, StepSize, CallbackSize;
    var first, second := CreateReference(0, true), AddFinalizer(false, Calls([Step.Collect(0), s]));
    var cmds := CollectsThenUses(s);
    InitInv(false);
    ExecInv(Init(false), first);
    var e1 := Exec(Init(false), first);
    IdleLater(Init(false), e1);
    ExecInv(e1, second);
    IdleLater(e1, Exec(e1, second));
    assert cmds[1..] == [Call(second)] && [Call(second)][1..] == [];
    assert Run(e1, [Call(second)], begin) == Exec(e1, second);
  }

  /** The collection frees the weak handle. */
  lemma CollectFrees(u: Env)
    requires u.teardown && !u.inGc && u.heap != [] && u.heap[0] == NewReference(PlainReference, Userland, 0, true, Null, false)
    ensures var r := Exec(u, Step.Collect(0));
      && |r.heap| == |u.heap| && !r.heap[0].alive && r.heap[0].ownership == Userland && !r.heap[0].deleted
      && r.heap[0].kind == PlainReference && !r.heap[0].finalizing && r.inGc == u.inGc
  {
    hide Stored, RunScript;
    var c := Put(u, 0, u.heap[0].(hold := Empty));
    assert c.heap[0] == u.heap[0].(hold := Empty);
    var d := Detach(c, 0);
    assert Finalize(c, 0) == EndFinalize(d, 0, true);
    assert Exec(u, Step.Collect(0)) == Finalize(c, 0);
  }

  lemma CollectThenUse(e: Env, s: Step)
    requires WeakBelow(e, s) && Uses(s, 0)
    ensures DeleteMe(e).fault
  {
    hide Good, Stored, Inv, DeleteMe, FinalizeAll, AnyFinalizeAll, Exec;
    var d := Dying(e);
    var u := Detach(d, 1);
    var p := [Step.Collect(0), s];
    CollectFrees(u);
    var c := Exec(u, Step.Collect(0));
    assert p[1..] == [s] && Faulty(c, s);
    assert AnyScript(c, [s], Faulty);
    assert AnyScript(u, p, Faulty);
    TurnFaults(d);
    TeardownFault(e);
  }

  /** A finalizer that uses an older weak handle after its collection. */
  lemma CollectedHandleFaults(s: Step, begin: Begin)
    requires Chooses(begin) && Uses(s, 0)
    ensures WholeRun(false, CollectsThenUses(s), begin).fault
  {
    hide WeakBelow, Inv, Idle, Run, DeleteMe;
    StartGood();
    AfterWeakBelow(s, begin);
    CollectThenUse(Run(Init(false), CollectsThenUses(s), begin), s);
  }
}
