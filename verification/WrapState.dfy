/** How an object remembers what it wraps: internal fields on class instances, a private property elsewhere,
    and the fast slots read without an environment. */
module WrapState {
  import opened Common

  /** An address; 0 is null, and the lowest bit must be clear to store it in an internal field. */
  type Ptr = nat

  datatype Ref = Ref(data: Ptr, userland: bool, finalizer: bool, deleted: bool)

  /** A JavaScript object with its internal field count, fields 0 to 2, the private property, and the references
      that were installed once. */
  datatype Object = Object(fieldCount: nat, f0: Ptr, f1: Ptr, f2: Option<Ref>, key: Option<Ref>, retired: seq<Ref>)

  datatype Op =
    | Wrap(native: Ptr, finalizer: bool, wantsRef: bool)
    | Unwrap
    | RemoveWrap
    | FastWrap(native: Ptr, tag: Ptr, finalizer: bool, wantsRef: bool)
    | FastUnwrap(tag: Ptr)

  datatype Reply = Ok | InvalidArg | Native(p: Ptr)

  // ---- the code's two paths ---------------------------------------------------------------------

  predicate Even(p: Ptr) { p % 2 == 0 }

  /** After the construct call has set the reserved fields to null. */
  function Constructed(fieldCount: nat): Object { Object(fieldCount, 0, 0, None, None, []) }

  predicate UsesFields(o: Object) { o.fieldCount >= 3 }

  function CurrentRef(o: Object): Option<Ref> { if UsesFields(o) then o.f2 else o.key }

  function DoWrap(o: Object, native: Ptr, finalizer: bool, wantsRef: bool): (Object, Reply) {
    if CurrentRef(o).Some? then (o, InvalidArg)
    else if wantsRef && !finalizer then (o, InvalidArg)
    else
      var reference := Some(Ref(native, wantsRef, finalizer, false));
      if UsesFields(o) then (o.(f2 := reference, f0 := if native != 0 && Even(native) then native else o.f0), Ok)
      else (o.(key := reference), Ok)
  }

  /** What a removal does to the reference: the user keeps theirs without a finalizer, the runtime's is deleted. */
  function Retire(r: Ref): Ref {
    if r.userland then r.(finalizer := false) else r.(deleted := true)
  }

  function DoUnwrap(o: Object, remove: bool): (Object, Reply) {
    if !remove && UsesFields(o) && o.f0 != 0 then (o, Native(o.f0))
    else
      match CurrentRef(o)
      case None => (o, InvalidArg)
      case Some(r) =>
        var left := o.(retired := if remove then o.retired + [Retire(r)] else o.retired);
        if !remove then (o, Native(r.data))
        else if UsesFields(o) then (left.(f0 := 0, f1 := 0, f2 := None), Native(r.data))
        else (left.(key := None), Native(r.data))
  }

  function DoFastWrap(o: Object, native: Ptr, tag: Ptr, finalizer: bool, wantsRef: bool): (Object, Reply) {
    if !Even(native) || !Even(tag) then (o, InvalidArg)
    else
      var (o1, reply) := DoWrap(o, native, finalizer, wantsRef);
      if reply != Ok then (o1, reply)
      else
        (o1.(f0 := if o.fieldCount >= 1 then native else o1.f0, f1 := if o.fieldCount >= 2 then tag else o1.f1), Ok)
  }

  function FastRead(o: Object, expected: Ptr): Ptr {
    if o.fieldCount < 1 then 0
    else if expected != 0 && (o.fieldCount < 2 || o.f1 != expected) then 0
    else o.f0
  }

  function Step(o: Object, op: Op): (Object, Reply) {
    match op
    case Wrap(native, finalizer, wantsRef) => DoWrap(o, native, finalizer, wantsRef)
    case Unwrap => DoUnwrap(o, false)
    case RemoveWrap => DoUnwrap(o, true)
    case FastWrap(native, tag, finalizer, wantsRef) => DoFastWrap(o, native, tag, finalizer, wantsRef)
    case FastUnwrap(tag) => (o, Native(FastRead(o, tag)))
  }

  // ---- one simple map ---------------------------------------------------------------------------

  /** A wrap, with what the caller asked for: a finalizer, and a reference of its own. */
  datatype Wrapped =
    | Plain(native: Ptr, finalizer: bool, wantsRef: bool)
    | Fast(native: Ptr, tag: Ptr, finalizer: bool, wantsRef: bool)

  /** What an object wraps, the last pair given to a fast wrap that succeeded, and all wraps that were removed. */
  datatype Meaning = Meaning(current: Option<Wrapped>, last: (Ptr, Ptr), removed: seq<Wrapped>)

  const NOTHING := Meaning(None, (0, 0), [])

  predicate WrapRefused(m: Meaning, finalizer: bool, wantsRef: bool) {
    m.current.Some? || (wantsRef && !finalizer)
  }

  function Means(m: Meaning, op: Op): (Meaning, Reply) {
    match op
    case Wrap(native, finalizer, wantsRef) =>
      if WrapRefused(m, finalizer, wantsRef) then (m, InvalidArg) else (m.(current := Some(Plain(native, finalizer, wantsRef))), Ok)
    case Unwrap =>
      (m, if m.current.Some? then Native(m.current.value.native) else InvalidArg)
    case RemoveWrap =>
      if m.current.None? then (m, InvalidArg)
      else (m.(current := None, removed := m.removed + [m.current.value]), Native(m.current.value.native))
    case FastWrap(native, tag, finalizer, wantsRef) =>
      if !Even(native) || !Even(tag) || WrapRefused(m, finalizer, wantsRef) then (m, InvalidArg)
      else (m.(current := Some(Fast(native, tag, finalizer, wantsRef)), last := (native, tag)), Ok)
    case FastUnwrap(tag) =>
      (m, Native(FastMeaning(m, tag)))
  }

  /** What a fast read should give: the native, if the tag fits and a field could hold it. */
  function FastMeaning(m: Meaning, expected: Ptr): Ptr {
    match m.current
    case None => 0
    case Some(Plain(native, _, _)) => if expected == 0 && Even(native) then native else 0
    case Some(Fast(native, tag, _, _)) => if expected == 0 || expected == tag then native else 0
  }

  /** The object holds what the map says. On three or more fields, a non-null field 0 is the data of the
      reference in field 2, and without a reference both fast fields are null. On one or two fields the fast
      fields keep the last fast pair. */
  predicate Holds(o: Object, m: Meaning) {
    && CurrentRef(o).Some? == m.current.Some?
    && (m.current.Some? ==>
          CurrentRef(o).value == Ref(m.current.value.native, m.current.value.wantsRef, m.current.value.finalizer, false))
    && (o.fieldCount >= 3 ==>
          o.f0 == FastMeaning(m, 0) && o.f1 == (if m.current.Some? && m.current.value.Fast? then m.current.value.tag else 0))
    && (o.fieldCount == 1 || o.fieldCount == 2 ==> o.f0 == m.last.0)
    && (o.fieldCount == 2 ==> o.f1 == m.last.1)
    && (o.fieldCount < 3 || m.current.None? || m.current.value.Plain? || Even(m.current.value.native))
  }

  /** Whether the reply to an operation is independent of how many fields the object has. */
  predicate PathFree(fieldCount: nat, op: Op) { fieldCount >= 3 || !op.FastUnwrap? }

  lemma StepHolds(o: Object, m: Meaning, op: Op)
    requires Holds(o, m)
    ensures Holds(Step(o, op).0, Means(m, op).0) && Step(o, op).0.fieldCount == o.fieldCount
    ensures PathFree(o.fieldCount, op) ==> Step(o, op).1 == Means(m, op).1
  {
    hide Even;
  }

  // ---- runs --------------------------------------------------------------------------------------

  /** The object after a run of operations. */
  function Run(fieldCount: nat, ops: seq<Op>): Object {
    if ops == [] then Constructed(fieldCount) else Step(Run(fieldCount, ops[..|ops| - 1]), ops[|ops| - 1]).0
  }

  /** Over every run the object holds what the map says. */
  lemma {:induction false} RunHolds(fieldCount: nat, ops: seq<Op>)
    ensures Holds(Run(fieldCount, ops), RunMeaning(ops)) && Run(fieldCount, ops).fieldCount == fieldCount
    decreases |ops|
  {
    hide Step, Means;
    if ops != [] {
      var front := ops[..|ops| - 1];
      RunHolds(fieldCount, front);
      StepHolds(Run(fieldCount, front), RunMeaning(front), ops[|ops| - 1]);
    }
  }

  function RunMeaning(ops: seq<Op>): Meaning {
    if ops == [] then NOTHING else Means(RunMeaning(ops[..|ops| - 1]), ops[|ops| - 1]).0
  }

  /** After any run, wrapping, unwrapping and removing answer as the map does, on every field count; class
      instances also answer fast reads so. */
  lemma PathsAgree(fieldCount: nat, ops: seq<Op>, op: Op)
    requires PathFree(fieldCount, op)
    ensures Step(Run(fieldCount, ops), op).1 == Means(RunMeaning(ops), op).1
  {
    hide *;
    RunHolds(fieldCount, ops);
    StepHolds(Run(fieldCount, ops), RunMeaning(ops), op);
  }

  /** The one-read path of napi_unwrap agrees with the reference. */
  lemma FieldZeroIsData(fieldCount: nat, ops: seq<Op>)
    requires fieldCount >= 3
    ensures var o := Run(fieldCount, ops);
      o.f0 != 0 ==> o.f2.Some? && o.f0 == o.f2.value.data && !o.f2.value.deleted
  {
    hide Run, RunMeaning;
    RunHolds(fieldCount, ops);
  }

  /** A fast read with a tag gives p exactly if the current wrap is a fast wrap of p with that tag. */
  lemma FastReadExactly(fieldCount: nat, ops: seq<Op>, tag: Ptr, p: Ptr)
    requires fieldCount >= 3 && tag != 0 && p != 0
    ensures FastRead(Run(fieldCount, ops), tag) == p <==>
            var w := RunMeaning(ops).current; w.Some? && w.value.Fast? && w.value.native == p && w.value.tag == tag
  {
    hide Run, RunMeaning;
    RunHolds(fieldCount, ops);
  }

  /** The reference of a removed wrap: deleted if the runtime owns it, left without a finalizer if the user does. */
  predicate Retired(r: Ref, w: Wrapped) {
    && r.data == w.native && (r.userland <==> w.wantsRef)
    && (if w.wantsRef then !r.finalizer && !r.deleted else r.deleted)
  }

  ghost predicate AllRetired(o: Object, m: Meaning) {
    |o.retired| == |m.removed| && forall i | 0 <= i < |o.retired| :: Retired(o.retired[i], m.removed[i])
  }

  lemma StepRetires(o: Object, m: Meaning, op: Op)
    requires Holds(o, m) && AllRetired(o, m)
    ensures AllRetired(Step(o, op).0, Means(m, op).0)
  {
  }

  /** Over every run, each wrap that was removed left its reference, in order: deleted if the caller had asked for none,
      otherwise the caller's, without its finalizer. */
  lemma {:induction false} RetiredExactly(fieldCount: nat, ops: seq<Op>)
    ensures AllRetired(Run(fieldCount, ops), RunMeaning(ops))
    decreases |ops|
  {
    hide Step, Means, Retired;
    if ops != [] {
      var front := ops[..|ops| - 1];
      RetiredExactly(fieldCount, front);
      RunHolds(fieldCount, front);
      StepRetires(Run(fieldCount, front), RunMeaning(front), ops[|ops| - 1]);
    }
  }

  // ---- one or two fields -------------------------------------------------------------------------

  /** Objects with one or two fields keep the pair of the last fast wrap even after it is removed. */
  lemma FewFieldsKeepLast(fieldCount: nat, ops: seq<Op>, tag: Ptr)
    requires fieldCount <= 2
    ensures FastRead(Run(fieldCount, ops), tag) ==
            if fieldCount == 0 || (tag != 0 && (fieldCount == 1 || RunMeaning(ops).last.1 != tag)) then 0
            else RunMeaning(ops).last.0
  {
    hide Run, RunMeaning;
    RunHolds(fieldCount, ops);
  }

  /** A non-null fast read gives a native that is wrapped now. */
  predicate NeverStale(fieldCount: nat, ops: seq<Op>, tag: Ptr) {
    var p := FastRead(Run(fieldCount, ops), tag);
    p != 0 ==> RunMeaning(ops).current.Some? && RunMeaning(ops).current.value.native == p
  }

  const WRAP_THEN_REMOVE: seq<Op> := [FastWrap(16, 32, false, false), RemoveWrap]

  lemma StaleAfterRemove(fieldCount: nat)
    requires fieldCount == 1 || fieldCount == 2
    ensures FastRead(Run(fieldCount, WRAP_THEN_REMOVE), 0) == 16 && RunMeaning(WRAP_THEN_REMOVE).current == None
    ensures fieldCount == 2 ==> FastRead(Run(fieldCount, WRAP_THEN_REMOVE), 32) == 16
  {
    var ops := WRAP_THEN_REMOVE;
    assert ops[..1] == [FastWrap(16, 32, false, false)] && ops[..1][..0] == [];
    assert RunMeaning(ops[..1]) == Meaning(Some(Fast(16, 32, false, false)), (16, 32), []);
    FewFieldsKeepLast(fieldCount, ops, 0);
    FewFieldsKeepLast(fieldCount, ops, 32);
  }

  /** Fast reads never give a removed native, over all runs and tags, exactly if the object does not have one
      or two internal fields. */
  lemma NeverStaleExactly(fieldCount: nat)
    ensures (forall ops, tag :: NeverStale(fieldCount, ops, tag)) <==> fieldCount != 1 && fieldCount != 2
  {
    hide Run, RunMeaning;
    if fieldCount == 1 || fieldCount == 2 {
      StaleAfterRemove(fieldCount);
      assert !NeverStale(fieldCount, WRAP_THEN_REMOVE, 0);
    } else {
      forall ops, tag
        ensures NeverStale(fieldCount, ops, tag)
      {
        RunHolds(fieldCount, ops);
      }
    }
  }

  // ---- the object, updated in place ---------------------------------------------------------------

  class JsObject {
    const fieldCount: nat
    var f0: Ptr
    var f1: Ptr
    var f2: Option<Ref>
    var key: Option<Ref>
    ghost var retired: seq<Ref>

    ghost function Contents(): Object
      reads this
    {
      Object(fieldCount, f0, f1, f2, key, retired)
    }

    /** FunctionCallbackWrapper::InvokeCallback on a construct call. */
    constructor (fieldCount: nat)
      ensures Contents() == Constructed(fieldCount)
    {
      this.fieldCount := fieldCount;
      f0, f1, f2, key, retired := 0, 0, None, None, [];
    }

    method Wrap(native: Ptr, finalizer: bool, wantsRef: bool) returns (reply: Reply)
      modifies this
      ensures (Contents(), reply) == DoWrap(old(Contents()), native, finalizer, wantsRef)
    {
      var useFields := fieldCount >= 3;
      if useFields {
        if f2.Some? { return InvalidArg; }
      } else if key.Some? {
        return InvalidArg;
      }
      if wantsRef && !finalizer { return InvalidArg; }
      var reference := Ref(native, wantsRef, finalizer, false);
      if useFields {
        f2 := Some(reference);
        if native != 0 && Even(native) { f0 := native; }
      } else {
        key := Some(reference);
      }
      return Ok;
    }

    method Unwrap(remove: bool) returns (reply: Reply)
      modifies this
      ensures (Contents(), reply) == DoUnwrap(old(Contents()), remove)
    {
      var useFields := fieldCount >= 3;
      if !remove && useFields && f0 != 0 { return Native(f0); }
      if useFields {
        if f2.None? { return InvalidArg; }
        var reference := f2.value;
        reply := Native(reference.data);
        if remove {
          f0, f1, f2 := 0, 0, None;
          retired := retired + [Retire(reference)];
        }
        return reply;
      }
      if key.None? { return InvalidArg; }
      var reference := key.value;
      reply := Native(reference.data);
      if remove {
        key := None;
        retired := retired + [Retire(reference)];
      }
    }

    method FastWrap(native: Ptr, tag: Ptr, finalizer: bool, wantsRef: bool) returns (reply: Reply)
      modifies this
      ensures (Contents(), reply) == DoFastWrap(old(Contents()), native, tag, finalizer, wantsRef)
    {
      if !Even(native) { return InvalidArg; }
      if !Even(tag) { return InvalidArg; }
      reply := Wrap(native, finalizer, wantsRef);
      if reply != Ok { return reply; }
      if fieldCount >= 1 { f0 := native; }
      if fieldCount >= 2 { f1 := tag; }
    }

    method FastUnwrap(expected: Ptr) returns (p: Ptr)
      ensures p == FastRead(Contents(), expected)
    {
      if fieldCount < 1 { return 0; }
      if expected != 0 && (fieldCount < 2 || f1 != expected) { return 0; }
      return f0;
    }

    method Perform(op: Op) returns (reply: Reply)
      modifies this
      ensures (Contents(), reply) == Step(old(Contents()), op)
    {
      hide DoWrap, DoUnwrap, DoFastWrap, FastRead;
      match op
      case Wrap(native, finalizer, wantsRef) => reply := Wrap(native, finalizer, wantsRef);
      case Unwrap => reply := Unwrap(false);
      case RemoveWrap => reply := Unwrap(true);
      case FastWrap(native, tag, finalizer, wantsRef) => reply := FastWrap(native, tag, finalizer, wantsRef);
      case FastUnwrap(tag) =>
        var p := FastUnwrap(tag);
        reply := Native(p);
    }
  }

  /** Drives one object through a run; each reply that does not depend on the path is the map's. */
  method Drive(fieldCount: nat, ops: seq<Op>) returns (replies: seq<Reply>)
    ensures |replies| == |ops|
    ensures forall i | 0 <= i < |ops| && PathFree(fieldCount, ops[i]) ::
              replies[i] == Means(RunMeaning(ops[..i]), ops[i]).1
  {
    hide Holds, Means, Step;
    var o := new JsObject(fieldCount);
    replies := [];
    for i := 0 to |ops|
      invariant fresh(o) && o.Contents() == Run(fieldCount, ops[..i])
      invariant |replies| == i
      invariant forall j | 0 <= j < i && PathFree(fieldCount, ops[j]) ::
                  replies[j] == Means(RunMeaning(ops[..j]), ops[j]).1
    {
      if PathFree(fieldCount, ops[i]) { PathsAgree(fieldCount, ops[..i], ops[i]); }
      var reply := o.Perform(ops[i]);
      replies := replies + [reply];
      assert ops[..i + 1][..i] == ops[..i];
    }
  }
}
