/** 128-bit type tags in the three forms they are stored in. */
module TypeTags {
  import opened Common
  import opened BigIntWords

  datatype Tag = Tag(lower: Word, upper: Word)

  // ---- as 32 hexadecimal digits ------------------------------------------------------------------

  function TagText(t: Tag): (s: string)
    ensures |s| == 32
  {
    Fixed(t.lower, 16) + Fixed(t.upper, 16)
  }

  lemma FixedInjective(x: Word, y: Word)
    ensures Fixed(x, 16) == Fixed(y, 16) <==> x == y
  {
    hide Fixed, Pow;
    WordIsSixteenDigits();
    FixedValue(x, 16);
    FixedValue(y, 16);
  }

  /** Comparing the text compares the tags. */
  lemma TagTextExactly(t: Tag, u: Tag)
    ensures TagText(t) == TagText(u) <==> t == u
  {
    hide Fixed;
    FixedInjective(t.lower, u.lower);
    FixedInjective(t.upper, u.upper);
    assert TagText(t)[..16] == Fixed(t.lower, 16) && TagText(t)[16..] == Fixed(t.upper, 16);
    assert TagText(u)[..16] == Fixed(u.lower, 16) && TagText(u)[16..] == Fixed(u.upper, 16);
  }

  // ---- as a BigInt --------------------------------------------------------------------------------

  /** A BigInt keeps no high zero words, so the stored tag may have two words, one or none. */
  function WordsMatch(words: Words, u: Tag): bool {
    if |words| == 2 then words[0] == u.lower && words[1] == u.upper
    else if |words| == 1 then words[0] == u.lower && 0 == u.upper
    else if |words| == 0 then 0 == u.lower && 0 == u.upper
    else false
  }

  /** Of all numbers only the tag itself matches. */
  lemma WordsMatchExactly(n: nat, u: Tag)
    ensures WordsMatch(ToWords(n), u) <==> n == Value([u.lower, u.upper])
  {
    hide Value, ToWords;
    var w := ToWords(n);
    ValueOfWords(n);
    WordsRoundTrip([u.lower, u.upper]);
    assert |w| == 2 ==> w == [w[0], w[1]];
    assert |w| == 1 ==> w == [w[0]];
    assert [u.lower, u.upper][..1] == [u.lower] && [u.lower][..0] == [];
    assert DropHighZeros([u.lower]) == if u.lower == 0 then [] else [u.lower];
    if u.upper == 0 { ValueOfFront([u.lower, u.upper]); }
    if u.upper == 0 && u.lower == 0 { ValueOfFront([u.lower]); }
  }

  lemma SameValue(t: Tag, u: Tag)
    ensures Value([t.lower, t.upper]) == Value([u.lower, u.upper]) <==> t == u
  {
    TwoWords(t);
    TwoWords(u);
  }

  lemma TwoWords(t: Tag)
    ensures Value([t.lower, t.upper]) == t.lower + W * t.upper
  {
    assert [t.lower, t.upper][1..] == [t.upper] && [t.upper][1..] == [];
    assert Value([]) == 0 && Value([t.upper]) == t.upper;
  }

  // ---- the objects --------------------------------------------------------------------------------

  datatype Status = Ok | InvalidArg

  function Text(tag: Option<Tag>): Option<string> {
    match tag case None => None case Some(t) => Some(TagText(t))
  }

  /** An object on the JSC side: the tag is a string under a hidden key, looked up through the prototypes. */
  class TextTagged {
    const prototype: TextTagged?
    var property: Option<string>
    var extensible: bool
    ghost var own: Option<Tag>
    ghost const chain: seq<TextTagged>      // the object, its prototype, and so on

    ghost predicate Valid()
      reads this, chain
      decreases |chain|
    {
      && chain != [] && chain[0] == this && property == Text(own)
      && (if prototype == null then chain == [this] else prototype in chain && prototype.chain == chain[1..] && prototype.Valid())
    }

    /** The tag a lookup finds: its own, or else the nearest prototype's. */
    ghost function Tagged(): Option<Tag>
      requires Valid()
      reads this, chain
      decreases |chain|
    {
      if own.Some? || prototype == null then own else prototype.Tagged()
    }

    constructor (prototype: TextTagged?)
      requires prototype != null ==> prototype.Valid()
      ensures Valid() && fresh(this) && own == None && this.prototype == prototype && extensible
      ensures Tagged() == if prototype == null then None else prototype.Tagged()
    {
      this.prototype, property, own, extensible := prototype, None, None, true;
      chain := [this] + if prototype == null then [] else prototype.chain;
    }

    /** An object is not among its own prototypes. */
    lemma {:induction false} Acyclic(o: TextTagged)
      requires Valid() && o in chain
      ensures o == this || |o.chain| < |chain|
      decreases |chain|
    {
      if prototype != null && o != this {
        assert o in chain[1..];
        prototype.Acyclic(o);
      }
    }

    /** JSObjectGetPropertyForKey. */
    method Lookup() returns (p: Option<string>)
      requires Valid()
      ensures p == Text(Tagged())
      decreases |chain|
    {
      if property.Some? || prototype == null { return property; }
      p := prototype.Lookup();
    }

    /** Object.freeze, seal and preventExtensions: whatever it holds, the object takes no new property. */
    method PreventExtensions()
      requires Valid()
      modifies this`extensible
      ensures Valid() && Tagged() == old(Tagged()) && own == old(own) && !extensible
    {
      if prototype != null && this in prototype.chain { prototype.Acyclic(this); }
      extensible := false;
    }

    /** An untagged object that takes no new property accepts the tag, and drops it without an exception. */
    method TypeTag(t: Tag) returns (status: Status)
      requires Valid()
      modifies this
      ensures Valid() && (status.Ok? <==> old(Tagged()).None?) && extensible == old(extensible)
      ensures own == (if status.Ok? && extensible then Some(t) else old(own))
      ensures Tagged() == if status.Ok? && extensible then Some(t) else old(Tagged())
      ensures prototype != null ==>
        prototype.Valid() && prototype.Tagged() == old(if prototype == null then None else prototype.Tagged())
    {
      var existing := Lookup();
      if existing.Some? { return Status.InvalidArg; }
      if prototype != null && this in prototype.chain { prototype.Acyclic(this); }
      if extensible { property, own := Some(TagText(t)), Some(t); }
      return Ok;
    }

    method CheckTypeTag(u: Tag) returns (result: bool)
      requires Valid()
      ensures result <==> Tagged() == Some(u)
    {
      var found := Lookup();
      if found.None? { return false; }
      TagTextExactly(Tagged().value, u);
      return found.value == TagText(u);
    }
  }

  /** An object on the V8 side: the tag is a BigInt under a private key. */
  class BigIntTagged {
    var privateValue: Option<nat>
    ghost var tag: Option<Tag>

    ghost predicate Valid()
      reads this
    {
      privateValue == match tag case None => None case Some(t) => Some(Value([t.lower, t.upper]))
    }

    constructor ()
      ensures Valid() && tag == None
    {
      privateValue, tag := None, None;
    }

    method TypeTag(t: Tag) returns (status: Status)
      requires Valid()
      modifies this
      ensures Valid() && (status.Ok? <==> old(tag).None?)
      ensures tag == if status.Ok? then Some(t) else old(tag)
    {
      if privateValue.Some? { return Status.InvalidArg; }
      privateValue, tag := Some(Value([t.lower, t.upper])), Some(t);
      return Ok;
    }

    method CheckTypeTag(u: Tag) returns (result: bool)
      requires Valid()
      ensures result <==> tag == Some(u)
    {
      if privateValue.None? { return false; }
      WordsMatchExactly(privateValue.value, u);
      SameValue(tag.value, u);
      return WordsMatch(ToWords(privateValue.value), u);
    }
  }

  /** An external on the V8 side: the tag is kept in the wrapper itself. */
  class ExternalWrapper {
    var typeTag: Tag
    var hasTag: bool

    function Tagged(): Option<Tag>
      reads this
    {
      if hasTag then Some(typeTag) else None
    }

    constructor ()
      ensures Tagged() == None
    {
      typeTag, hasTag := Tag(0, 0), false;
    }

    method TypeTag(t: Tag) returns (ok: bool)
      modifies this
      ensures ok <==> old(Tagged()).None?
      ensures Tagged() == if ok then Some(t) else old(Tagged())
    {
      if hasTag { return false; }
      typeTag, hasTag := t, true;
      return true;
    }

    method CheckTypeTag(u: Tag) returns (result: bool)
      ensures result <==> Tagged() == Some(u)
    {
      return hasTag && u.lower == typeTag.lower && u.upper == typeTag.upper;
    }
  }

  /** Over any sequence of tagging attempts the first one wins, in all three forms, with two exceptions on the JSC side:
      an object whose prototype is tagged has that tag already, and one that takes no new property when the attempts
      begin accepts every tag and keeps none. Freezing it later changes nothing. */
  method FirstTagWins(inherited: Option<Tag>, frozenAt: nat, tags: seq<Tag>, u: Tag)
      returns (text: bool, bigint: bool, external: bool, accepted: nat)
    ensures bigint <==> tags != [] && tags[0] == u
    ensures external == bigint
    ensures text == if inherited.Some? then inherited == Some(u) else bigint && frozenAt > 0
    ensures accepted == if inherited.Some? || tags == [] then 0 else if frozenAt == 0 then |tags| else 1
  {
    accepted := 0;
    var proto := new TextTagged(null);
    if inherited.Some? { var s := proto.TypeTag(inherited.value); }
    var a := new TextTagged(proto);
    var b := new BigIntTagged();
    var c := new ExternalWrapper();
    for i := 0 to |tags|
      invariant a.Valid() && b.Valid() && fresh(a) && fresh(b) && fresh(c)
      invariant b.tag == c.Tagged() && c.Tagged() == if i == 0 then None else Some(tags[0])
      invariant a.extensible <==> i == 0 || i <= frozenAt
      invariant a.Tagged() == if inherited.Some? then inherited else if frozenAt == 0 then None else b.tag
      invariant accepted == if inherited.Some? || i == 0 then 0 else if frozenAt == 0 then i else 1
    {
      if i == frozenAt { a.PreventExtensions(); }
      var s1 := a.TypeTag(tags[i]);
      if s1.Ok? { accepted := accepted + 1; }
      var s2 := b.TypeTag(tags[i]);
      var ok := c.TypeTag(tags[i]);
    }
    text := a.CheckTypeTag(u);
    bigint := b.CheckTypeTag(u);
    external := c.CheckTypeTag(u);
  }

  /** The failing case by itself: a frozen object accepts a tag, does not have it, and accepts another one. */
  method FrozenKeepsNoTag(t: Tag, u: Tag) returns (first: Status, found: bool, second: Status)
    ensures first.Ok? && !found && second.Ok?
  {
    var o := new TextTagged(null);
    o.PreventExtensions();
    first := o.TypeTag(t);
    found := o.CheckTypeTag(t);
    second := o.TypeTag(u);
  }
}
