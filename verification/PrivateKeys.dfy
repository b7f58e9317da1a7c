/** The per-thread cache of the two private keys, although isolate addresses are used again. */
module PrivateKeys {
  import opened Common

  /** 0 is null. */
  type Address = nat

  datatype Kind = Wrapper | TypeTag

  /** A key belongs to the isolate it was made for; isolates are numbered in the order of their creation. */
  datatype Key = Key(isolate: nat, kind: Kind)

  datatype Step = Create(address: Address) | Use(address: Address, kind: Kind) | Destroy(address: Address)

  /** The live isolates by address, and how many have been made. */
  datatype World = World(live: map<Address, nat>, created: nat)

  const EMPTY := World(map[], 0)

  /** Steps a host cannot take change nothing: an address in use is not handed out again, and a dead isolate is
      not entered. */
  predicate Possible(w: World, s: Step) {
    match s
    case Create(a) => a != 0 && a !in w.live
    case Use(a, _) => a in w.live
    case Destroy(a) => a in w.live
  }

  function Next(w: World, s: Step): World {
    if !Possible(w, s) then w
    else
      match s
      case Create(a) => World(w.live[a := w.created], w.created + 1)
      case Use(_, _) => w
      case Destroy(a) => w.(live := map b | b in w.live && b != a :: w.live[b])
  }

  function WorldAfter(steps: seq<Step>): World {
    if steps == [] then EMPTY else Next(WorldAfter(steps[..|steps| - 1]), steps[|steps| - 1])
  }

  lemma WorldStep(steps: seq<Step>, i: nat)
    requires i < |steps|
    ensures WorldAfter(steps[..i + 1]) == Next(WorldAfter(steps[..i]), steps[i])
  {
    assert steps[..i + 1][..i] == steps[..i];
  }

  lemma WorldStart(steps: seq<Step>)
    ensures WorldAfter(steps[..0]) == EMPTY
  {
  }

  /** Each lookup should give the key made for the isolate that lives at the address now. */
  function Expected(w: World, s: Step): Option<Key> {
    if s.Use? && Possible(w, s) then Some(Key(w.live[s.address], s.kind)) else None
  }

  class PrivateKeyCache {
    var cachedIsolate: Address
    var wrapper: Key
    var typeTag: Key

    /** The cache is empty, or it is that of a live isolate. */
    ghost predicate Valid(w: World)
      reads this
    {
      && 0 !in w.live
      && (cachedIsolate != 0 ==>
            && cachedIsolate in w.live
            && wrapper == Key(w.live[cachedIsolate], Wrapper)
            && typeTag == Key(w.live[cachedIsolate], TypeTag))
    }

    constructor ()
      ensures cachedIsolate == 0
    {
      cachedIsolate, wrapper, typeTag := 0, Key(0, Wrapper), Key(0, TypeTag);
    }

    /** current is the address of the entered isolate, and isolate that isolate: the registry's own lookup. */
    method GetPrivateKey(current: Address, isolate: nat, kind: Kind, ghost w: World) returns (key: Key)
      requires Valid(w) && current in w.live && w.live[current] == isolate
      modifies this
      ensures Valid(w) && key == Key(isolate, kind)
    {
      if cachedIsolate != current {
        cachedIsolate := current;
        wrapper := Key(isolate, Wrapper);
        typeTag := Key(isolate, TypeTag);
      }
      key := if kind == Wrapper then wrapper else typeTag;
    }

    /** Called just before the isolate is disposed of. */
    method Forget(address: Address, ghost w: World)
      requires Valid(w) && address in w.live
      modifies this
      ensures Valid(Next(w, Destroy(address)))
    {
      if cachedIsolate == address { cachedIsolate := 0; }
    }
  }

  /** Over any order of creating, using and destroying isolates on one thread, with addresses used again, every
      lookup gives a key made for the isolate that lives there. */
  method Drive(steps: seq<Step>) returns (keys: seq<Option<Key>>)
    ensures |keys| == |steps|
    ensures forall i | 0 <= i < |steps| :: keys[i] == Expected(WorldAfter(steps[..i]), steps[i])
  {
    hide WorldAfter;
    WorldStart(steps);
    var cache := new PrivateKeyCache();
    var live: map<Address, nat>, created := map[], 0;
    keys := [];
    for i := 0 to |steps|
      invariant fresh(cache) && cache.Valid(WorldAfter(steps[..i])) && WorldAfter(steps[..i]) == World(live, created)
      invariant |keys| == i && forall j | 0 <= j < i :: keys[j] == Expected(WorldAfter(steps[..j]), steps[j])
    {
      var w := World(live, created);
      var found := None;
      if Possible(w, steps[i]) {
        match steps[i] {
          case Create(a) =>
            live, created := live[a := created], created + 1;
          case Use(a, kind) =>
            var key := cache.GetPrivateKey(a, live[a], kind, w);
            found := Some(key);
          case Destroy(a) =>
            cache.Forget(a, w);
            live := map b | b in live && b != a :: live[b];
        }
      }
      WorldStep(steps, i);
      keys := keys + [found];
    }
  }
}
