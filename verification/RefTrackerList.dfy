/** The two intrusive doubly linked lists of trackers, on the heap: pointers updated in place implement the
    sequences on which the state machine in RefTracking works. */
module RefTrackerList {
  import opened Common

  ghost function NonNull(t: RefTracker?): set<RefTracker> { if t == null then {} else {t} }

  /** A node of an intrusive list; a list starts at a node of its own that precedes the first element. */
  class RefTracker {
    const id: nat
    var next: RefTracker?
    var prev: RefTracker?

    constructor (id: nat)
      ensures this.id == id && next == null && prev == null
    {
      this.id, next, prev := id, null, null;
    }

    method Link(list: RefTracker)
      requires this != list && list.next != this && list.next != list
      modifies this`next, this`prev, list`next, NonNull(list.next)`prev
      ensures prev == list && next == old(list.next) && list.next == this
      ensures old(list.next) != null ==> old(list.next).prev == this
    {
      prev := list;
      next := list.next;
      if next != null { next.prev := this; }
      list.next := this;
    }

    method Unlink()
      requires next != this && prev != this
      modifies this`next, this`prev, NonNull(next)`prev, NonNull(prev)`next
      ensures next == null && prev == null
      ensures old(prev) != null ==> old(prev).next == old(next)
      ensures old(next) != null ==> old(next).prev == old(prev)
    {
      if prev != null { prev.next := next; }
      if next != null { next.prev := prev; }
      prev := null;
      next := null;
    }
  }

  /** From the head the pointers run through exactly these nodes, forwards and backwards. */
  ghost predicate Linked(head: RefTracker, nodes: seq<RefTracker>)
    reads head, nodes
  {
    && head !in nodes && NoDup(nodes)
    && head.prev == null && head.next == (if nodes == [] then null else nodes[0])
    && (forall k: nat {:trigger Joined(head, nodes, k)} :: k < |nodes| ==> Joined(head, nodes, k))
  }

  /** Node k points at both its neighbours. */
  ghost predicate Joined(head: RefTracker, nodes: seq<RefTracker>, k: nat)
    requires k < |nodes|
    reads head, nodes
  {
    && nodes[k].prev == (if k == 0 then head else nodes[k - 1])
    && nodes[k].next == if k == |nodes| - 1 then null else nodes[k + 1]
  }

  /** Linking at the head makes the node the first of the list, and leaves another list as it is. */
  method PushFront(t: RefTracker, head: RefTracker, ghost nodes: seq<RefTracker>,
                   ghost other: RefTracker, ghost others: seq<RefTracker>)
    requires Linked(head, nodes) && t != head && t !in nodes
    requires Linked(other, others) && other != head && other !in nodes && head !in others && t != other && t !in others
    requires forall u | u in nodes :: u !in others
    modifies t`next, t`prev, head`next, NonNull(head.next)`prev
    ensures Linked(head, [t] + nodes) && Linked(other, others)
  {
    assert nodes != [] ==> Joined(head, nodes, 0) && nodes[0] in nodes;
    t.Link(head);
    forall j: nat | j < |others| ensures Joined(other, others, j) {
      assert others[j] in others && old(Joined(other, others, j));
    }
    ghost var r := [t] + nodes;
    forall k: nat | k < |r| ensures Joined(head, r, k) {
      if k > 0 { assert r[k] == nodes[k - 1] && old(Joined(head, nodes, k - 1)); }
    }
  }

  /** The list without its node k, if there is one. */
  ghost function Without(nodes: seq<RefTracker>, k: nat): (w: seq<RefTracker>)
    ensures forall u :: u in w ==> u in nodes
    ensures |w| == if k < |nodes| then |nodes| - 1 else |nodes|
    ensures forall i | 0 <= i < |w| :: w[i] == nodes[if i < k then i else i + 1]
  {
    if k < |nodes| then nodes[..k] + nodes[k + 1..] else nodes
  }

  /** Unlinking node k takes exactly that node out of its list; unlinking a node that points nowhere changes
      nothing. */
  method TakeOut(t: RefTracker, ghost head: RefTracker, ghost nodes: seq<RefTracker>, ghost k: nat)
    requires Linked(head, nodes) && if k < |nodes| then nodes[k] == t else t.next == null && t.prev == null
    requires t != head && (k >= |nodes| ==> t !in nodes)
    modifies t`next, t`prev, NonNull(t.next)`prev, NonNull(t.prev)`next
    ensures Linked(head, Without(nodes, k)) && t.next == null && t.prev == null
  {
    if k < |nodes| { Neighbours(head, nodes, k); }
    t.Unlink();
    ghost var r := Without(nodes, k);
    forall j: nat | j < |r| ensures Joined(head, r, j) {
      assert old(Joined(head, nodes, if j < k then j else j + 1));
    }
  }

  /** The neighbours of a node are nodes of the same list, or its head. */
  lemma Neighbours(head: RefTracker, nodes: seq<RefTracker>, k: nat)
    requires Linked(head, nodes) && k < |nodes|
    ensures Joined(head, nodes, k)
    ensures k > 0 ==> Joined(head, nodes, k - 1)
    ensures k + 1 < |nodes| ==> Joined(head, nodes, k + 1)
    ensures nodes[k].next == null || nodes[k].next in nodes
    ensures nodes[k].prev == head || nodes[k].prev in nodes
    ensures nodes[k].prev != nodes[k] && nodes[k].next != nodes[k]
  {
    assert Joined(head, nodes, k);
  }

  lemma WithoutKeeps(nodes: seq<RefTracker>, k: nat, u: RefTracker)
    requires u in nodes && (k < |nodes| ==> nodes[k] != u)
    ensures u in Without(nodes, k)
  {
    var i :| 0 <= i < |nodes| && nodes[i] == u;
    if k < |nodes| { assert Without(nodes, k)[if i < k then i else i - 1] == u; }
  }

  /** Taking the node at its position out is removing the element, as RefTracking does it. */
  lemma {:induction false} RemoveAt(s: seq<nat>, k: nat)
    requires NoDup(s) && k < |s|
    ensures Remove(s, s[k]) == s[..k] + s[k + 1..]
  {
    if k > 0 {
      RemoveAt(s[1..], k - 1);
      assert s[1..][k - 1] == s[k] && s[0] != s[k];
      assert s[1..][..k - 1] == s[1..k] && s[..k] == [s[0]] + s[1..k];
      assert s[1..][k - 1 + 1..] == s[k + 1..];
    }
  }

  lemma RemoveAbsent(s: seq<nat>, x: nat)
    requires x !in s
    ensures Remove(s, x) == s
  {
    if s != [] { RemoveAbsent(s[1..], x); }
  }

  /** The identities of the nodes of a list. */
  function Ids(nodes: seq<RefTracker>): (ids: seq<nat>)
    ensures |ids| == |nodes| && forall i | 0 <= i < |nodes| :: ids[i] == nodes[i].id
  {
    seq(|nodes|, i requires 0 <= i < |nodes| => nodes[i].id)
  }

  lemma IdsFront(t: RefTracker, nodes: seq<RefTracker>)
    ensures Ids([t] + nodes) == [t.id] + Ids(nodes)
  {
  }

  lemma IdsWithout(nodes: seq<RefTracker>, k: nat)
    requires k < |nodes| && NoDup(Ids(nodes))
    ensures Ids(Without(nodes, k)) == Remove(Ids(nodes), nodes[k].id)
  {
    hide Ids, Remove, Without;
    RemoveAt(Ids(nodes), k);
    var a, b := Ids(Without(nodes, k)), Ids(nodes)[..k] + Ids(nodes)[k + 1..];
    forall i | 0 <= i < |a| ensures a[i] == b[i] {
      assert a[i] == nodes[if i < k then i else i + 1].id;
    }
    assert a == b;
  }

  /** reflist and finalizing_reflist over all trackers ever made, each known by its index. */
  class TrackerLists {
    const reflist: RefTracker
    const finalizing: RefTracker
    var trackers: seq<RefTracker>
    ghost var refs: seq<RefTracker>
    ghost var fins: seq<RefTracker>

    ghost function Nodes(): set<RefTracker>
      reads this
    {
      {reflist, finalizing} + (set t | t in trackers)
    }

    ghost predicate Distinct()
      reads this
    {
      && reflist != finalizing && reflist !in trackers && finalizing !in trackers
      && (forall i: nat {:trigger trackers[i]} :: i < |trackers| ==> trackers[i].id == i)
      && (forall t {:trigger t in refs} :: t in refs ==> t in trackers && t !in fins)
      && (forall t {:trigger t in fins} :: t in fins ==> t in trackers && t !in refs)
    }

    /** A tracker on neither list points nowhere. */
    ghost predicate Loose(t: RefTracker)
      reads this, t
    {
      t in refs || t in fins || (t.next == null && t.prev == null)
    }

    /** Both lists are well formed, over disjoint trackers. */
    ghost predicate Valid()
      reads this, Nodes(), refs, fins
    {
      && Distinct() && Linked(reflist, refs) && Linked(finalizing, fins)
      && forall t {:trigger Loose(t)} :: t in trackers ==> Loose(t)
    }

    constructor ()
      ensures Valid() && trackers == [] && refs == [] && fins == []
      ensures fresh(Nodes())
    {
      reflist := new RefTracker(0);
      finalizing := new RefTracker(0);
      trackers, refs, fins := [], [], [];
    }

    /** What follows a head is the first of its list. */
    lemma Heads()
      requires Valid()
      ensures NonNull(reflist.next) <= Nodes() && NonNull(finalizing.next) <= Nodes()
      ensures reflist.next != null ==> reflist.next in refs
      ensures finalizing.next != null ==> finalizing.next in fins
      ensures reflist !in refs && reflist !in fins && finalizing !in refs && finalizing !in fins
    {
      assert refs != [] ==> refs[0] in refs;
      assert fins != [] ==> fins[0] in fins;
    }

    /** The pointer writes of Link, seen from both lists. */
    method LinkNode(t: RefTracker, inFinalizing: bool)
      requires Valid() && t !in Nodes()
      modifies Nodes(), t
      ensures Linked(reflist, if inFinalizing then refs else [t] + refs)
      ensures Linked(finalizing, if inFinalizing then [t] + fins else fins)
      ensures forall u | u in trackers && u !in refs && u !in fins :: u.next == old(u.next) && u.prev == old(u.prev)
    {
      hide Ids, NoDup, Linked, Joined;
      Heads();
      if inFinalizing {
        PushFront(t, finalizing, fins, reflist, refs);
      } else {
        PushFront(t, reflist, refs, finalizing, fins);
      }
    }

    /** A new tracker, linked at the head of its list. */
    method New(inFinalizing: bool) returns (id: nat)
      requires Valid()
      modifies this, Nodes()
      ensures Valid() && id == old(|trackers|) && |trackers| == id + 1
      ensures fresh(Nodes() - old(Nodes()))
      ensures Ids(refs) == if inFinalizing then old(Ids(refs)) else [id] + old(Ids(refs))
      ensures Ids(fins) == if inFinalizing then [id] + old(Ids(fins)) else old(Ids(fins))
    {
      hide Ids, NoDup, Linked, Joined;
      id := |trackers|;
      var t := new RefTracker(id);
      LinkNode(t, inFinalizing);
      IdsFront(t, fins);
      IdsFront(t, refs);
      if inFinalizing { fins := [t] + fins; } else { refs := [t] + refs; }
      trackers := trackers + [t];
      forall u | u in trackers ensures Loose(u) {
        assert u != t ==> old(Loose(u));
      }
    }

    /** The position of the tracker in the list, or the length of the list. */
    ghost function Position(nodes: seq<RefTracker>, t: RefTracker): (k: nat)
      ensures if t in nodes then k < |nodes| && nodes[k] == t else k == |nodes|
    {
      if t in nodes then
        var k: nat :| k < |nodes| && nodes[k] == t;
        k
      else |nodes|
    }

    /** The pointer writes of Unlink, seen from both lists. */
    method UnlinkNode(t: RefTracker)
      requires Valid() && t in trackers
      modifies Nodes()
      ensures Linked(reflist, Without(refs, Position(refs, t))) && Linked(finalizing, Without(fins, Position(fins, t)))
      ensures t.next == null && t.prev == null
      ensures forall u | u in trackers && u !in refs && u !in fins && u != t :: u.next == old(u.next) && u.prev == old(u.prev)
    {
      hide Ids, Remove, NoDup, Without;
      Known(t);
      ghost var inFins := t in fins;
      TakeOut(t, if inFins then finalizing else reflist, if inFins then fins else refs,
              if inFins then Position(fins, t) else Position(refs, t));
      forall j: nat | j < |refs| && t !in refs ensures Joined(reflist, refs, j) {
        assert refs[j] in refs && old(Joined(reflist, refs, j));
      }
      forall j: nat | j < |fins| && t !in fins ensures Joined(finalizing, fins, j) {
        assert fins[j] in fins && old(Joined(finalizing, fins, j));
      }
      NothingWithout(refs, t);
      NothingWithout(fins, t);
    }

    lemma NothingWithout(nodes: seq<RefTracker>, t: RefTracker)
      ensures t !in nodes ==> Without(nodes, Position(nodes, t)) == nodes
    {
    }

    /** Unlinks a tracker from whatever list it is on; a second time it changes nothing. */
    method Unlink(id: nat)
      requires Valid() && id < |trackers|
      modifies this`refs, this`fins, Nodes()
      ensures Valid() && trackers == old(trackers) && Nodes() == old(Nodes())
      ensures Ids(refs) == Remove(old(Ids(refs)), id) && Ids(fins) == Remove(old(Ids(fins)), id)
    {
      hide Ids, Remove, Linked, Without, Position;
      var t := trackers[id];
      ghost var r, f := Position(refs, t), Position(fins, t);
      ghost var was, wasFins := refs, fins;
      NoRepeats();
      IdsRemoved(refs, t);
      IdsRemoved(fins, t);
      UnlinkNode(t);
      refs, fins := Without(refs, r), Without(fins, f);
      forall u | u in trackers ensures Loose(u) {
        assert old(Loose(u));
        if u != t && u in was { WithoutKeeps(was, r, u); }
        if u != t && u in wasFins { WithoutKeeps(wasFins, f, u); }
      }
    }

    lemma NoRepeats()
      requires Valid()
      ensures NoDup(refs) && NoDup(fins)
    {
    }

    /** The neighbours of a tracker are on its list. */
    lemma Known(t: RefTracker)
      requires Valid() && t in trackers
      ensures t !in refs || t !in fins
      ensures NonNull(t.next) <= Nodes() && NonNull(t.prev) <= Nodes()
      ensures t in refs ==> (t.next == null || t.next in refs) && (t.prev == reflist || t.prev in refs)
      ensures t in fins ==> (t.next == null || t.next in fins) && (t.prev == finalizing || t.prev in fins)
      ensures t !in refs && t !in fins ==> t.next == null && t.prev == null
    {
      assert Loose(t);
      if t in refs {
        Neighbours(reflist, refs, Position(refs, t));
      } else if t in fins {
        Neighbours(finalizing, fins, Position(fins, t));
      }
    }

    lemma IdsRemoved(nodes: seq<RefTracker>, t: RefTracker)
      requires Distinct() && (nodes == refs || nodes == fins) && NoDup(nodes) && t in trackers
      ensures Ids(Without(nodes, Position(nodes, t))) == Remove(Ids(nodes), t.id)
      ensures NoDup(Ids(nodes))
    {
      assert forall u | u in nodes :: u in trackers;
      forall i, j | 0 <= i < j < |nodes| ensures nodes[i].id != nodes[j].id {
        SameId(nodes[i], nodes[j]);
      }
      if t in nodes {
        IdsWithout(nodes, Position(nodes, t));
      } else {
        forall i | 0 <= i < |nodes| ensures Ids(nodes)[i] != t.id {
          SameId(nodes[i], t);
        }
        RemoveAbsent(Ids(nodes), t.id);
      }
    }

    /** The index of a tracker is its identity. */
    lemma SameId(t: RefTracker, u: RefTracker)
      requires Distinct() && t in trackers && u in trackers
      ensures t.id == u.id ==> t == u
    {
      var i: nat :| i < |trackers| && trackers[i] == t;
      var j: nat :| j < |trackers| && trackers[j] == u;
    }
  }
}
