/** The circular lists that all queues of the runtime are made of (common.h).

    A list is a ring of links through a head link that is no element.  Nothing
    but the `next` and `prev` fields is stored; the ghost sequence `elems` says
    which links they chain, and in what order. */
module CircularList {
  import opened Sequences

  class Link {
    var next: Link
    var prev: Link

    /** ST_INIT_CLIST */
    constructor ()
      ensures next == this && prev == this
    {
      next, prev := this, this;
    }
  }

  function Succ(ring: seq<Link>, i: nat): Link
    requires i < |ring|
  {
    if i + 1 < |ring| then ring[i + 1] else ring[0]
  }

  function Pred(ring: seq<Link>, i: nat): Link
    requires i < |ring|
  {
    if i > 0 then ring[i - 1] else ring[|ring| - 1]
  }

  ghost predicate LinkOk(ring: seq<Link>, i: nat)
    requires i < |ring|
    reads ring
  {
    ring[i].next == Succ(ring, i) && ring[i].prev == Pred(ring, i)
  }

  predicate Distinct(q: seq<Link>) {
    forall i, j :: 0 <= i < j < |q| ==> q[i] != q[j]
  }

  ghost predicate Ring(ring: seq<Link>)
    reads ring
  {
    Distinct(ring) && forall i :: 0 <= i < |ring| ==> LinkOk(ring, i)
  }

  /** Those of q that are not in `gone`, in order. */
  function Kept(q: seq<Link>, gone: set<Link>): seq<Link> {
    if q == [] then [] else (if q[0] in gone then [] else [q[0]]) + Kept(q[1..], gone)
  }

  /** The ring with e put in at position `at`. */
  predicate PutIn(ring: seq<Link>, ring': seq<Link>, e: Link, at: nat) {
    && 0 < at <= |ring| && |ring'| == |ring| + 1 && ring'[at] == e
    && (forall i {:trigger ring'[i]} :: 0 <= i < at ==> ring'[i] == ring[i])
    && (forall i :: at < i < |ring'| ==> ring'[i] == ring[i - 1])
  }

  lemma PutInDistinct(ring: seq<Link>, ring': seq<Link>, e: Link, at: nat)
    requires PutIn(ring, ring', e, at)
    ensures Distinct(ring') <==> Distinct(ring) && e !in ring
  {
    if Distinct(ring') {
      forall i, j | 0 <= i < j < |ring|
        ensures ring[i] != ring[j]
      {
        assert ring'[if i < at then i else i + 1] != ring'[if j < at then j else j + 1];
      }
      forall i | 0 <= i < |ring|
        ensures ring[i] != e
      {
        assert ring'[if i < at then i else i + 1] == ring[i];
      }
    }
    if Distinct(ring) && e !in ring {
      forall i, j | 0 <= i < j < |ring'|
        ensures ring'[i] != ring'[j]
      {
        assert i == at || ring'[i] == ring[if i < at then i else i - 1];
        assert j == at || ring'[j] == ring[if j < at then j else j - 1];
      }
    }
  }

  /** Only the neighbours of the new link get new neighbours. */
  lemma Neighbours(ring: seq<Link>, ring': seq<Link>, e: Link, at: nat, i: nat)
    requires PutIn(ring, ring', e, at) && i < |ring|
    ensures Succ(ring', at) == Succ(ring, at - 1) && Pred(ring', at) == ring[at - 1]
    ensures var i' := if i < at then i else i + 1;
      && ring'[i'] == ring[i]
      && Succ(ring', i') == (if i == at - 1 then e else Succ(ring, i))
      && Pred(ring', i') == (if i == (if at == |ring| then 0 else at) then e else Pred(ring, i))
  {
  }

  lemma SameLink(ring: seq<Link>, i: nat, j: nat)
    requires Distinct(ring) && i < |ring| && j < |ring|
    ensures ring[i] == ring[j] <==> i == j
  {
  }

  /** The links of a ring that was opened in front of position `at`, to let in
      the link e. */
  ghost predicate Opened(ring: seq<Link>, e: Link, at: nat)
    requires 0 < at <= |ring|
    reads ring, e
  {
    && e.next == Succ(ring, at - 1) && e.prev == ring[at - 1]
    && (forall i :: 0 <= i < |ring| ==> OpenAt(ring, e, at, i))
  }

  ghost predicate OpenAt(ring: seq<Link>, e: Link, at: nat, i: nat)
    requires 0 < at <= |ring| && i < |ring|
    reads ring
  {
    && ring[i].next == (if i == at - 1 then e else Succ(ring, i))
    && ring[i].prev == (if i == (if at == |ring| then 0 else at) then e else Pred(ring, i))
  }

  /** The four assignments of ST_INSERT_BEFORE. */
  method Splice(ghost ring: seq<Link>, e: Link, l: Link, ghost at: nat)
    requires Ring(ring) && e !in ring && 0 < at <= |ring| && l == Succ(ring, at - 1)
    modifies e, ring
    ensures Opened(ring, e, at)
  {
    assert LinkOk(ring, if at == |ring| then 0 else at);
    e.next := l;
    e.prev := l.prev;
    l.prev.next := e;
    l.prev := e;
    forall i | 0 <= i < |ring|
      ensures OpenAt(ring, e, at, i)
    {
      assert old(LinkOk(ring, i)) && ring[i] in ring;
      SameLink(ring, i, at - 1);
      SameLink(ring, i, if at == |ring| then 0 else at);
    }
  }

  lemma Spliced(ring: seq<Link>, ring': seq<Link>, e: Link, at: nat)
    requires PutIn(ring, ring', e, at) && Distinct(ring) && e !in ring && Opened(ring, e, at)
    ensures Ring(ring')
  {
    PutInDistinct(ring, ring', e, at);
    forall i' | 0 <= i' < |ring'|
      ensures LinkOk(ring', i')
    {
      var i := if i' < at then i' else i' - 1;
      Neighbours(ring, ring', e, at, i);
      assert OpenAt(ring, e, at, i);
    }
  }

  lemma RingWith(head: Link, q: seq<Link>, q': seq<Link>, e: Link, k: nat)
    requires k <= |q| && q' == if k == 0 then q + [e] else q[..k - 1] + [e] + q[k - 1..]
    ensures PutIn([head] + q, [head] + q', e, if k == 0 then |q| + 1 else k)
  {
  }

  class List {
    const head: Link
    ghost var elems: seq<Link>

    ghost predicate Valid()
      reads this, head, elems
    {
      Ring([head] + elems)
    }

    ghost function Links(): set<Link>
      reads this
    {
      set l | l in elems
    }

    lemma HeadOutside()
      requires Valid()
      ensures head !in elems
    {
      var ring := [head] + elems;
      forall i | 0 <= i < |elems|
        ensures elems[i] != head
      {
        assert ring[0] == head && ring[i + 1] == elems[i];
      }
    }

    constructor ()
      ensures Valid() && elems == [] && fresh(head)
    {
      head := new Link();
      elems := [];
      new;
      ghost var ring := [head] + elems;
      assert |ring| == 1 && LinkOk(ring, 0);
    }

    /** ST_INSERT_BEFORE, in front of the link at position k of the ring. */
    method InsertBefore(e: Link, l: Link, ghost k: nat)
      requires Valid() && e != head && e !in elems && k <= |elems| && l == ([head] + elems)[k]
      modifies this, e, head, Links()
      ensures Valid() && elems == if k == 0 then old(elems) + [e] else old(elems)[..k - 1] + [e] + old(elems)[k - 1..]
    {
      ghost var ring, at := [head] + elems, if k == 0 then |elems| + 1 else k;
      assert forall x :: x in ring ==> x == head || x in Links();
      Splice(ring, e, l, at);
      elems := if k == 0 then elems + [e] else elems[..k - 1] + [e] + elems[k - 1..];
      RingWith(head, old(elems), elems, e, k);
      Spliced(ring, [head] + elems, e, at);
    }

    /** ST_APPEND_LINK */
    method Append(e: Link)
      requires Valid() && e != head && e !in elems
      modifies this, e, head, Links()
      ensures Valid() && elems == old(elems) + [e]
    {
      InsertBefore(e, head, 0);
    }

    /** What `_st_stack_free` does: the place is not the tail, but the one in
        front of it. */
    method AppendBeforeTail(e: Link)
      requires Valid() && e != head && e !in elems
      modifies this, e, head, Links()
      ensures Valid()
      ensures elems == if old(elems) == [] then [e] else old(elems)[..|old(elems)| - 1] + [e] + [old(elems)[|old(elems)| - 1]]
    {
      assert LinkOk([head] + elems, 0);
      InsertBefore(e, head.prev, |elems|);
    }

    /** ST_REMOVE_LINK.  The removed link keeps its own fields. */
    method Remove(e: Link, ghost k: nat)
      requires Valid() && k < |elems| && elems[k] == e
      modifies this, head, Links()
      ensures Valid() && elems == old(elems)[..k] + old(elems)[k + 1..]
      ensures e.next == old(e.next) && e !in elems
    {
      ghost var ring := [head] + elems;
      assert LinkOk(ring, k + 1);
      e.prev.next := e.next;
      e.next.prev := e.prev;
      elems := elems[..k] + elems[k + 1..];
      ghost var ring' := [head] + elems;
      assert PutIn(ring', ring, e, k + 1);
      PutInDistinct(ring', ring, e, k + 1);
      forall i | 0 <= i < |ring'|
        ensures LinkOk(ring', i)
      {
        assert old(LinkOk(ring, if i <= k then i else i + 1));
      }
      assert forall l :: l in elems ==> l in ring';
    }

    /** A walk that takes the links of `gone` off the list while it passes them:
        it visits every link that was on the list exactly once and in order,
        although it reads the next link from one that may have just been
        removed. */
    method Sweep(gone: set<Link>) returns (ghost visited: seq<Link>)
      requires Valid()
      modifies this, head, Links()
      ensures Valid() && visited == old(elems) && elems == Kept(old(elems), gone)
    {
      visited := [];
      ghost var kept: seq<Link>, rest := [], elems;
      assert LinkOk([head] + elems, 0);
      var q := head.next;
      while q != head
        invariant Valid() && elems == kept + rest && visited + rest == old(elems)
        invariant Links() <= old(Links())
        invariant q == if rest == [] then head else rest[0]
        invariant rest != [] ==> q in elems
        invariant kept + Kept(rest, gone) == Kept(old(elems), gone)
        decreases |rest|
      {
        ghost var k := |kept|;
        HeadTail(rest, 0);
        Ends(rest);
        Regroup(visited, [q], rest[1..]);
        Regroup(kept, [q], rest[1..]);
        Regroup(kept, [q], Kept(rest[1..], gone));
        assert elems[k] == q && LinkOk([head] + elems, k + 1);
        visited := visited + [q];
        if q in gone {
          Remove(q, k);
        } else {
          kept := kept + [q];
        }
        rest := rest[1..];
        q := q.next;
      }
      HeadOutside();
      assert visited + rest == visited && kept + rest == kept;
    }
  }
}
