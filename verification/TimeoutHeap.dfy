/** The timeout heap of the State Threads scheduler (sched.c).

    The sleep queue is a binary tree of the thread objects themselves: there is
    no array, only the `left`, `right` and `heapIndex` fields.  A node is found
    by walking down from the root along the binary digits of its index, and the
    tree is repaired by relinking nodes one at a time.

    The ghost sequence `nodes` lists the threads by index (index i at position
    i - 1); `Linked` says that the pointers realise exactly that layout. */
module TimeoutHeap {
  import opened ThreadTypes
  import opened Wrappers
  import S = Sched

  /** A thread object.  `id` stands for its address; `left`, `right`, `due` and
      `heapIndex` belong to the sleep queue. */
  class Thread {
    const id: S.Tid
    var state: ThreadState
    var interrupted: bool
    var timedOut: bool
    var onSleepq: bool
    var call: S.Call
    var term: bool
    var retval: int
    var stack: Option<S.Stack>
    var due: int
    var left: Thread?
    var right: Thread?
    var heapIndex: nat

    constructor (id: S.Tid, joinable: bool, stk: Option<S.Stack>)
      ensures Record() == S.Thread(Runnable, false, false, false, S.NoCall, joinable, 0, stk) && this.id == id
    {
      this.id := id;
      state, interrupted, timedOut, onSleepq := Runnable, false, false, false;
      call, term, retval, stack := S.NoCall, joinable, 0, stk;
      due, heapIndex := 0, 0;
      left, right := null, null;
    }

    /** The thread as the state machine knows it. */
    function Record(): S.Thread
      reads `state, `interrupted, `timedOut, `onSleepq, `call, `term, `retval, `stack
    {
      S.Thread(state, interrupted, timedOut, onSleepq, call, term, retval, stack)
    }
  }

  /** A place that holds a link: the pointer-to-pointer of the C code. */
  datatype Slot = RootSlot | LeftOf(owner: Thread) | RightOf(owner: Thread)

  // ---------------------------------------------------------------- layout

  /** The node with index i, or null when the tree has no such node. */
  ghost function At(h: seq<Thread>, i: int): Thread? {
    if 1 <= i <= |h| then h[i - 1] else null
  }

  ghost predicate NodeOk(h: seq<Thread>, i: int)
    requires 1 <= i <= |h|
    reads h`left, h`right, h`heapIndex
  {
    && h[i - 1].heapIndex == i
    && h[i - 1].left == At(h, 2 * i)
    && h[i - 1].right == At(h, 2 * i + 1)
  }

  /** No child of node i is due before node i. */
  ghost predicate OrderedAt(h: seq<Thread>, i: int)
    requires 1 <= i <= |h|
    reads h`due
  {
    && (2 * i <= |h| ==> h[i - 1].due <= h[2 * i - 1].due)
    && (2 * i + 1 <= |h| ==> h[i - 1].due <= h[2 * i].due)
  }

  /** In order everywhere, except that node k may be too late for its place;
      its parent is not due after its children, so it can change places with
      either of them. */
  ghost predicate OrderedBut(h: seq<Thread>, k: int)
    reads h`due
  {
    && 1 <= k <= |h|
    && (forall i :: 1 <= i <= |h| && i != k ==> OrderedAt(h, i))
    && (k > 1 && 2 * k <= |h| ==> h[k / 2 - 1].due <= h[2 * k - 1].due)
    && (k > 1 && 2 * k + 1 <= |h| ==> h[k / 2 - 1].due <= h[2 * k].due)
  }

  /** Exchanging node k with its earlier child c, when c is due before it,
      leaves only node c possibly too late. */
  lemma SwapOrder(h: seq<Thread>, k: int, c: int)
    requires OrderedBut(h, k) && c / 2 == k && c <= |h|
    requires h[c - 1].due < h[k - 1].due
    requires 2 * k <= |h| ==> h[c - 1].due <= h[2 * k - 1].due
    requires 2 * k + 1 <= |h| ==> h[c - 1].due <= h[2 * k].due
    ensures OrderedBut(h[k - 1 := h[c - 1]][c - 1 := h[k - 1]], c)
  {
    var h' := h[k - 1 := h[c - 1]][c - 1 := h[k - 1]];
    assert OrderedAt(h, c);
    forall i | 1 <= i <= |h'| && i != c
      ensures OrderedAt(h', i)
    {
      if i != k {
        assert OrderedAt(h, i);
      }
    }
  }

  /** After node k was replaced, only node k can be out of order: what now
      stands above it is due no later than what stood there before. */
  lemma ReplacedOrder(h0: seq<Thread>, h: seq<Thread>, k: int)
    requires Ordered(h0) && |h| == |h0| && 1 <= k <= |h|
    requires forall i :: k <= i < |h| ==> h[i] == h0[i]
    requires forall i :: 0 <= i < k - 1 ==> h[i].due <= h0[i].due
    requires forall i :: 1 <= i <= |h| && i != k ==> OrderedAt(h, i)
    ensures OrderedBut(h, k)
  {
    assert OrderedAt(h0, k);
    if k > 1 {
      assert OrderedAt(h0, k / 2);
    }
  }

  lemma SplitLast(h: seq<Thread>)
    requires |h| > 0
    ensures forall t :: t in h <==> t in h[..|h| - 1] || t == h[|h| - 1]
  {
    assert h == h[..|h| - 1] + [h[|h| - 1]];
  }

  ghost predicate Distinct(h: seq<Thread>) {
    forall i, j :: 0 <= i < j < |h| ==> h[i] != h[j]
  }

  lemma DistinctSwap(h: seq<Thread>, i: nat, j: nat)
    requires Distinct(h) && i < |h| && j < |h|
    ensures Distinct(h[i := h[j]][j := h[i]])
  {
  }

  lemma AtSwapped(h: seq<Thread>, h': seq<Thread>, i: int, j: int, k: int)
    requires 1 <= i < j <= |h| && h' == h[i - 1 := h[j - 1]][j - 1 := h[i - 1]]
    ensures At(h', k) == if k == i then h[j - 1] else if k == j then h[i - 1] else At(h, k)
  {
  }

  lemma SameNode(h: seq<Thread>, i: int, j: int)
    requires Distinct(h) && 1 <= i <= |h| && 1 <= j <= |h|
    ensures h[i - 1] == h[j - 1] <==> i == j
  {
  }

  ghost predicate Linked(h: seq<Thread>, root: Thread?)
    reads h`left, h`right, h`heapIndex
  {
    && root == At(h, 1)
    && (forall i :: 1 <= i <= |h| ==> NodeOk(h, i))
  }

  ghost predicate Ordered(h: seq<Thread>)
    reads h`due
  {
    forall i :: 1 <= i <= |h| ==> OrderedAt(h, i)
  }

  /** The slot through which node i is reached. */
  ghost function SlotOf(h: seq<Thread>, i: int): Slot
    requires 1 <= i && i / 2 <= |h|
  {
    if i == 1 then RootSlot
    else if i % 2 == 0 then LeftOf(h[i / 2 - 1])
    else RightOf(h[i / 2 - 1])
  }

  // ------------------------------------------------- the digits of an index

  /** n >> k */
  function Shr(n: nat, k: nat): nat {
    if k == 0 then n else Shr(n, k - 1) / 2
  }

  lemma ShrShrinks(n: nat, k: nat)
    ensures Shr(n, k) <= n
    ensures k > 0 && n > 0 ==> Shr(n, k) < n
  {
  }

  /** The number of significant bits of an index. */
  method CountBits(n: nat) returns (bits: int)
    ensures bits >= 0
    ensures n > 0 ==> bits > 0 && Shr(n, bits - 1) == 1
  {
    var s := n;
    bits := 0;
    while s > 0
      invariant bits >= 0 && s == Shr(n, bits)
      invariant s == 0 && n > 0 ==> bits > 0 && Shr(n, bits - 1) == 1
    {
      s := s / 2;
      bits := bits + 1;
    }
  }

  /** The node reached from `t` by following the digits of `target` from digit
      `bit` down to digit 0: 1 leads right and 0 leads left. */
  ghost function Walk(h: seq<Thread>, t: Thread?, target: nat, bit: int): Thread?
    requires -1 <= bit
    reads h
    decreases bit
  {
    if bit < 0 || t == null || t !in h then t
    else Walk(h, if Shr(target, bit) % 2 == 1 then t.right else t.left, target, bit - 1)
  }

  lemma {:induction false} WalkFrom(h: seq<Thread>, root: Thread?, target: nat, bit: int)
    requires Linked(h, root) && 1 <= target <= |h| && -1 <= bit
    requires Shr(target, bit + 1) >= 1
    ensures Walk(h, At(h, Shr(target, bit + 1)), target, bit) == h[target - 1]
    decreases bit
  {
    ShrShrinks(target, bit + 1);
    if bit < 0 {
    } else {
      var i := Shr(target, bit + 1);
      assert NodeOk(h, i) && Shr(target, bit) / 2 == i;
      ShrShrinks(target, bit);
      WalkFrom(h, root, target, bit - 1);
    }
  }

  /** A thread's index spells its path: the digits after the leading one lead
      from the root to the thread that stores this index, and to no other. */
  lemma IndexSpellsPath(h: seq<Thread>, root: Thread?, t: Thread, bits: nat)
    requires Linked(h, root) && t in h
    requires Shr(t.heapIndex, bits) == 1
    ensures Walk(h, root, t.heapIndex, bits - 1) == t
    ensures 1 <= t.heapIndex <= |h| && h[t.heapIndex - 1] == t
  {
    var k :| 0 <= k < |h| && h[k] == t;
    assert NodeOk(h, k + 1);
    WalkFrom(h, root, t.heapIndex, bits - 1);
  }

  /** The root is due first. */
  lemma {:induction false} RootIsEarliest(h: seq<Thread>, i: int)
    requires Ordered(h) && 1 <= i <= |h|
    ensures h[0].due <= h[i - 1].due
    decreases i
  {
    if i == 1 {
    } else {
      RootIsEarliest(h, i / 2);
      assert OrderedAt(h, i / 2);
    }
  }

  // ------------------------------------------------------------ the queue

  class SleepQueue {
    var root: Thread?
    var size: nat
    ghost var nodes: seq<Thread>

    /** A well-formed timeout heap. */
    ghost predicate Valid()
      reads this, nodes`left, nodes`right, nodes`heapIndex, nodes`due
    {
      && size == |nodes|
      && Distinct(nodes)
      && Linked(nodes, root)
      && Ordered(nodes)
    }

    constructor ()
      ensures Valid() && nodes == []
    {
      root, size, nodes := null, 0, [];
    }

    /** The thread a slot currently leads to: `*p`. */
    function Load(p: Slot): Thread?
      reads this, if p.RootSlot? then {} else {p.owner}
    {
      match p
      case RootSlot => root
      case LeftOf(o) => o.left
      case RightOf(o) => o.right
    }

    /** `*p = t` */
    method Store(p: Slot, t: Thread?)
      modifies this`root, (if p.LeftOf? then {p.owner} else {})`left, (if p.RightOf? then {p.owner} else {})`right
      ensures if p.RootSlot? then root == t else unchanged(this`root)
      ensures p.LeftOf? ==> p.owner.left == t
      ensures p.RightOf? ==> p.owner.right == t
    {
      match p
      case RootSlot => root := t;
      case LeftOf(o) => o.left := t;
      case RightOf(o) => o.right := t;
    }

    /** `cur` is out of the tree and on its way down, about to be compared
        with node `index`, which is reached through `p`. */
    ghost predicate Carrying(p: Slot, cur: Thread, index: nat)
      reads this, nodes, cur
    {
      && Distinct(nodes) && Linked(nodes, root) && Ordered(nodes)
      && cur !in nodes
      && 1 <= index && index / 2 <= |nodes| && p == SlotOf(nodes, index)
      && (index > 1 ==> nodes[index / 2 - 1].due <= cur.due)
    }

    lemma LoadSlot(p: Slot, cur: Thread, index: nat)
      requires Carrying(p, cur, index)
      ensures Load(p) == At(nodes, index)
    {
      if index > 1 {
        assert NodeOk(nodes, index / 2);
      }
    }

    /** The same threads, of which a different one is being carried. */
    ghost predicate Swapped(h0: seq<Thread>, cur0: Thread, h: seq<Thread>, cur: Thread) {
      && (forall t :: t in h ==> t in h0 || t == cur0)
      && (cur in h0 || cur == cur0)
      && (forall t :: t in h0 ==> t in h || t == cur)
      && (cur0 in h || cur0 == cur)
    }

    lemma SwappedNone(h: seq<Thread>, cur: Thread)
      ensures Swapped(h, cur, h, cur)
    {
    }

    lemma SwappedTwice(h0: seq<Thread>, cur0: Thread, h1: seq<Thread>, cur1: Thread, h2: seq<Thread>, cur2: Thread)
      requires Swapped(h0, cur0, h1, cur1) && Swapped(h1, cur1, h2, cur2)
      ensures Swapped(h0, cur0, h2, cur2)
    {
    }

    lemma SwapOne(h: seq<Thread>, i: nat, cur: Thread)
      requires i < |h|
      ensures Swapped(h, cur, h[i := cur], h[i])
    {
      var h' := h[i := cur];
      forall t | t in h ensures t in h' || t == h[i] {
        var j :| 0 <= j < |h| && h[j] == t;
        assert h'[j] == t || j == i;
      }
      assert h'[i] == cur;
    }

    /** `all` bounds the threads whose links an operation may touch. */
    ghost predicate Within(cur: Thread, all: set<Thread>)
      reads this
    {
      cur in all && forall t :: t in nodes ==> t in all
    }

    lemma PlacedDistinct(h: seq<Thread>, cur: Thread, index: nat)
      requires Distinct(h) && cur !in h && 1 <= index <= |h| + 1
      ensures Distinct(if index <= |h| then h[index - 1 := cur] else h + [cur])
    {
    }

    /** Node i, when node `index` is about to become `cur`. */
    lemma PlacedNode(h: seq<Thread>, cur: Thread, index: nat, i: nat)
      requires 1 <= index <= |h| + 1 && 1 <= i <= |h| && i != index
      requires OrderedAt(h, i) && (index / 2 == i ==> h[i - 1].due <= cur.due)
      requires h[i - 1].heapIndex == i
      requires h[i - 1].left == if index == 2 * i then cur else At(h, 2 * i)
      requires h[i - 1].right == if index == 2 * i + 1 then cur else At(h, 2 * i + 1)
      ensures var h' := if index <= |h| then h[index - 1 := cur] else h + [cur];
        NodeOk(h', i) && OrderedAt(h', i)
    {
    }

    /** Node `index` itself, with the children of the node whose place it takes. */
    lemma DisplacedNode(h: seq<Thread>, cur: Thread, index: nat)
      requires 1 <= index <= |h| && OrderedAt(h, index) && cur.due <= h[index - 1].due
      requires cur.heapIndex == index && cur.left == At(h, 2 * index) && cur.right == At(h, 2 * index + 1)
      ensures NodeOk(h[index - 1 := cur], index) && OrderedAt(h[index - 1 := cur], index)
    {
    }

    /** Puts `cur` in the place of the node at `p`, which keeps its own links. */
    method Displace(p: Slot, cur: Thread, index: nat, ghost all: set<Thread>)
      requires Within(cur, all)
      requires Carrying(p, cur, index) && index <= |nodes|
      requires cur.due <= nodes[index - 1].due
      modifies this, all`left, all`right, all`heapIndex
      ensures size == old(size) && nodes == old(nodes)[index - 1 := cur]
      ensures Distinct(nodes) && Linked(nodes, root) && Ordered(nodes)
    {
      LoadSlot(p, cur, index);
      label before:
      ghost var h := nodes;
      var t := Load(p);
      cur.left := t.left;
      cur.right := t.right;
      Store(p, cur);
      cur.heapIndex := index;
      PlacedDistinct(h, cur, index);
      nodes := nodes[index - 1 := cur];
      forall i | 1 <= i <= |nodes|
        ensures NodeOk(nodes, i) && OrderedAt(nodes, i)
      {
        assert old@before(NodeOk(h, i) && OrderedAt(h, i));
        if i == index {
          DisplacedNode(h, cur, index);
        } else {
          PlacedNode(h, cur, index, i);
        }
      }
    }

    /** One level of the descent: compare, displace if need be, and move on
        to the left or right child. */
    method Descend(p0: Slot, cur0: Thread, index: nat, goRight: bool, ghost all: set<Thread>)
      returns (p: Slot, cur: Thread)
      requires Within(cur0, all)
      requires Carrying(p0, cur0, index) && index <= |nodes|
      modifies this, all`left, all`right, all`heapIndex
      ensures size == old(size) && |nodes| == |old(nodes)|
      ensures Carrying(p, cur, 2 * index + if goRight then 1 else 0)
      ensures Swapped(old(nodes), cur0, nodes, cur)
      ensures Within(cur, all)
      ensures forall i :: 0 <= i < |nodes| && i != index - 1 ==> nodes[i] == old(nodes)[i]
      ensures nodes[index - 1].due <= old(nodes[index - 1].due)
    {
      p, cur := p0, cur0;
      LoadSlot(p, cur, index);
      var t := Load(p);
      assert OrderedAt(nodes, index);
      if cur.due < t.due {
        SwapOne(nodes, index - 1, cur);
        Displace(p, cur, index, all);
        cur := t;
      }
      assert Carrying(p, cur0, index) || nodes[index - 1] == cur0;
      assert Load(p) == nodes[index - 1] by {
        if index > 1 { assert NodeOk(nodes, index / 2); }
      }
      p := if goRight then RightOf(Load(p)) else LeftOf(Load(p));
    }

    /** Stores the carried thread in its final place, without children. */
    method PlaceAt(p: Slot, cur: Thread, index: nat, ghost all: set<Thread>)
      requires Within(cur, all)
      requires Carrying(p, cur, index) && index <= |nodes| + 1
      modifies this, all`left, all`right, all`heapIndex
      ensures size == old(size)
      ensures nodes == if index <= |old(nodes)| then old(nodes)[index - 1 := cur] else old(nodes) + [cur]
      ensures Distinct(nodes) && root == At(nodes, 1)
      ensures forall i :: 1 <= i <= |nodes| && i != index ==> NodeOk(nodes, i) && OrderedAt(nodes, i)
      ensures cur.heapIndex == index && cur.left == null && cur.right == null
      ensures index <= |old(nodes)| ==> unchanged(old(nodes)[index - 1])
    {
      label before:
      ghost var h := nodes;
      cur.heapIndex := index;
      Store(p, cur);
      cur.left, cur.right := null, null;
      PlacedDistinct(h, cur, index);
      nodes := if index <= |nodes| then nodes[index - 1 := cur] else nodes + [cur];
      forall i | 1 <= i <= |nodes| && i != index
        ensures NodeOk(nodes, i) && OrderedAt(nodes, i)
      {
        assert old@before(NodeOk(h, i) && OrderedAt(h, i));
        PlacedNode(h, cur, index, i);
      }
    }

    /** No node has a later due time than before, and those from `from` on are
        the same. */
    ghost predicate Lowered(h0: seq<Thread>, h: seq<Thread>, from: int)
      reads h0`due, h`due
    {
      && |h| == |h0| && (forall i :: 0 <= from <= i < |h| ==> h[i] == h0[i])
      && (forall i :: 0 <= i < |h| ==> h[i].due <= h0[i].due)
    }

    lemma LoweredNone(h: seq<Thread>)
      ensures Lowered(h, h, 0)
    {
    }

    lemma LoweredOn(h0: seq<Thread>, h1: seq<Thread>, h: seq<Thread>, index: nat, from: nat)
      requires Lowered(h0, h1, index - 1) && 1 <= index <= |h| == |h1| && index <= from
      requires forall i :: 0 <= i < |h| && i != index - 1 ==> h[i] == h1[i]
      requires h[index - 1].due <= h1[index - 1].due
      ensures Lowered(h0, h, from)
    {
    }

    /** One digit of the descent. */
    method DescendBit(p0: Slot, cur0: Thread, index0: nat, target: nat, bit: nat, ghost thread: Thread,
                      ghost h0: seq<Thread>, ghost all: set<Thread>)
      returns (p: Slot, cur: Thread, index: nat)
      requires 1 <= index0 == Shr(target, bit + 1) && target <= |nodes| + 1
      requires Within(cur0, all) && Carrying(p0, cur0, index0)
      requires Swapped(h0, thread, nodes, cur0) && Lowered(h0, nodes, index0 - 1)
      modifies this, all`left, all`right, all`heapIndex
      ensures size == old(size) && |nodes| == |old(nodes)|
      ensures 1 <= index == Shr(target, bit) && index <= target
      ensures Within(cur, all) && Carrying(p, cur, index)
      ensures Swapped(h0, thread, nodes, cur) && Lowered(h0, nodes, index - 1)
    {
      hide Distinct, Linked, Ordered, Swapped, Lowered, Carrying, Within;
      ShrShrinks(target, bit + 1);
      ShrShrinks(target, bit);
      var goRight := Shr(target, bit) % 2 == 1;
      ghost var h := nodes;
      p, cur := Descend(p0, cur0, index0, goRight, all);
      index := 2 * index0 + if goRight then 1 else 0;
      SwappedTwice(h0, thread, h, cur0, nodes, cur);
      LoweredOn(h0, h, nodes, index0, index - 1);
    }

    /** The descent of `heap_insert`: walks the digits of the index that
        `thread` is to have, carrying the latest-due thread met so far. */
    method DescendTo(thread: Thread, ghost all: set<Thread>) returns (p: Slot, cur: Thread)
      requires Within(thread, all)
      requires Distinct(nodes) && Linked(nodes, root) && Ordered(nodes)
      requires thread !in nodes && 1 <= thread.heapIndex <= |nodes| + 1
      modifies this, all`left, all`right, all`heapIndex
      ensures size == old(size) && |nodes| == |old(nodes)| && Within(cur, all)
      ensures Carrying(p, cur, old(thread.heapIndex))
      ensures Swapped(old(nodes), thread, nodes, cur)
      ensures Lowered(old(nodes), nodes, old(thread.heapIndex) - 1)
    {
      LoweredNone(nodes);
      hide Distinct, Linked, Ordered, Swapped, Lowered, Within;
      SwappedNone(nodes, thread);
      var target := thread.heapIndex;
      p, cur := RootSlot, thread;
      var bits := CountBits(target);
      var index := 1;
      var bit: int := bits - 2;
      while bit >= 0
        invariant -1 <= bit <= bits - 2
        invariant 1 <= index == Shr(target, bit + 1) && index <= target
        invariant |nodes| == |old(nodes)| && size == old(size)
        invariant Carrying(p, cur, index) && Within(cur, all)
        invariant Swapped(old(nodes), thread, nodes, cur)
        invariant Lowered(old(nodes), nodes, index - 1)
      {
        p, cur, index := DescendBit(p, cur, index, target, bit, thread, old(nodes), all);
        bit := bit - 1;
      }
    }

    /** The nodes after one of them has been replaced, or a new last one added. */
    ghost predicate Placed(h0: seq<Thread>, thread: Thread, h: seq<Thread>, k: nat)
      requires 1 <= k <= |h0| + 1
    {
      && |h| == (if k <= |h0| then |h0| else k)
      && thread in h
      && (forall t :: t in h ==> t == thread || (t in h0 && t != At(h0, k)))
      && (forall t :: t in h0 && t != At(h0, k) ==> t in h)
      && (forall i :: k <= i < |h| ==> h[i] == h0[i])
    }

    lemma PlaceCarried(h0: seq<Thread>, thread: Thread, h: seq<Thread>, cur: Thread, k: nat)
      requires Swapped(h0, thread, h, cur) && Distinct(h0) && Distinct(h)
      requires thread !in h0 && cur !in h && |h| == |h0| && 1 <= k <= |h| + 1
      requires forall i :: k - 1 <= i < |h| ==> h[i] == h0[i]
      ensures Placed(h0, thread, if k <= |h| then h[k - 1 := cur] else h + [cur], k)
    {
      var h' := if k <= |h| then h[k - 1 := cur] else h + [cur];
      assert h'[k - 1] == cur;
      forall t | t in h && (k <= |h| ==> t != h[k - 1])
        ensures t in h'
      {
        var i :| 0 <= i < |h| && h[i] == t;
        assert h'[i] == t;
      }
    }

    /** Carries `thread` down from the root to the place named by its
        `heapIndex`.  Threads due later than the one being carried are
        displaced: the carried thread takes their place and they are carried
        on.  The place is either one past the end, or that of a node that is
        being replaced; that node's children are left to the caller. */
    method HeapInsert(thread: Thread, ghost all: set<Thread>) returns (p: Slot)
      requires Within(thread, all)
      requires Distinct(nodes) && Linked(nodes, root) && Ordered(nodes)
      requires thread !in nodes && 1 <= thread.heapIndex <= |nodes| + 1
      modifies this, all`left, all`right, all`heapIndex
      ensures size == old(size) && Distinct(nodes) && Within(thread, all)
      ensures root == At(nodes, 1)
      ensures var k := old(thread.heapIndex);
        && Placed(old(nodes), thread, nodes, k)
        && p == SlotOf(nodes, k)
        && (forall i :: 1 <= i <= |nodes| && i != k ==> NodeOk(nodes, i) && OrderedAt(nodes, i))
        && nodes[k - 1].heapIndex == k && nodes[k - 1].left == null && nodes[k - 1].right == null
        && (forall i :: 0 <= i < k - 1 ==> nodes[i].due <= old(nodes[i].due))
      ensures var k := old(thread.heapIndex);
        k <= |old(nodes)| ==>
          var replaced := old(nodes)[k - 1];
          && replaced !in nodes && replaced.heapIndex == k
          && replaced.left == At(nodes, 2 * k) && replaced.right == At(nodes, 2 * k + 1)
    {
      hide Swapped, Placed, Ordered;
      ghost var h0, k := nodes, thread.heapIndex;
      var cur: Thread;
      var target := thread.heapIndex;
      p, cur := DescendTo(thread, all);
      assert k <= |h0| ==> nodes[k - 1] == h0[k - 1] && NodeOk(nodes, k);
      PlaceCarried(h0, thread, nodes, cur, k);
      PlaceAt(p, cur, target, all);
    }

    // ------------------------------------------------------- heap_delete

    /** Follows the digits of `target` down from the root. */
    method FindSlot(target: nat) returns (p: Slot)
      requires Linked(nodes, root) && 1 <= target && target / 2 <= |nodes|
      ensures p == SlotOf(nodes, target)
    {
      p := RootSlot;
      var bits := CountBits(target);
      ghost var index := 1;
      var bit: int := bits - 2;
      while bit >= 0
        invariant -1 <= bit <= bits - 2
        invariant 1 <= index == Shr(target, bit + 1) && index <= target
        invariant index / 2 <= |nodes| && p == SlotOf(nodes, index)
      {
        ShrShrinks(target, bit);
        ShrShrinks(target, bit + 1);
        LoadNode(p, index);
        if Shr(target, bit) % 2 == 1 {
          p := RightOf(Load(p));
        } else {
          p := LeftOf(Load(p));
        }
        index := Shr(target, bit);
        bit := bit - 1;
      }
    }

    /** Finds the last node by the digits of the size, and unlinks it. */
    method UnlinkLast(ghost all: set<Thread>) returns (t: Thread)
      requires Valid() && size > 0 && forall t :: t in nodes ==> t in all
      modifies this, all`left, all`right
      ensures Valid() && nodes == old(nodes)[..|old(nodes)| - 1] && t == old(nodes)[|old(nodes)| - 1]
    {
      var p := FindSlot(size);
      LoadNode(p, size);
      t := Load(p);
      label before:
      ghost var h := nodes;
      Store(p, null);
      nodes := nodes[..size - 1];
      size := size - 1;
      forall i | 1 <= i <= |nodes|
        ensures NodeOk(nodes, i) && OrderedAt(nodes, i)
      {
        assert old@before(NodeOk(h, i) && OrderedAt(h, i));
      }
    }

    /** Makes t a child of y, its former child, and trades their other links. */
    method TradeLinks(t: Thread, y: Thread)
      requires y != t && (y == t.left || y == t.right)
      modifies t`left, t`right, t`heapIndex, y`left, y`right, y`heapIndex
      ensures t.left == old(y.left) && t.right == old(y.right) && t.heapIndex == old(y.heapIndex)
      ensures y.heapIndex == old(t.heapIndex)
      ensures y.left == if y == old(t.left) then t else old(t.left)
      ensures y.right == if y == old(t.left) then old(t.right) else t
    {
      var tl, tr := y.left, y.right;
      if y == t.left {
        y.left := t;
        y.right := t.right;
      } else {
        y.left := t.left;
        y.right := t;
      }
      t.left := tl;
      t.right := tr;
      var indexTmp := t.heapIndex;
      t.heapIndex := y.heapIndex;
      y.heapIndex := indexTmp;
    }

    /** Stores y where t hangs, and t below y: the links are then those of h'. */
    method Relink(p: Slot, t: Thread, y: Thread, ghost index: nat, ghost c: nat, ghost h: seq<Thread>, ghost h': seq<Thread>, ghost all: set<Thread>)
      requires Distinct(h) && Linked(h, root) && 1 <= index && index == c / 2 && c <= |h|
      requires p == SlotOf(h, index) && t == h[index - 1] && y == h[c - 1] && y != t
      requires h' == h[index - 1 := y][c - 1 := t] && forall t :: t in h ==> t in all
      modifies this`root, all`left, all`right, all`heapIndex
      ensures Linked(h', root)
    {
      assert NodeOk(h, index) && NodeOk(h, c) && (index > 1 ==> NodeOk(h, index / 2));
      Store(p, y);
      TradeLinks(t, y);
      forall i | 1 <= i <= |h'|
        ensures NodeOk(h', i)
      {
        assert old(NodeOk(h, i));
        AtSwapped(h, h', index, c, i);
        AtSwapped(h, h', index, c, 2 * i);
        AtSwapped(h, h', index, c, 2 * i + 1);
        SameNode(h, i, index);
        SameNode(h, i, c);
        if index > 1 {
          SameNode(h, i, index / 2);
        }
      }
    }

    /** Exchanges node `index` with its child y, node c, by relinking both. */
    method SwapWithChild(p: Slot, t: Thread, y: Thread, ghost index: nat, ghost c: nat, ghost all: set<Thread>)
      returns (q: Slot)
      requires Distinct(nodes) && Linked(nodes, root)
      requires 1 <= index && index == c / 2 && c <= |nodes|
      requires p == SlotOf(nodes, index) && t == nodes[index - 1] && y == nodes[c - 1]
      requires forall t :: t in nodes ==> t in all
      modifies this, all`left, all`right, all`heapIndex
      ensures size == old(size)
      ensures nodes == old(nodes)[index - 1 := y][c - 1 := t] && q == SlotOf(nodes, c)
      ensures Distinct(nodes) && Linked(nodes, root)
    {
      ghost var h := nodes;
      ghost var h': seq<Thread> := h[index - 1 := y][c - 1 := t];
      assert NodeOk(h, index);
      SameNode(h, index, c);
      q := if y == t.left then LeftOf(y) else RightOf(y);
      assert q == SlotOf(h', c) by {
        SameNode(h, c, 2 * index);
        assert At(h, 2 * index) == h[2 * index - 1];
      }
      DistinctSwap(h, index - 1, c - 1);
      Relink(p, t, y, index, c, h, h', all);
      nodes := h';
    }

    /** The child that is due first, if there is any. */
    method FirstChild(t: Thread, ghost index: nat) returns (y: Thread?, ghost c: nat)
      requires Linked(nodes, root) && 1 <= index <= |nodes| && t == nodes[index - 1]
      ensures y == null <==> 2 * index > |nodes|
      ensures y != null ==> c / 2 == index && c <= |nodes| && y == nodes[c - 1]
      ensures y != null ==> y.due <= nodes[2 * index - 1].due
      ensures y != null && 2 * index + 1 <= |nodes| ==> y.due <= nodes[2 * index].due
    {
      assert NodeOk(nodes, index);
      c := 2 * index;
      if t.left == null {
        return null, c;
      } else if t.right == null || t.left.due < t.right.due {
        return t.left, c;
      } else {
        return t.right, c + 1;
      }
    }

    /** One round of the loop: exchanges node `index` with its earlier child,
        if that is due before it. */
    method SinkOnce(p: Slot, t: Thread, ghost index: nat, ghost all: set<Thread>) returns (q: Slot, sunk: bool, ghost c: nat)
      requires Distinct(nodes) && Linked(nodes, root) && OrderedBut(nodes, index)
      requires p == SlotOf(nodes, index) && t == nodes[index - 1]
      requires forall t :: t in nodes ==> t in all
      modifies this, all`left, all`right, all`heapIndex
      ensures size == old(size) && |nodes| == |old(nodes)|
      ensures Distinct(nodes) && Linked(nodes, root) && OrderedBut(nodes, c)
      ensures if sunk then index < c && q == SlotOf(nodes, c) && t == nodes[c - 1] else c == index && OrderedAt(nodes, c)
      ensures forall u :: u in nodes <==> u in old(nodes)
    {
      hide Distinct, Linked, NodeOk, SlotOf;
      q, sunk, c := p, false, index;
      var y;
      y, c := FirstChild(t, index);
      if y == null || t.due <= y.due {
        c := index;
        return;
      }
      SameThreads(nodes, index - 1, c - 1);
      SwapOrder(nodes, index, c);
      q := SwapWithChild(p, t, y, index, c, all);
      sunk := true;
    }

    /** Lets node `index` sink until neither child is due before it. */
    method SiftDown(p0: Slot, ghost index0: nat, ghost all: set<Thread>)
      requires Distinct(nodes) && Linked(nodes, root) && size == |nodes|
      requires OrderedBut(nodes, index0) && p0 == SlotOf(nodes, index0)
      requires forall t :: t in nodes ==> t in all
      modifies this, all`left, all`right, all`heapIndex
      ensures Valid() && |nodes| == |old(nodes)|
      ensures forall t :: t in nodes <==> t in old(nodes)
    {
      LoadNode(p0, index0);
      var p, t: Thread := p0, Load(p0);
      ghost var index := index0;
      var sunk := true;
      while sunk
        invariant Distinct(nodes) && Linked(nodes, root) && size == |nodes| == |old(nodes)|
        invariant OrderedBut(nodes, index)
        invariant if sunk then p == SlotOf(nodes, index) && t == nodes[index - 1] else OrderedAt(nodes, index)
        invariant forall t :: t in nodes ==> t in all
        invariant forall t :: t in nodes <==> t in old(nodes)
        decreases sunk, |nodes| - index
      {
        p, sunk, index := SinkOnce(p, t, index, all);
      }
    }

    lemma SameThreads(h: seq<Thread>, i: nat, j: nat)
      requires i < j < |h|
      ensures forall t :: t in h[i := h[j]][j := h[i]] <==> t in h
    {
      var h' := h[i := h[j]][j := h[i]];
      forall t | t in h ensures t in h' {
        var k :| 0 <= k < |h| && h[k] == t;
        assert h'[if k == i then j else if k == j then i else k] == t;
      }
    }

    lemma LoadNode(p: Slot, index: nat)
      requires Linked(nodes, root) && 1 <= index <= |nodes| && p == SlotOf(nodes, index)
      ensures Load(p) == nodes[index - 1]
    {
      if index > 1 {
        assert NodeOk(nodes, index / 2);
      }
    }

    ghost function Members(): set<Thread>
      reads this
    {
      set t | t in nodes
    }

    /** Node k takes over the children of `thread`. */
    method AdoptChildren(u: Thread, thread: Thread, ghost h: seq<Thread>, ghost k: nat)
      requires Distinct(h) && 1 <= k <= |h| && u == h[k - 1] && u.heapIndex == k && thread !in h
      requires thread.left == At(h, 2 * k) && thread.right == At(h, 2 * k + 1)
      requires forall i :: 1 <= i <= |h| && i != k ==> NodeOk(h, i)
      modifies u`left, u`right
      ensures forall i :: 1 <= i <= |h| ==> NodeOk(h, i)
    {
      u.left := thread.left;
      u.right := thread.right;
      forall i | 1 <= i <= |h|
        ensures NodeOk(h, i)
      {
        SameNode(h, i, k);
        assert i != k ==> old(NodeOk(h, i));
      }
    }

    /** Puts the former last node `t` in the place of node k, `thread`. */
    method Replace(t: Thread, thread: Thread, ghost k: nat, ghost all: set<Thread>)
      requires Valid() && 1 <= k <= |nodes| && thread == nodes[k - 1] && t !in nodes && Within(t, all)
      modifies this, all`left, all`right, all`heapIndex
      ensures Valid() && |nodes| == |old(nodes)| && thread !in nodes
      ensures forall u :: u in nodes ==> u == t || u in old(nodes)
      ensures forall u :: u in old(nodes) && u != thread ==> u in nodes
      ensures t in nodes
    {
      ghost var h := nodes;
      assert NodeOk(h, k);
      t.heapIndex := thread.heapIndex;
      assert forall i :: 1 <= i <= |h| ==> NodeOk(h, i);
      var p := HeapInsert(t, all);
      LoadPlaced(p, k);
      ReplacedOrder(h, nodes, k);
      var u := Load(p);
      AdoptChildren(u, thread, nodes, k);
      SiftDown(p, k, all);
    }

    /** Removes any member of the heap. */
    method HeapDelete(thread: Thread)
      requires Valid() && thread in nodes
      modifies this, Members()`left, Members()`right, Members()`heapIndex
      ensures Valid() && thread.left == null && thread.right == null
      ensures |nodes| == |old(nodes)| - 1 && thread !in nodes
      ensures forall t :: t in old(nodes) && t != thread ==> t in nodes
      ensures forall t :: t in nodes ==> t in old(nodes)
    {
      ghost var all := Members();
      ghost var h := nodes;
      var t := UnlinkLast(all);
      assert forall u :: u in h <==> u in nodes || u == t by { SplitLast(h); }
      if t != thread {
        ghost var k: nat :| k < |nodes| && nodes[k] == thread;
        Replace(t, thread, k + 1, all);
      }
      thread.left, thread.right := null, null;
    }

    lemma LoadPlaced(p: Slot, k: nat)
      requires 1 <= k <= |nodes| && p == SlotOf(nodes, k) && root == At(nodes, 1)
      requires forall i :: 1 <= i <= |nodes| && i != k ==> NodeOk(nodes, i)
      ensures Load(p) == nodes[k - 1]
    {
      if k > 1 {
        assert NodeOk(nodes, k / 2);
      }
    }

    /** Inserts a thread whose index is one past the end. */
    method InsertLast(thread: Thread, ghost all: set<Thread>)
      requires Distinct(nodes) && Linked(nodes, root) && Ordered(nodes) && size == |nodes| + 1
      requires Within(thread, all) && thread !in nodes && thread.heapIndex == size
      modifies this, all`left, all`right, all`heapIndex
      ensures Valid() && |nodes| == |old(nodes)| + 1
      ensures thread in nodes && (forall t :: t in old(nodes) ==> t in nodes)
      ensures forall t :: t in nodes ==> t == thread || t in old(nodes)
    {
      var p := HeapInsert(thread, all);
      WholeAgain(nodes, root, |nodes|);
    }

    /** `_st_add_sleep_q` */
    method Add(thread: Thread, timeout: nat, lastClock: int)
      requires Valid() && thread !in nodes
      modifies this, thread`due, thread`onSleepq, thread`left, thread`right, thread`heapIndex
      modifies Members()`left, Members()`right, Members()`heapIndex
      ensures Valid() && |nodes| == |old(nodes)| + 1
      ensures thread in nodes && (forall t :: t in old(nodes) ==> t in nodes)
      ensures forall t :: t in nodes ==> t == thread || t in old(nodes)
      ensures thread.due == lastClock + timeout && thread.onSleepq
    {
      ghost var all := Members() + {thread};
      thread.due := lastClock + timeout;
      thread.onSleepq := true;
      size := size + 1;
      thread.heapIndex := size;
      assert Linked(nodes, root) && Ordered(nodes);
      InsertLast(thread, all);
    }

    /** A childless last node restores the whole. */
    lemma WholeAgain(h: seq<Thread>, root: Thread?, k: nat)
      requires root == At(h, 1) && k == |h| > 0
      requires forall i :: 1 <= i <= |h| && i != k ==> NodeOk(h, i) && OrderedAt(h, i)
      requires h[k - 1].heapIndex == k && h[k - 1].left == null && h[k - 1].right == null
      ensures Linked(h, root) && Ordered(h)
    {
      assert NodeOk(h, k) && OrderedAt(h, k);
    }

    /** `_st_del_sleep_q` */
    method Delete(thread: Thread)
      requires Valid() && thread in nodes
      modifies this, thread`onSleepq, Members()`left, Members()`right, Members()`heapIndex
      ensures Valid() && |nodes| == |old(nodes)| - 1
      ensures thread !in nodes && (forall t :: t in old(nodes) && t != thread ==> t in nodes)
      ensures forall t :: t in nodes ==> t in old(nodes)
      ensures !thread.onSleepq
    {
      HeapDelete(thread);
      thread.onSleepq := false;
    }
  }

  // ------------------------------------------------------- the clock check

  /** The clock check only ever looks at the root. */
  lemma EarliestIsRoot(h: seq<Thread>)
    requires Ordered(h)
    ensures forall t :: t in h ==> h[0].due <= t.due
  {
    forall t | t in h
      ensures h[0].due <= t.due
    {
      var k :| 0 <= k < |h| && h[k] == t;
      RootIsEarliest(h, k + 1);
    }
  }
}