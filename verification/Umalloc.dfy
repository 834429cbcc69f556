/** The user heap of umalloc.c: a circular list of free blocks, kept in the memory that it
    manages, in address order, with the block behind it reached through the word freep. */
module Umalloc {
  import opened ExtentLists

  const NULL: int := 0
  const BASE: int := 1        // the address of the header that is not in the heap
  const MIN_UNITS: int := 4096
  const UNIT: int := 16       // bytes to a header, and to a unit
  const SBRK_ERROR: int := -1
  const UINT_LIMIT: int := 0x1_0000_0000
  const INT_LIMIT: int := 0x8000_0000

  type Sixteen = b: seq<int> | |b| == 16 witness [0, 0, 0, 0, 0, 0, 0, 0, 0, 0, 0, 0, 0, 0, 0, 0]

  /** What a unit of memory holds: a header, or bytes of a block's user. */
  datatype Unit = Header(ptr: int, size: int) | Data(bytes: Sixteen)

  type Mem = seq<Unit>

  // ----- the ring

  /** Node k of the ring: the base, then the free blocks in address order. */
  function Node(free: seq<Extent>, k: int): int
    requires 0 <= k <= |free|
  {
    if k == 0 then BASE else free[k - 1].first
  }

  function Next(free: seq<Extent>, k: int): int
    requires 0 <= k <= |free|
  {
    if k == |free| then BASE else free[k].first
  }

  function NodeSize(free: seq<Extent>, k: int): int
    requires 0 <= k <= |free|
  {
    if k == 0 then 0 else Size(free[k - 1])
  }

  predicate NodeOk(mem: Mem, free: seq<Extent>, k: int)
    requires 0 <= k <= |free|
  {
    0 <= Node(free, k) < |mem| && mem[Node(free, k)] == Header(Next(free, k), NodeSize(free, k))
  }

  /** The headers in memory spell the list out, with one wrap. */
  ghost predicate Linked(mem: Mem, free: seq<Extent>) {
    forall k :: 0 <= k <= |free| ==> NodeOk(mem, free, k)
  }

  ghost predicate ListOk(free: seq<Extent>, brk: int) {
    Canonical(free) && Bounded(free, BASE + 1, brk)
  }

  // ----- live blocks

  predicate InBlock(live: map<int, int>, a: int, u: int) {
    a in live && a <= u < a + live[a]
  }

  ghost predicate Live(live: map<int, int>, u: int) {
    exists a :: InBlock(live, a, u)
  }

  /** Blocks overlap neither each other nor the free ones, and each has its size in its header. */
  ghost predicate LiveOk(mem: Mem, free: seq<Extent>, live: map<int, int>) {
    && (forall a :: a in live ==> 0 <= a < |mem| && live[a] >= 1 && mem[a].Header? && mem[a].size == live[a])
    && (forall a, c, u :: InBlock(live, a, u) && InBlock(live, c, u) ==> a == c)
    && (forall a, u :: InBlock(live, a, u) ==> !Free(free, u))
  }

  /** Free and live blocks together are the units that sbrk has given. */
  ghost predicate Covered(free: seq<Extent>, live: map<int, int>, chunks: seq<Extent>) {
    forall u :: Free(chunks, u) <==> Free(free, u) || Live(live, u)
  }

  ghost predicate Below(chunks: seq<Extent>, brk: int) {
    forall u :: Free(chunks, u) ==> BASE < u < brk
  }

  ghost predicate HeapOk(mem: Mem, brk: int, free: seq<Extent>, live: map<int, int>, chunks: seq<Extent>) {
    && BASE < brk <= |mem| && ListOk(free, brk) && LiveOk(mem, free, live)
    && Covered(free, live, chunks) && Below(chunks, brk)
  }

  /** The users of the live blocks see no change. */
  ghost predicate Untouched(was: Mem, mem: Mem, live: map<int, int>) {
    |was| == |mem| && forall u :: Live(live, u) && 0 <= u < |mem| ==> mem[u] == was[u]
  }

  // ----- facts about the ring

  lemma NodesAscend(free: seq<Extent>, brk: int, k: int, m: int)
    requires ListOk(free, brk) && 0 <= k < m <= |free|
    ensures BASE <= Node(free, k) && 0 <= NodeSize(free, k) && Node(free, k) + NodeSize(free, k) < Node(free, m)
    ensures Node(free, m) + NodeSize(free, m) <= brk
  {
  }

  /** Nodes and live blocks are apart. */
  lemma NodesAreFree(mem: Mem, free: seq<Extent>, live: map<int, int>, k: int, a: int, u: int)
    requires Canonical(free) && LiveOk(mem, free, live) && 0 <= k < |free| && InBlock(live, a, u)
    ensures u < free[k].first || free[k].last < u
  {
    assert Has(free[k], u) ==> Free(free, u);
  }

  /** The list with the blocks i .. j-1 replaced by at most one, and the memory relinked. */
  lemma Relinked(was: Mem, mem: Mem, free: seq<Extent>, i: int, j: int, mid: seq<Extent>)
    requires Linked(was, free) && 0 <= i <= j <= |free| && |mid| <= 1
    requires mem[..] == mem && |mem| == |was|
    requires 0 <= Node(free, i) < |mem|
             && mem[Node(free, i)] == Header(if mid == [] then Next(free, j) else mid[0].first, NodeSize(free, i))
    requires mid != [] ==> 0 <= mid[0].first < |mem| && mem[mid[0].first] == Header(Next(free, j), Size(mid[0]))
    requires forall k :: 0 <= k < i || j < k <= |free| ==> NodeOk(mem, free, k)
    ensures Linked(mem, Replaced(free, i, j, mid))
  {
    var t := Replaced(free, i, j, mid);
    forall m | 0 <= m <= |t|
      ensures NodeOk(mem, t, m)
    {
      if m < i {
        assert NodeOk(mem, free, m);
      } else if m > i + |mid| {
        var k := m - i - |mid| + j;
        assert NodeOk(mem, free, k);
        assert t[m - 1] == free[k - 1];
        assert m < |t| ==> t[m] == free[k];
      }
    }
  }

  // ----- a block goes back

  /** Position i is where an address belongs in the list. */
  predicate Between(free: seq<Extent>, i: int, a: int) {
    0 <= i <= |free| && Node(free, i) < a && (i < |free| ==> a < free[i].first)
  }

  lemma {:induction false} Position(free: seq<Extent>, brk: int, a: int, n: int) returns (i: int)
    requires ListOk(free, brk) && BASE < a && 0 <= n <= |free|
    requires n < |free| ==> a < free[n].first
    requires forall k :: 0 <= k < |free| ==> free[k].first != a
    ensures Between(free, i, a)
    decreases n
  {
    if n == 0 || free[n - 1].first < a {
      i := n;
    } else {
      i := Position(free, brk, a, n - 1);
    }
  }

  lemma OnePosition(free: seq<Extent>, brk: int, a: int, i: int, k: int)
    requires ListOk(free, brk) && BASE < a && Between(free, i, a) && 0 <= k <= |free|
    ensures Node(free, k) < a && (k < |free| ==> a < free[k].first) ==> k == i
    ensures k != i ==> !(Node(free, k) < a && a < Next(free, k))
    ensures k != i ==> !(Node(free, k) >= Next(free, k) && (a > Node(free, k) || a < Next(free, k)))
    ensures k == i ==> (Node(free, k) < a < Next(free, k)) || (Node(free, k) >= Next(free, k) && a > Node(free, k))
  {
    if k < i {
      NodesAscend(free, brk, k, i);
    } else if i < k {
      NodesAscend(free, brk, i, k);
    }
    if k < |free| {
      NodesAscend(free, brk, k, k + 1);
    }
  }

  /** The links that free writes, in its four cases, spell the new list out. */
  lemma PutBackLinked(was: Mem, mem: Mem, free: seq<Extent>, brk: int, i: int, start: int, size: int)
    requires ListOk(free, brk) && Linked(was, free) && Between(free, i, start) && size > 0 && start < |was| == |mem|
    requires i < |free| ==> start + size <= free[i].first
    requires Node(free, i) + NodeSize(free, i) <= start
    requires forall u :: 0 <= u < |mem| && u != start && u != Node(free, i) ==> mem[u] == was[u]
    requires var next := i < |free| && start + size == free[i].first;
             var link := if next then Next(free, i + 1) else Next(free, i);
             var total := size + if next then Size(free[i]) else 0;
             if Node(free, i) + NodeSize(free, i) == start
             then mem[Node(free, i)] == Header(link, NodeSize(free, i) + total)
             else mem[Node(free, i)] == Header(start, NodeSize(free, i)) && mem[start] == Header(link, total)
    ensures Linked(mem, PutBack(free, i, start, start + size - 1))
  {
    hide Canonical, Bounded;
    var next := i < |free| && start + size == free[i].first;
    var prev := i > 0 && free[i - 1].last + 1 == start;
    var from, to := if prev then i - 1 else i, if next then i + 1 else i;
    var e := Extent(if prev then free[i - 1].first else start, if next then free[i].last else start + size - 1);
    forall k | 0 <= k <= |free| && k != i
      ensures NodeOk(mem, free, k)
    {
      assert NodeOk(was, free, k);
      if k < i {
        NodesAscend(free, brk, k, i);
      } else {
        NodesAscend(free, brk, i, k);
        if i + 1 < k {
          NodesAscend(free, brk, i + 1, k);
        }
      }
    }
    assert NodeOk(was, free, i);
    assert prev ==> NodeOk(mem, free, i - 1);
    assert prev <==> Node(free, i) + NodeSize(free, i) == start;
    assert PutBack(free, i, start, start + size - 1) == Replaced(free, from, to, [e]);
    Relinked(was, mem, free, from, to, [e]);
  }

  function Without(live: map<int, int>, a: int): map<int, int> {
    live - {a}
  }

  /** A live block gone to the free list. */
  lemma FreedKeeps(was: Mem, mem: Mem, brk: int, free: seq<Extent>, t: seq<Extent>, live: map<int, int>,
                   chunks: seq<Extent>, a: int)
    requires HeapOk(was, brk, free, live, chunks) && a in live
    requires ListOk(t, brk) && Gained(t, free, a, live[a]) && Untouched(was, mem, Without(live, a))
    ensures HeapOk(mem, brk, t, Without(live, a), chunks)
  {
    hide Free, ListOk;
    var rest := Without(live, a);
    forall c | c in rest
      ensures 0 <= c < |mem| && rest[c] >= 1 && mem[c].Header? && mem[c].size == rest[c]
    {
      assert InBlock(rest, c, c) && Live(rest, c);
    }
    forall c, u | InBlock(rest, c, u)
      ensures InBlock(live, c, u) && !InBlock(live, a, u) && !Free(t, u)
    {
      assert InBlock(live, c, u);
    }
    forall u
      ensures Free(chunks, u) <==> Free(t, u) || Live(rest, u)
    {
      assert Live(rest, u) ==> Live(live, u);
      if c :| InBlock(live, c, u) {
        assert c != a ==> InBlock(rest, c, u);
      }
      assert a <= u < a + live[a] ==> InBlock(live, a, u);
    }
  }

  /** Free nodes, the base and one live block's header are no live unit of another block. */
  lemma OnlyTheirs(was: Mem, mem: Mem, brk: int, free: seq<Extent>, live: map<int, int>, chunks: seq<Extent>, k: int,
                   a: int)
    requires HeapOk(was, brk, free, live, chunks) && a in live && 0 <= k <= |free| && |mem| == |was|
    requires forall u :: 0 <= u < |mem| && u != a && u != Node(free, k) ==> mem[u] == was[u]
    ensures Untouched(was, mem, Without(live, a))
  {
    var rest := Without(live, a);
    forall u | Live(rest, u)
      ensures u != a && u != Node(free, k)
    {
      NodeNotLive(was, brk, free, live, chunks, k);
      var c :| InBlock(rest, c, u);
      assert InBlock(live, c, u) && InBlock(live, a, a) && Live(live, u);
    }
  }

  lemma NodeNotLive(mem: Mem, brk: int, free: seq<Extent>, live: map<int, int>, chunks: seq<Extent>, k: int)
    requires HeapOk(mem, brk, free, live, chunks) && 0 <= k <= |free|
    ensures !Live(live, Node(free, k))
  {
    if k > 0 {
      assert Has(free[k - 1], free[k - 1].first);
      assert Free(free, Node(free, k));
    }
  }

  // ----- the heap

  class Heap {
    var mem: Mem
    var freep: int
    var brk: int                  // the first unit that sbrk has not given yet
    ghost var free: seq<Extent>   // the free blocks, by first and last unit
    ghost var live: map<int, int> // the size in units of the block at each header in use
    ghost var chunks: seq<Extent> // what sbrk has given
    ghost var cur: int            // freep is node cur

    ghost predicate Valid()
      reads this
    {
      && HeapOk(mem, brk, free, live, chunks)
      && if freep == NULL then free == [] && live == map[]
      else Linked(mem, free) && 0 <= cur <= |free| && freep == Node(free, cur)
    }

    /** A new process: no block, no ring, and sbrk starting at start. */
    constructor (memory: Mem, start: int)
      requires BASE < start <= |memory|
      ensures Valid() && mem == memory && freep == NULL && brk == start && free == [] && live == map[] && chunks == []
    {
      mem, freep, brk := memory, NULL, start;
      free, live, chunks, cur := [], map[], [], 0;
      new;
      NothingGiven(mem, brk);
    }

    /** The search of free: the node after which a block belongs. */
    method Place(bp: int) returns (p: int, ghost i: int)
      requires Valid() && freep != NULL && BASE < bp && forall k :: 0 <= k < |free| ==> free[k].first != bp
      ensures Between(free, i, bp) && p == Node(free, i) && 0 <= p < |mem|
              && mem[p] == Header(Next(free, i), NodeSize(free, i))
    {
      hide Free, Total, ListOk, LiveOk, Covered, Below, Linked, Live, InBlock, Canonical, Bounded, Node, Next, NodeSize;
      i := Position(free, brk, bp, |free|);
      p := freep;
      ghost var k := cur;
      NodeFacts(mem, free, brk, k);
      OnePosition(free, brk, bp, i, k);
      while !(bp > p && bp < mem[p].ptr)
        invariant 0 <= k <= |free| && p == Node(free, k) && 0 <= p < |mem|
                  && mem[p] == Header(Next(free, k), NodeSize(free, k))
        invariant k != i ==> !(p >= mem[p].ptr && (bp > p || bp < mem[p].ptr))
        invariant k != i ==> !(bp > p && bp < mem[p].ptr)
        invariant k == i ==> (bp > p && bp < mem[p].ptr) || (p >= mem[p].ptr && (bp > p || bp < mem[p].ptr))
        decreases if k <= i then i - k else |free| + 1 - k + i
      {
        if p >= mem[p].ptr && (bp > p || bp < mem[p].ptr) {
          break;
        }
        NextNode(free, k);
        k := if k == |free| then 0 else k + 1;
        p := mem[p].ptr;
        NodeFacts(mem, free, brk, k);
        OnePosition(free, brk, bp, i, k);
      }
    }

    /** free: the block whose first unit for the user is ap. */
    method Release(ap: int)
      requires Valid() && ap - 1 in live
      modifies this
      ensures Valid() && live == Without(old(live), ap - 1) && chunks == old(chunks) && brk == old(brk)
      ensures Gained(free, old(free), ap - 1, old(live)[ap - 1])
      ensures Untouched(old(mem), mem, live) && |mem| == |old(mem)|
      ensures 0 <= cur <= |free| && freep == Node(free, cur) && BASE <= freep < ap - 1
      ensures NodeSize(free, cur) >= old(live)[ap - 1] || (cur < |free| && Size(free[cur]) >= old(live)[ap - 1])
    {
      hide Free, Total, ListOk, LiveOk, Covered, Below, Linked, Live, InBlock, Untouched, Canonical, Bounded, Gained;
      hide Node, Next, NodeSize, Without, PutBack;
      ghost var size := live[ap - 1];
      var bp := ap - 1;
      BlockFacts(mem, brk, free, live, chunks, bp);
      var p, i := Place(bp);
      Landing(mem, free, brk, i, bp, size);
      if bp + mem[bp].size == mem[p].ptr {
        mem := mem[bp := Header(mem[mem[p].ptr].ptr, mem[bp].size + mem[mem[p].ptr].size)];
      } else {
        mem := mem[bp := mem[bp].(ptr := mem[p].ptr)];
      }
      if p + mem[p].size == bp {
        mem := mem[p := Header(mem[bp].ptr, mem[p].size + mem[bp].size)];
      } else {
        mem := mem[p := mem[p].(ptr := bp)];
      }
      freep := p;
      PutBackKeeps(old(mem), mem, brk, free, live, chunks, i, bp, PutBack(free, i, bp, bp + size - 1));
      free, live, cur := PutBack(free, i, bp, bp + size - 1), Without(live, bp), i;
    }

    /** morecore, for the address more that sbrk answers with. When the number of bytes does
        not fit the int that sbrk takes, sbrk is asked for fewer than the new block's header
        would say: `wrong`, and the heap is followed no further. */
    method Morecore(nu: int, more: int) returns (p: int, wrong: bool)
      requires Valid() && freep != NULL && nu > 0 && (!Wraps(nu) ==> Answer(more, Ask(nu), brk, |mem|))
      modifies this
      ensures Valid() && live == old(live) && Untouched(old(mem), mem, live)
      ensures wrong <==> Wraps(nu)
      ensures p == NULL <==> wrong || more == -1
      ensures p == NULL ==>
                free == old(free) && chunks == old(chunks) && brk == old(brk) && freep == old(freep) && cur == old(cur)
      ensures p == NULL ==> mem == old(mem)
      ensures p != NULL ==> chunks == old(chunks) + [Extent(more, more + Ask(nu) - 1)] && brk == more + Ask(nu)
      ensures p != NULL ==> Gained(free, old(free), more, Ask(nu)) && p == freep && !TooSmall(free, nu)
    {
      hide Free, Total, ListOk, LiveOk, Covered, Below, Linked, Live, InBlock, Untouched, Canonical, Bounded, Gained;
      hide Node, Next, Without, HeapOk, NodeSize;
      var n := nu;
      if n < MIN_UNITS {
        n := MIN_UNITS;
      }
      AsksShort(n);
      NothingTouched(mem, live);
      wrong := AsInt(n * UNIT) != n * UNIT;
      if wrong || more == SBRK_ERROR {
        return NULL, wrong;
      }
      var hp := more;
      HeapBounds(mem, brk, free, live, chunks);
      mem := mem[hp := Header(PtrOf(mem[hp]), n)];
      ChunkOk(old(mem), mem, brk, free, live, chunks, hp, n);
      SameBlocks(live, hp, n);
      live, chunks, brk := live[hp := n], chunks + [Extent(hp, hp + n - 1)], hp + n;
      ghost var placed := mem;
      var ap := hp + 1;
      assert live[ap - 1] == n;
      Release(ap);
      UntouchedTwice(old(mem), placed, mem, live);
      LargeNode(free, cur, n, nu);
      p := freep;
    }

    /** The branch of malloc that takes a block behind prevp, exactly or its tail. */
    method TakeBlock(prevp: int, nunits: int, ghost k: int) returns (p: int)
      requires Valid() && freep != NULL && 0 <= k < |free| && prevp == Node(free, k) && 1 <= nunits <= Size(free[k])
      modifies this
      ensures Valid() && freep != NULL && p !in old(live) && live == old(live)[p := nunits] && p != -1
      ensures chunks == old(chunks) && brk == old(brk) && Lost(free, old(free), p, nunits)
              && Untouched(old(mem), mem, old(live))
    {
      hide Free, Total, ListOk, LiveOk, Covered, Below, Linked, Live, InBlock, Untouched, Canonical, Bounded, Gained;
      hide Lost;
      hide HeapOk, TakenFrom;
      TwoNodes(mem, brk, free, live, chunks, k);
      p := mem[prevp].ptr;
      var junk := NULL;
      if mem[p].size == nunits {
        mem := mem[prevp := Header(mem[p].ptr, mem[prevp].size)];
      } else {
        mem := mem[p := Header(mem[p].ptr, mem[p].size - nunits)];
        p := p + mem[p].size;
        junk := PtrOf(mem[p]);
        mem := mem[p := Header(junk, nunits)];
      }
      freep := prevp;
      TakeKeeps(old(mem), mem, brk, free, live, chunks, k, nunits, junk);
      free, live, cur := TakenFrom(free, k, nunits), live[p := nunits], k;
    }

    /** malloc: more is the answer of sbrk, which is asked only when no free block is large
        enough, and then for the right amount unless that is 2^31 bytes or more. */
    method Malloc(nbytes: int, more: int) returns (r: int, wrong: bool)
      requires Valid() && 0 <= nbytes < UINT_LIMIT
      requires !Wraps(Units(nbytes)) ==> Answer(more, Ask(Units(nbytes)), brk, |mem|)
      modifies this
      ensures Valid() && freep != NULL && Untouched(old(mem), mem, old(live))
      ensures wrong <==> TooSmall(old(free), Units(nbytes)) && Wraps(Units(nbytes))
      ensures r == NULL <==> TooSmall(old(free), Units(nbytes)) && (wrong || more == -1)
      ensures r == NULL ==> live == old(live) && free == old(free) && chunks == old(chunks) && brk == old(brk)
      ensures r != NULL ==> r - 1 !in old(live) && live == old(live)[r - 1 := Units(nbytes)]
      ensures r != NULL && !TooSmall(old(free), Units(nbytes)) ==>
                chunks == old(chunks) && brk == old(brk) && Lost(free, old(free), r - 1, Units(nbytes))
      ensures r != NULL && TooSmall(old(free), Units(nbytes)) ==>
                && chunks == old(chunks) + [Extent(more, more + Ask(Units(nbytes)) - 1)]
                && brk == more + Ask(Units(nbytes))
                && GrownLess(free, old(free), more, Ask(Units(nbytes)), r - 1, Units(nbytes))
    {
      hide Free, Total, ListOk, LiveOk, Covered, Below, Linked, Live, InBlock, Untouched, Canonical, Bounded, Gained;
      hide Lost;
      hide GrownLess, Node, Next, HeapOk, NodeSize, TooSmall, SeenSmall, Unseen, Seen, TakenFrom, Ask, Wraps;
      var nunits := (nbytes + UNIT - 1) / UNIT + 1;
      HeapBounds(mem, brk, free, live, chunks);
      NothingTouched(mem, live);
      var prevp := freep;
      if prevp == NULL {
        prevp, freep := BASE, BASE;
        mem := mem[BASE := Header(BASE, 0)];
        FirstRing(old(mem), mem, brk, chunks);
        FirstNode(free);
        cur := 0;
      }
      NodeFrom(mem, brk, free, live, chunks, cur);
      SeenNone(free, cur, nunits);
      ghost var k, grown := cur, false;
      var p := mem[prevp].ptr;
      while true
        invariant Valid() && freep != NULL && 0 <= k <= |free| && prevp == Node(free, k) && p == Next(free, k)
        invariant live == old(live) && Untouched(old(mem), mem, live) && |mem| == |old(mem)|
        invariant !grown ==> free == old(free) && chunks == old(chunks) && brk == old(brk)
        invariant grown ==> chunks == old(chunks) + [Extent(more, more + Ask(nunits) - 1)] && brk == more + Ask(nunits)
        invariant grown ==> Gained(free, old(free), more, Ask(nunits)) && more != SBRK_ERROR
        invariant grown ==> TooSmall(old(free), nunits) && !TooSmall(free, nunits) && !Wraps(nunits)
        invariant SeenSmall(free, cur, k, nunits)
        decreases !grown, Unseen(cur, k, |free|)
      {
        SearchStep(mem, brk, free, live, chunks, cur, k, nunits);
        NodeFrom(mem, brk, free, live, chunks, if k == |free| then 0 else k + 1);
        if mem[p].size >= nunits {
          ghost var was, m := free, mem;
          SomeFits(free, k, nunits);
          p := TakeBlock(prevp, nunits, k);
          UntouchedTwice(old(mem), m, mem, old(live));
          if grown {
            GainedLost(free, was, old(free), more, Ask(nunits), p, nunits);
          }
          return p + 1, false;
        }
        if p == freep {
          ghost var m := mem;
          p, wrong := Morecore(nunits, more);
          if p == NULL {
            return NULL, wrong;
          }
          UntouchedTwice(old(mem), m, mem, live);
          NodeFrom(mem, brk, free, live, chunks, cur);
          SeenNone(free, cur, nunits);
          grown, k := true, cur;
        } else {
          k := if k == |free| then 0 else k + 1;
        }
        prevp, p := p, mem[p].ptr;
      }
    }

    /** A user's store to byte i of a block. */
    method Store(ap: int, i: int, v: int)
      requires Valid() && Holds(live, ap - 1, i + 1) && 0 <= i
      modifies this`mem
      ensures Valid() && 0 <= ap + i / UNIT < |old(mem)| && mem == WithByte(old(mem), ap, i, v)
    {
      hide Free, HeapOk, Linked, Live, InBlock, Bytes, Node;
      StoreAt(mem, brk, free, live, chunks, ap, i, v);
      mem := mem[ap + i / UNIT := Data(Bytes(mem[ap + i / UNIT])[i % UNIT := v])];
    }

    /** realloc: a new block with the old one's bytes, as many as both have (and a uint
        counts), and the old one free; for NULL as malloc, for no bytes as free. */
    method Realloc(ptr: int, nbytes: int, more: int) returns (r: int, wrong: bool)
      requires Valid() && 0 <= nbytes < UINT_LIMIT && (ptr == NULL || ptr - 1 in live)
      requires !Wraps(Units(nbytes)) ==> Answer(more, Ask(Units(nbytes)), brk, |mem|)
      modifies this
      ensures Valid()
      ensures wrong <==> (ptr == NULL || nbytes > 0) && TooSmall(old(free), Units(nbytes)) && Wraps(Units(nbytes))
      ensures ptr == NULL ==>
                Untouched(old(mem), mem, old(live))
                && live == if r == NULL then old(live) else old(live)[r - 1 := Units(nbytes)]
      ensures ptr != NULL && nbytes == 0 ==> r == NULL && live == Without(old(live), ptr - 1)
      ensures ptr != NULL && nbytes > 0 && r == NULL ==> live == old(live) && Untouched(old(mem), mem, live)
      ensures r == NULL && nbytes > 0 <==>
              nbytes > 0 && TooSmall(old(free), Units(nbytes)) && (wrong || more == -1)
      ensures ptr != NULL && r != NULL ==>
                && nbytes > 0 && r - 1 !in old(live) && live == Without(old(live)[r - 1 := Units(nbytes)], ptr - 1)
                && Untouched(old(mem), mem, Without(old(live), ptr - 1))
                && SameBytes(old(mem), ptr, mem, r, Smaller(OldSize(old(live)[ptr - 1]), nbytes))
    {
      hide Free, HeapOk, Linked, Live, InBlock, Bytes, Node, Untouched, TooSmall, Lost, GrownLess, Ask, Wraps, Gained;
      hide SameBytes, OnlyBlock, ByteAt, WithByte;
      if ptr == NULL {
        r, wrong := Malloc(nbytes, more);
        return;
      }
      if nbytes == 0 {
        Release(ptr);
        return NULL, false;
      }
      var bp := ptr - 1;
      SizeInHeader(mem, brk, free, live, chunks, bp);
      var oldSize := OldSize(mem[bp].size);
      OldSizeFits(mem[bp].size);
      r, wrong := Malloc(nbytes, more);
      if r == NULL {
        return;
      }
      ghost var m, all, freeThen, brkThen, chunksThen := mem, live, free, brk, chunks;
      BytesKept(old(mem), m, old(live), ptr, oldSize);
      StartCopy(m, all, r - 1, ptr, r);
      var i := 0;
      while i < oldSize && i < nbytes
        invariant 0 <= i <= Smaller(oldSize, nbytes) && Valid() && freep != NULL && live == all
        invariant OnlyBlock(m, mem, all, r - 1) && SameBytes(m, ptr, mem, r, i)
        invariant free == freeThen && brk == brkThen && chunks == chunksThen
      {
        CopyStep(m, mem, brk, free, all, chunks, ptr, oldSize, r, nbytes, i);
        Store(r, i, ByteAt(mem, ptr, i));
        i := i + 1;
      }
      ghost var copied := mem;
      Release(ptr);
      OthersKept(old(mem), m, copied, mem, brkThen, freeThen, old(live), chunksThen, bp, r - 1, Units(nbytes));
      SizeInHeader(mem, brk, free, live, chunks, r - 1);
      BytesKept(copied, mem, live, r, i);
      BytesChain(m, ptr, copied, r, mem, r, i, i);
      BytesChain(old(mem), ptr, m, ptr, mem, r, i, i);
    }

    /** calloc: a block of total_size bytes, all zero; there is room for num * size bytes
        exactly when that product fits a uint. */
    method Calloc(num: int, size: int, more: int) returns (r: int, wrong: bool)
      requires Valid() && 0 <= num < UINT_LIMIT && 0 <= size < UINT_LIMIT
      requires !Wraps(Units(TotalSize(num, size))) ==> Answer(more, Ask(Units(TotalSize(num, size))), brk, |mem|)
      modifies this
      ensures Valid() && Untouched(old(mem), mem, old(live))
      ensures wrong <==> TooSmall(old(free), Units(TotalSize(num, size))) && Wraps(Units(TotalSize(num, size)))
      ensures r == NULL <==> TooSmall(old(free), Units(TotalSize(num, size))) && (wrong || more == -1)
      ensures r == NULL ==> live == old(live)
      ensures r != NULL ==>
                r - 1 !in old(live) && live == old(live)[r - 1 := Units(TotalSize(num, size))]
                && ZeroBytes(mem, r, TotalSize(num, size))
      ensures r != NULL ==> (Holds(live, r - 1, num * size) <==> num * size < UINT_LIMIT)
    {
      hide Free, HeapOk, Linked, Live, InBlock, Bytes, Node, Untouched, TooSmall, Lost, GrownLess, Ask, Wraps, ByteAt;
      hide WithByte, ZeroBytes, OnlyBlock;
      var totalSize := TotalSize(num, size);
      RoomForTotal(num, size);
      r, wrong := Malloc(totalSize, more);
      if r == NULL {
        return;
      }
      ghost var m, all, freeThen, brkThen, chunksThen := mem, live, free, brk, chunks;
      StartClear(m, all, r - 1, r);
      var i := 0;
      while i < totalSize
        invariant 0 <= i <= totalSize && Valid() && live == all && OnlyBlock(m, mem, all, r - 1) && ZeroBytes(mem, r, i)
        invariant free == freeThen && brk == brkThen && chunks == chunksThen
      {
        ClearStep(m, mem, brk, free, all, chunks, r, totalSize, i);
        Store(r, i, 0);
        i := i + 1;
      }
      ClearKept(old(mem), m, mem, brk, free, old(live), chunks, r - 1, Units(totalSize));
    }
  }

  // ----- bytes

  function Digit(x: int, i: nat): int
    decreases i
  {
    if i == 0 then x % 256 else Digit(x / 256, i - 1)
  }

  /** A unit read as bytes: a header is an address of eight bytes, a size of four, and padding. */
  function Bytes(u: Unit): Sixteen {
    match u
    case Data(b) => b
    case Header(ptr, size) =>
      seq(16, (i: nat) => if i < 8 then Digit(ptr * UNIT, i) else if i < 12 then Digit(size, i - 8) else 0)
  }

  /** Byte i of the block whose first unit for the user is ap. */
  function ByteAt(mem: Mem, ap: int, i: int): int
    requires 0 <= i && 0 <= ap + i / UNIT < |mem|
  {
    Bytes(mem[ap + i / UNIT])[i % UNIT]
  }

  function WithByte(mem: Mem, ap: int, i: int, v: int): Mem
    requires 0 <= i && 0 <= ap + i / UNIT < |mem|
  {
    mem[ap + i / UNIT := Data(Bytes(mem[ap + i / UNIT])[i % UNIT := v])]
  }

  lemma ByteWritten(mem: Mem, ap: int, i: int, v: int, j: int)
    requires 0 <= i && 0 <= ap + i / UNIT < |mem| && 0 <= j && 0 <= ap + j / UNIT < |mem|
    ensures ByteAt(WithByte(mem, ap, i, v), ap, j) == if j == i then v else ByteAt(mem, ap, j)
  {
    assert j / UNIT == i / UNIT && j % UNIT == i % UNIT ==> j == i;
  }

  /** Bytes that belong to the block at header a. */
  predicate Holds(live: map<int, int>, a: int, bytes: int) {
    a in live && bytes <= (live[a] - 1) * UNIT
  }

  lemma UnitOf(live: map<int, int>, a: int, bytes: int, i: int)
    requires Holds(live, a, bytes) && 0 <= i < bytes
    ensures InBlock(live, a, a + 1 + i / UNIT) && Live(live, a + 1 + i / UNIT)
  {
    assert InBlock(live, a, a + 1 + i / UNIT);
  }

  lemma LiveInMem(mem: Mem, brk: int, free: seq<Extent>, live: map<int, int>, chunks: seq<Extent>, u: int)
    requires HeapOk(mem, brk, free, live, chunks) && Live(live, u)
    ensures BASE < u < |mem|
  {
  }

  predicate SameByte(m0: Mem, p: int, m1: Mem, q: int, j: int)
    requires 0 <= j
  {
    0 <= p + j / UNIT < |m0| && 0 <= q + j / UNIT < |m1| && ByteAt(m0, p, j) == ByteAt(m1, q, j)
  }

  /** The first n bytes behind p in one memory are those behind q in another. */
  ghost predicate SameBytes(m0: Mem, p: int, m1: Mem, q: int, n: int) {
    forall j :: 0 <= j < n ==> SameByte(m0, p, m1, q, j)
  }

  function Smaller(a: int, b: int): int {
    if a < b then a else b
  }

  /** Only units that the user of block a may write have changed. */
  ghost predicate OnlyBlock(was: Mem, mem: Mem, live: map<int, int>, a: int) {
    |was| == |mem| && forall u :: 0 <= u < |mem| && (u == a || !InBlock(live, a, u)) ==> mem[u] == was[u]
  }

  lemma BytesKept(was: Mem, mem: Mem, live: map<int, int>, p: int, n: int)
    requires Untouched(was, mem, live) && Holds(live, p - 1, n) && 0 < p && p - 1 + live[p - 1] <= |was|
    ensures SameBytes(was, p, mem, p, n)
  {
    forall j | 0 <= j < n
      ensures SameByte(was, p, mem, p, j)
    {
      UnitOf(live, p - 1, n, j);
    }
  }

  lemma BytesChain(m0: Mem, p: int, m1: Mem, q: int, m2: Mem, r: int, n: int, more: int)
    requires SameBytes(m0, p, m1, q, n) && SameBytes(m1, q, m2, r, more) && n <= more
    ensures SameBytes(m0, p, m2, r, n)
  {
    forall j | 0 <= j < n
      ensures SameByte(m0, p, m2, r, j)
    {
      assert SameByte(m0, p, m1, q, j) && SameByte(m1, q, m2, r, j);
    }
  }

  /** One turn of realloc's loop. */
  lemma CopyStep(was: Mem, mem: Mem, brk: int, free: seq<Extent>, live: map<int, int>, chunks: seq<Extent>,
                 p: int, pBytes: int, r: int, rBytes: int, i: int)
    requires HeapOk(mem, brk, free, live, chunks) && OnlyBlock(was, mem, live, r - 1) && SameBytes(was, p, mem, r, i)
    requires Holds(live, p - 1, pBytes) && Holds(live, r - 1, rBytes) && p != r && 0 <= i < pBytes && i < rBytes
    ensures 0 <= p + i / UNIT < |mem| && 0 <= r + i / UNIT < |mem|
    ensures var next := WithByte(mem, r, i, ByteAt(mem, p, i));
            OnlyBlock(was, next, live, r - 1) && SameBytes(was, p, next, r, i + 1)
  {
    hide Free, Bytes;
    UnitOf(live, p - 1, pBytes, i);
    UnitOf(live, r - 1, rBytes, i);
    LiveInMem(mem, brk, free, live, chunks, p + i / UNIT);
    LiveInMem(mem, brk, free, live, chunks, r + i / UNIT);
    var next := WithByte(mem, r, i, ByteAt(mem, p, i));
    assert !InBlock(live, r - 1, p + i / UNIT);
    forall j | 0 <= j < i + 1
      ensures SameByte(was, p, next, r, j)
    {
      assert j < i ==> SameByte(was, p, mem, r, j);
      ByteWritten(mem, r, i, ByteAt(mem, p, i), j);
    }
  }

  lemma StartCopy(mem: Mem, live: map<int, int>, a: int, p: int, r: int)
    ensures OnlyBlock(mem, mem, live, a) && SameBytes(mem, p, mem, r, 0)
  {
  }

  ghost predicate ZeroBytes(mem: Mem, p: int, n: int) {
    forall j :: 0 <= j < n ==> ZeroByte(mem, p, j)
  }

  predicate ZeroByte(mem: Mem, p: int, j: int)
    requires 0 <= j
  {
    0 <= p + j / UNIT < |mem| && ByteAt(mem, p, j) == 0
  }

  lemma StartClear(mem: Mem, live: map<int, int>, a: int, p: int)
    ensures OnlyBlock(mem, mem, live, a) && ZeroBytes(mem, p, 0)
  {
  }

  lemma ClearStep(was: Mem, mem: Mem, brk: int, free: seq<Extent>, live: map<int, int>, chunks: seq<Extent>, r: int,
                  n: int, i: int)
    requires HeapOk(mem, brk, free, live, chunks) && OnlyBlock(was, mem, live, r - 1) && ZeroBytes(mem, r, i)
    requires Holds(live, r - 1, n) && 0 <= i < n
    ensures 0 <= r + i / UNIT < |mem|
    ensures OnlyBlock(was, WithByte(mem, r, i, 0), live, r - 1) && ZeroBytes(WithByte(mem, r, i, 0), r, i + 1)
  {
    hide Free, Bytes;
    UnitOf(live, r - 1, n, i);
    LiveInMem(mem, brk, free, live, chunks, r + i / UNIT);
    var next := WithByte(mem, r, i, 0);
    forall j | 0 <= j < i + 1
      ensures ZeroByte(next, r, j)
    {
      assert j < i ==> ZeroByte(mem, r, j);
      ByteWritten(mem, r, i, 0, j);
    }
  }

  lemma ClearKept(m0: Mem, m1: Mem, m2: Mem, brk: int, free: seq<Extent>, live: map<int, int>, chunks: seq<Extent>,
                  r: int, n: int)
    requires Untouched(m0, m1, live) && r !in live && HeapOk(m1, brk, free, live[r := n], chunks)
    requires OnlyBlock(m1, m2, live[r := n], r)
    ensures Untouched(m0, m2, live)
  {
    hide Free, ListOk, Covered, Below;
    var all := live[r := n];
    forall u | Live(live, u) && 0 <= u < |m0|
      ensures m2[u] == m0[u]
    {
      var c :| InBlock(live, c, u);
      assert InBlock(all, c, u) && Live(live, u) && !InBlock(all, r, u);
    }
  }

  /** Other blocks see neither the copy nor the release. */
  lemma OthersKept(m0: Mem, m1: Mem, m2: Mem, m3: Mem, brk: int, free: seq<Extent>, live: map<int, int>,
                   chunks: seq<Extent>, a: int, r: int, n: int)
    requires Untouched(m0, m1, live) && r !in live && HeapOk(m1, brk, free, live[r := n], chunks)
    requires OnlyBlock(m1, m2, live[r := n], r) && Untouched(m2, m3, Without(live[r := n], a))
    ensures Untouched(m0, m3, Without(live, a))
  {
    hide Free, ListOk, Covered, Below;
    var all := live[r := n];
    forall u | Live(Without(live, a), u) && 0 <= u < |m0|
      ensures m3[u] == m0[u]
    {
      var c :| InBlock(Without(live, a), c, u);
      assert InBlock(live, c, u) && InBlock(all, c, u) && InBlock(Without(all, a), c, u);
      assert Live(live, u) && Live(Without(all, a), u) && !InBlock(all, r, u);
    }
  }

  /** Writes of users inside their blocks disturb nothing. */
  lemma WriteKeeps(was: Mem, mem: Mem, brk: int, free: seq<Extent>, live: map<int, int>, chunks: seq<Extent>, a: int,
                   u: int)
    requires HeapOk(was, brk, free, live, chunks) && InBlock(live, a, u) && u != a && 0 <= u < |was| == |mem|
    requires forall v :: 0 <= v < |mem| && v != u ==> mem[v] == was[v]
    ensures HeapOk(mem, brk, free, live, chunks)
    ensures Linked(was, free) ==> Linked(mem, free)
  {
    hide Free;
    assert Live(live, u);
    forall c | c in live
      ensures c != u
    {
      assert InBlock(live, c, c);
    }
    forall k | 0 <= k <= |free| && Linked(was, free)
      ensures NodeOk(mem, free, k)
    {
      NodeNotLive(was, brk, free, live, chunks, k);
      assert NodeOk(was, free, k);
    }
  }

  // ----- the heap grows

  /** The pointer word of a unit that may hold plain bytes: never followed. */
  function PtrOf(u: Unit): int {
    if u.Header? then u.ptr else NULL
  }

  /** New units from sbrk, as one live block whose header is at their start. */
  lemma ChunkKeeps(was: Mem, mem: Mem, brk: int, free: seq<Extent>, live: map<int, int>, chunks: seq<Extent>,
                   more: int, n: int)
    requires HeapOk(was, brk, free, live, chunks) && brk <= more && n > 0 && more + n <= |was| == |mem|
    requires mem == was[more := Header(PtrOf(was[more]), n)]
    ensures BASE < more + n <= |mem| && ListOk(free, more + n)
    ensures LiveOk(mem, free, live[more := n])
    ensures Covered(free, live[more := n], chunks + [Extent(more, more + n - 1)])
    ensures Below(chunks + [Extent(more, more + n - 1)], more + n)
    ensures more !in live && Untouched(was, mem, live)
    ensures Linked(was, free) ==> Linked(mem, free)
  {
    hide Free;
    var all := live[more := n];
    forall u
      ensures Live(live, u) ==> BASE < u < brk
      ensures Free(free, u) ==> BASE < u < brk
    {
    }
    forall a | a in live
      ensures BASE < a < brk && a + live[a] <= brk
    {
      BlockFacts(was, brk, free, live, chunks, a);
    }
    forall a, u | InBlock(all, a, u)
      ensures (a == more && brk <= u) || (InBlock(live, a, u) && u < brk)
      ensures !Free(free, u)
    {
      assert a != more ==> InBlock(live, a, u) && Live(live, u);
    }
    forall a | a in all
      ensures 0 <= a < |mem| && all[a] >= 1 && mem[a].Header? && mem[a].size == all[a]
    {
    }
    forall u
      ensures Free(chunks + [Extent(more, more + n - 1)], u) <==> Free(free, u) || Live(all, u)
      ensures Free(chunks + [Extent(more, more + n - 1)], u) ==> BASE < u < more + n
    {
      FreeOfSum(chunks, [Extent(more, more + n - 1)], u);
      FreeOfOne(Extent(more, more + n - 1), u);
      if a :| InBlock(live, a, u) {
        assert InBlock(all, a, u);
      }
      assert Has(Extent(more, more + n - 1), u) ==> InBlock(all, more, u);
    }
    forall a, u | InBlock(all, a, u)
      ensures !Free(free, u)
    {
    }
    forall k | 0 <= k <= |free| && Linked(was, free)
      ensures NodeOk(mem, free, k)
    {
      assert NodeOk(was, free, k) && Node(free, k) < brk;
    }
  }

  // ----- a block is taken

  /** What remains of free block i when n units at its end are taken. */
  function TakenFrom(free: seq<Extent>, i: int, n: int): seq<Extent>
    requires 0 <= i < |free|
  {
    Replaced(free, i, i + 1, Left(free[i], free[i].last - n + 1, free[i].last))
  }

  lemma TakenLinked(was: Mem, mem: Mem, free: seq<Extent>, brk: int, i: int, n: int, junk: int)
    requires ListOk(free, brk) && Linked(was, free) && 0 <= i < |free| && 1 <= n <= Size(free[i]) && brk <= |was|
    requires 0 <= Node(free, i) < |was|
    requires Size(free[i]) == n ==> mem == was[Node(free, i) := Header(Next(free, i + 1), NodeSize(free, i))]
    requires Size(free[i]) > n ==>
               mem == was[free[i].first := Header(Next(free, i + 1), Size(free[i]) - n)]
                         [free[i].last - n + 1 := Header(junk, n)]
    ensures Linked(mem, TakenFrom(free, i, n))
  {
    hide Canonical, Bounded;
    var mid := Left(free[i], free[i].last - n + 1, free[i].last);
    NodesAscend(free, brk, i, i + 1);
    assert Size(free[i]) == n <==> mid == [];
    forall k | 0 <= k <= |free| && k != i && k != i + 1
      ensures NodeOk(mem, free, k)
    {
      assert NodeOk(was, free, k);
      if k < i {
        NodesAscend(free, brk, k, i);
        NodesAscend(free, brk, k, i + 1);
      } else {
        NodesAscend(free, brk, i + 1, k);
        NodesAscend(free, brk, i, k);
      }
    }
    assert NodeOk(was, free, i) && NodeOk(was, free, i + 1);
    Relinked(was, mem, free, i, i + 1, mid);
  }

  /** Units of the free list made a live block. */
  lemma TakenKeeps(was: Mem, mem: Mem, brk: int, free: seq<Extent>, t: seq<Extent>, live: map<int, int>,
                   chunks: seq<Extent>, a: int, n: int)
    requires HeapOk(was, brk, free, live, chunks) && n >= 1 && ListOk(t, brk) && Lost(t, free, a, n)
    requires |mem| == |was| && 0 <= a < |mem| && mem[a].Header? && mem[a].size == n && Untouched(was, mem, live)
    ensures HeapOk(mem, brk, t, live[a := n], chunks) && a !in live
  {
    hide Free, ListOk;
    var all := live[a := n];
    assert Free(free, a);
    assert a in live ==> InBlock(live, a, a);
    forall c | c in live
      ensures Live(live, c) && 0 <= c < |mem| && c != a && live[c] >= 1 && mem[c].Header? && mem[c].size == live[c]
    {
      assert InBlock(live, c, c);
    }
    forall c, u | InBlock(all, c, u)
      ensures !Free(t, u) && (c == a || InBlock(live, c, u)) && (c == a <==> Free(free, u))
    {
      assert c != a ==> InBlock(live, c, u);
      assert c == a ==> a <= u < a + n;
    }
    forall u
      ensures Free(chunks, u) <==> Free(t, u) || Live(all, u)
    {
      if c :| InBlock(live, c, u) {
        assert InBlock(all, c, u);
      }
      assert a <= u < a + n ==> InBlock(all, a, u);
      if c :| InBlock(all, c, u) {
        assert c != a ==> InBlock(live, c, u);
      }
    }
  }

  lemma InHeap(free: seq<Extent>, brk: int, i: int)
    requires ListOk(free, brk) && 0 <= i < |free|
    ensures BASE < free[i].first <= free[i].last < brk && Node(free, i) < free[i].first
  {
    NodesAscend(free, brk, i, i + 1);
  }

  lemma TakenLost(free: seq<Extent>, brk: int, i: int, n: int)
    requires ListOk(free, brk) && 0 <= i < |free| && 1 <= n <= Size(free[i])
    ensures ListOk(TakenFrom(free, i, n), brk) && Lost(TakenFrom(free, i, n), free, free[i].last - n + 1, n)
    ensures i <= |TakenFrom(free, i, n)| && Node(TakenFrom(free, i, n), i) == Node(free, i)
  {
    hide Free, Total, Left;
    var a, last, t := free[i].last - n + 1, free[i].last, TakenFrom(free, i, n);
    Taken(free, i, a, last, BASE + 1, brk);
    forall b
      ensures Free(t, b) <==> Free(free, b) && !(a <= b <= last)
      ensures a <= b <= last ==> Free(free, b)
    {
    }
  }

  lemma TakenUntouched(was: Mem, mem: Mem, brk: int, free: seq<Extent>, live: map<int, int>, chunks: seq<Extent>,
                       i: int, n: int)
    requires HeapOk(was, brk, free, live, chunks) && 0 <= i < |free| && 1 <= n <= Size(free[i]) && |mem| == |was|
    requires forall u :: 0 <= u < |mem| && u != Node(free, i) && u != free[i].first && u != free[i].last - n + 1 ==>
               mem[u] == was[u]
    ensures Untouched(was, mem, live)
  {
    hide Free;
    NodeNotLive(was, brk, free, live, chunks, i);
    NodeNotLive(was, brk, free, live, chunks, i + 1);
    forall u | Live(live, u)
      ensures u != free[i].last - n + 1
    {
      var a :| InBlock(live, a, u);
      NodesAreFree(was, free, live, i, a, u);
    }
  }

  /** Both together, for what malloc writes. */
  lemma TakeKeeps(was: Mem, mem: Mem, brk: int, free: seq<Extent>, live: map<int, int>, chunks: seq<Extent>, i: int,
                  n: int, junk: int)
    requires HeapOk(was, brk, free, live, chunks) && Linked(was, free) && 0 <= i < |free| && 1 <= n <= Size(free[i])
    requires 0 <= Node(free, i) < |was| && 0 <= free[i].first < |was|
    requires Size(free[i]) == n ==> mem == was[Node(free, i) := Header(Next(free, i + 1), NodeSize(free, i))]
    requires Size(free[i]) > n ==>
               mem == was[free[i].first := Header(Next(free, i + 1), Size(free[i]) - n)]
                         [free[i].last - n + 1 := Header(junk, n)]
    ensures var t, a := TakenFrom(free, i, n), free[i].last - n + 1;
            && Linked(mem, t) && HeapOk(mem, brk, t, live[a := n], chunks) && a !in live
            && Lost(t, free, a, n) && Untouched(was, mem, live) && i <= |t| && Node(t, i) == Node(free, i)
  {
    hide Free, Total, LiveOk, Covered, Below, Linked, Live, InBlock, Bounded, Lost;
    var a := free[i].last - n + 1;
    InHeap(free, brk, i);
    TakenLinked(was, mem, free, brk, i, n, junk);
    TakenLost(free, brk, i, n);
    TakenUntouched(was, mem, brk, free, live, chunks, i, n);
    NodeFacts(was, free, brk, i + 1);
    assert 0 <= a < |mem| && mem[a].Header? && mem[a].size == n;
    TakenKeeps(was, mem, brk, free, TakenFrom(free, i, n), live, chunks, a, n);
  }

  // ----- the search of malloc

  /** nunits: the units for a request in bytes, and one for the header. */
  function Units(nbytes: int): int {
    (nbytes + UNIT - 1) / UNIT + 1
  }

  /** What morecore asks for. */
  function Ask(nu: int): int {
    if nu < 4096 then 4096 else nu
  }

  /** An answer of sbrk: the error, or the address of new units. */
  predicate Answer(more: int, n: int, brk: int, limit: int) {
    more == -1 || (brk <= more && more + n <= limit)
  }

  /** What sbrk's int parameter makes of a number of bytes. */
  function AsInt(n: int): int {
    if n % UINT_LIMIT >= INT_LIMIT then n % UINT_LIMIT - UINT_LIMIT else n % UINT_LIMIT
  }

  predicate Wraps(nu: int) {
    Ask(nu) * UNIT >= 0x8000_0000
  }

  lemma AsksShort(n: int)
    ensures n >= 0 ==> (AsInt(n * UNIT) != n * UNIT <==> n * UNIT >= INT_LIMIT)
    ensures n * UNIT >= INT_LIMIT ==> AsInt(n * UNIT) < n * UNIT
  {
  }

  /** The bytes that realloc takes a block of n units to have; its old_size is a uint. */
  function OldSize(n: int): int {
    (n - 1) * UNIT % UINT_LIMIT
  }

  /** Only a block of 2^28 + 1 units, the largest that malloc hands out, has more. */
  lemma OldSizeFits(n: int)
    ensures n >= 1 ==> 0 <= OldSize(n) <= (n - 1) * UNIT
    ensures 1 <= n <= Units(UINT_LIMIT - 1) ==> (OldSize(n) == (n - 1) * UNIT <==> n < Units(UINT_LIMIT - 1))
  {
    assert Units(UINT_LIMIT - 1) == 0x1000_0001;
  }

  /** The product of two uints. */
  function TotalSize(num: int, size: int): (n: int)
    requires 0 <= num && 0 <= size
    ensures 0 <= n < UINT_LIMIT
  {
    num * size % UINT_LIMIT
  }

  lemma RoomForTotal(num: int, size: int)
    requires 0 <= num && 0 <= size
    ensures num * size <= (Units(TotalSize(num, size)) - 1) * UNIT <==> num * size < UINT_LIMIT
  {
    RoomFor(num * size);
  }

  lemma RoomFor(n: int)
    requires 0 <= n
    ensures n <= (Units(n % UINT_LIMIT) - 1) * UNIT <==> n < UINT_LIMIT
  {
  }

  /** The largest request asks sbrk for a single unit, and 2^16 times 2^16 bytes are none. */
  lemma WrappedSizes()
    ensures Wraps(Units(UINT_LIMIT - 1)) && AsInt(Ask(Units(UINT_LIMIT - 1)) * UNIT) == UNIT
    ensures TotalSize(0x1_0000, 0x1_0000) == 0
  {
    assert 0x1_0000 * 0x1_0000 == UINT_LIMIT;
  }

  predicate TooSmall(free: seq<Extent>, n: int) {
    forall k :: 0 <= k < |free| ==> Size(free[k]) < n
  }

  /** Node m has been looked at by a search that started behind node cur and has come to k. */
  predicate Seen(cur: int, k: int, m: int) {
    if cur <= k then cur < m <= k else cur < m || m <= k
  }

  function Unseen(cur: int, k: int, n: int): int {
    if cur <= k then n - k + cur else cur - k - 1
  }

  ghost predicate SeenSmall(free: seq<Extent>, cur: int, k: int, n: int) {
    forall m :: 0 <= m <= |free| && Seen(cur, k, m) ==> NodeSize(free, m) < n
  }

  lemma FirstNode(free: seq<Extent>)
    ensures Node(free, 0) == BASE
  {
  }

  lemma SeenNone(free: seq<Extent>, cur: int, n: int)
    ensures SeenSmall(free, cur, cur, n)
  {
  }

  /** One step of the search: from node k to the next one, whose size is being tested. */
  lemma SearchStep(mem: Mem, brk: int, free: seq<Extent>, live: map<int, int>, chunks: seq<Extent>, cur: int, k: int,
                   n: int)
    requires HeapOk(mem, brk, free, live, chunks) && Linked(mem, free)
    requires 0 <= cur <= |free| && 0 <= k <= |free| && SeenSmall(free, cur, k, n) && n > 0
    ensures var next := if k == |free| then 0 else k + 1;
            && Next(free, k) == Node(free, next)
            && (NodeSize(free, next) < n && Next(free, k) != Node(free, cur) ==>
                  SeenSmall(free, cur, next, n) && 0 <= Unseen(cur, next, |free|) < Unseen(cur, k, |free|))
            && (NodeSize(free, next) < n && Next(free, k) == Node(free, cur) ==> TooSmall(free, n))
            && (NodeSize(free, next) >= n ==> k < |free| && NodeSize(free, next) == Size(free[k]))
            && 0 <= Unseen(cur, k, |free|)
  {
    var next := if k == |free| then 0 else k + 1;
    if next < cur {
      NodesAscend(free, brk, next, cur);
    } else if cur < next {
      NodesAscend(free, brk, cur, next);
    }
    forall m | 0 <= m < |free| && next == cur && NodeSize(free, next) < n
      ensures Size(free[m]) < n
    {
      assert NodeSize(free, m + 1) == Size(free[m]);
    }
  }

  lemma SomeFits(free: seq<Extent>, k: int, n: int)
    requires 0 <= k < |free|
    ensures Size(free[k]) >= n ==> !TooSmall(free, n)
  {
  }

  /** The units of a grown list, less a block at its end or in its middle. */
  ghost predicate GrownLess(t: seq<Extent>, free: seq<Extent>, more: int, g: int, a: int, n: int) {
    forall u :: Free(t, u) <==> (Free(free, u) || more <= u < more + g) && !(a <= u < a + n)
  }

  lemma GainedLost(t: seq<Extent>, grown: seq<Extent>, free: seq<Extent>, more: int, g: int, a: int, n: int)
    requires Gained(grown, free, more, g) && Lost(t, grown, a, n)
    ensures GrownLess(t, free, more, g, a, n)
  {
    hide Free;
  }

  lemma UntouchedTwice(m0: Mem, m1: Mem, m2: Mem, live: map<int, int>)
    requires Untouched(m0, m1, live) && Untouched(m1, m2, live)
    ensures Untouched(m0, m2, live)
  {
  }

  /** The first malloc: an empty ring. */
  lemma FirstRing(was: Mem, mem: Mem, brk: int, chunks: seq<Extent>)
    requires HeapOk(was, brk, [], map[], chunks) && mem == was[BASE := Header(BASE, 0)]
    ensures HeapOk(mem, brk, [], map[], chunks) && Linked(mem, []) && Untouched(was, mem, map[])
  {
    forall u
      ensures !Live(map[], u)
    {
    }
  }

  lemma NothingTouched(mem: Mem, live: map<int, int>)
    ensures Untouched(mem, mem, live)
  {
  }

  lemma SameBlocks(live: map<int, int>, a: int, n: int)
    requires a !in live
    ensures Without(live[a := n], a) == live
  {
  }

  /** What free reads around the place where a block goes back. */
  lemma Landing(mem: Mem, free: seq<Extent>, brk: int, i: int, a: int, size: int)
    requires ListOk(free, brk) && Linked(mem, free) && Between(free, i, a) && size > 0 && BASE < a
    requires forall u :: a <= u < a + size ==> !Free(free, u)
    ensures BASE <= Node(free, i) < a && Node(free, i) + NodeSize(free, i) <= a && 0 <= NodeSize(free, i)
    ensures i < |free| ==> a + size <= free[i].first && Next(free, i) == free[i].first
    ensures i < |free| ==> 0 <= free[i].first < |mem| && mem[free[i].first] == Header(Next(free, i + 1), Size(free[i]))
    ensures i == |free| ==> Next(free, i) == BASE
  {
    hide Free;
    forall j | 0 <= j < i
      ensures free[j].first < a
    {
      NodesAscend(free, brk, i - 1, i);
    }
    Clear(free, i, a, a + size - 1);
    assert i < |free| ==> NodeOk(mem, free, i + 1);
  }

  lemma PutBackKeeps(was: Mem, mem: Mem, brk: int, free: seq<Extent>, live: map<int, int>, chunks: seq<Extent>, i: int,
                     a: int, t: seq<Extent>)
    requires HeapOk(was, brk, free, live, chunks) && Linked(was, free) && a in live && Between(free, i, a)
    requires |mem| == |was| && t == PutBack(free, i, a, a + live[a] - 1)
    requires forall u :: 0 <= u < |mem| && u != a && u != Node(free, i) ==> mem[u] == was[u]
    requires var next := i < |free| && a + live[a] == free[i].first;
             var link := if next then Next(free, i + 1) else Next(free, i);
             var total := live[a] + if next then Size(free[i]) else 0;
             0 <= Node(free, i) < |mem| && 0 <= a < |mem| &&
             if Node(free, i) + NodeSize(free, i) == a
             then mem[Node(free, i)] == Header(link, NodeSize(free, i) + total)
             else mem[Node(free, i)] == Header(a, NodeSize(free, i)) && mem[a] == Header(link, total)
    ensures Linked(mem, t) && HeapOk(mem, brk, t, Without(live, a), chunks) && Gained(t, free, a, live[a])
    ensures Untouched(was, mem, Without(live, a))
    ensures i <= |t| && Node(t, i) == Node(free, i)
    ensures NodeSize(t, i) >= live[a] || (i < |t| && Size(t[i]) >= live[a])
  {
    hide Free, Total, LiveOk, Covered, Below, Linked, Live, InBlock, Canonical, Bounded, Gained, Without;
    BlockFacts(was, brk, free, live, chunks, a);
    Landing(was, free, brk, i, a, live[a]);
    PutBackLinked(was, mem, free, brk, i, a, live[a]);
    Returned(free, i, a, a + live[a] - 1, BASE + 1, brk, t);
    OnlyTheirs(was, mem, brk, free, live, chunks, i, a);
    FreedKeeps(was, mem, brk, free, t, live, chunks, a);
    NearBy(free, brk, i, a, live[a]);
  }

  /** The returned units lie in node i of the new list or in the one after it. */
  lemma NearBy(free: seq<Extent>, brk: int, i: int, a: int, size: int)
    requires ListOk(free, brk) && Between(free, i, a) && size > 0
    ensures var t := PutBack(free, i, a, a + size - 1);
            && i <= |t| && Node(t, i) == Node(free, i)
            && (NodeSize(t, i) >= size || (i < |t| && Size(t[i]) >= size))
  {
    assert 0 < i ==> free[i - 1].first <= free[i - 1].last;
    assert i < |free| ==> free[i].first <= free[i].last;
  }

  lemma LargeNode(free: seq<Extent>, k: int, n: int, nu: int)
    requires 0 <= k <= |free| && 0 < nu <= n && (NodeSize(free, k) >= n || (k < |free| && Size(free[k]) >= n))
    ensures !TooSmall(free, nu)
  {
    assert k > 0 ==> NodeSize(free, k) == Size(free[k - 1]);
  }

  lemma HeapBounds(mem: Mem, brk: int, free: seq<Extent>, live: map<int, int>, chunks: seq<Extent>)
    requires HeapOk(mem, brk, free, live, chunks)
    ensures BASE < brk <= |mem|
  {
  }

  lemma ChunkOk(was: Mem, mem: Mem, brk: int, free: seq<Extent>, live: map<int, int>, chunks: seq<Extent>, more: int,
                n: int)
    requires HeapOk(was, brk, free, live, chunks) && brk <= more && n > 0 && more + n <= |was| == |mem|
    requires mem == was[more := Header(PtrOf(was[more]), n)]
    ensures HeapOk(mem, more + n, free, live[more := n], chunks + [Extent(more, more + n - 1)])
    ensures more !in live && Untouched(was, mem, live)
    ensures Linked(was, free) ==> Linked(mem, free)
  {
    hide Free, ListOk, LiveOk, Covered, Below, Linked, Untouched;
    ChunkKeeps(was, mem, brk, free, live, chunks, more, n);
  }

  lemma NodeFrom(mem: Mem, brk: int, free: seq<Extent>, live: map<int, int>, chunks: seq<Extent>, k: int)
    requires HeapOk(mem, brk, free, live, chunks) && Linked(mem, free) && 0 <= k <= |free|
    ensures BASE <= Node(free, k) < |mem| && mem[Node(free, k)] == Header(Next(free, k), NodeSize(free, k))
  {
    NodeFacts(mem, free, brk, k);
    if k > 0 {
      NodesAscend(free, brk, 0, k);
    }
  }

  lemma TwoNodes(mem: Mem, brk: int, free: seq<Extent>, live: map<int, int>, chunks: seq<Extent>, k: int)
    requires HeapOk(mem, brk, free, live, chunks) && Linked(mem, free) && 0 <= k < |free|
    ensures BASE <= Node(free, k) < free[k].first <= free[k].last < |mem| && Next(free, k) == free[k].first
    ensures mem[Node(free, k)] == Header(free[k].first, NodeSize(free, k))
    ensures mem[free[k].first] == Header(Next(free, k + 1), Size(free[k]))
  {
    NodeFacts(mem, free, brk, k);
    NodeFacts(mem, free, brk, k + 1);
    InHeap(free, brk, k);
    if k > 0 {
      NodesAscend(free, brk, 0, k);
    }
  }

  lemma NothingGiven(mem: Mem, brk: int)
    requires BASE < brk <= |mem|
    ensures HeapOk(mem, brk, [], map[], [])
  {
    forall u
      ensures !Live(map[], u) && !Free([], u)
    {
    }
  }

  /** In every valid heap two blocks in use lie apart, header and all, as do two free ones,
      with something between them. */
  lemma BlocksApart(mem: Mem, brk: int, free: seq<Extent>, live: map<int, int>, chunks: seq<Extent>, a: int, c: int)
    requires HeapOk(mem, brk, free, live, chunks) && a in live && c in live && a < c
    ensures a + live[a] <= c
    ensures forall i, j :: 0 <= i < j < |free| ==> free[i].last + 1 < free[j].first
    ensures forall i :: 0 <= i < |free| ==> free[i].last < a || a + live[a] <= free[i].first
  {
    assert InBlock(live, c, c);
    assert a + live[a] > c ==> InBlock(live, a, c);
    forall i | 0 <= i < |free|
      ensures free[i].last < a || a + live[a] <= free[i].first
    {
      var u := if a < free[i].first then free[i].first else a;
      assert Has(free[i], u) ==> Free(free, u);
      assert a <= u < a + live[a] ==> InBlock(live, a, u);
    }
  }

  lemma StoreAt(mem: Mem, brk: int, free: seq<Extent>, live: map<int, int>, chunks: seq<Extent>, ap: int, i: int,
                v: int)
    requires HeapOk(mem, brk, free, live, chunks) && Holds(live, ap - 1, i + 1) && 0 <= i
    ensures 0 <= ap + i / UNIT < |mem| && HeapOk(WithByte(mem, ap, i, v), brk, free, live, chunks)
    ensures Linked(mem, free) ==> Linked(WithByte(mem, ap, i, v), free)
  {
    hide Free, HeapOk, Linked, Bytes;
    UnitOf(live, ap - 1, i + 1, i);
    LiveInMem(mem, brk, free, live, chunks, ap + i / UNIT);
    WriteKeeps(mem, WithByte(mem, ap, i, v), brk, free, live, chunks, ap - 1, ap + i / UNIT);
  }

  lemma SizeInHeader(mem: Mem, brk: int, free: seq<Extent>, live: map<int, int>, chunks: seq<Extent>, a: int)
    requires HeapOk(mem, brk, free, live, chunks) && a in live
    ensures BASE < a < |mem| && mem[a].Header? && mem[a].size == live[a] >= 1 && a + live[a] <= |mem|
  {
    BlockFacts(mem, brk, free, live, chunks, a);
  }

  lemma BlockFacts(mem: Mem, brk: int, free: seq<Extent>, live: map<int, int>, chunks: seq<Extent>, a: int)
    requires HeapOk(mem, brk, free, live, chunks) && a in live
    ensures BASE < a < |mem| && live[a] >= 1 && a + live[a] <= brk && mem[a].Header? && mem[a].size == live[a]
    ensures forall u :: a <= u < a + live[a] ==> !Free(free, u)
    ensures forall k :: 0 <= k < |free| ==> free[k].first != a
  {
    hide Free;
    assert InBlock(live, a, a) && Live(live, a);
    assert InBlock(live, a, a + live[a] - 1) && Live(live, a + live[a] - 1);
    forall u | a <= u < a + live[a]
      ensures !Free(free, u)
    {
      assert InBlock(live, a, u);
    }
    forall k | 0 <= k < |free|
      ensures free[k].first != a
    {
      FirstIsFree(free, k);
    }
  }

  lemma FirstIsFree(free: seq<Extent>, k: int)
    requires Canonical(free) && 0 <= k < |free|
    ensures Free(free, free[k].first)
  {
    assert Has(free[k], free[k].first);
  }

  lemma NodeFacts(mem: Mem, free: seq<Extent>, brk: int, k: int)
    requires Linked(mem, free) && ListOk(free, brk) && 0 <= k <= |free|
    ensures 0 <= Node(free, k) < |mem| && mem[Node(free, k)] == Header(Next(free, k), NodeSize(free, k))
  {
    assert NodeOk(mem, free, k);
  }

  lemma NextNode(free: seq<Extent>, k: int)
    requires 0 <= k <= |free|
    ensures Next(free, k) == Node(free, if k == |free| then 0 else k + 1)
  {
  }
}
