/** What a process sees of its memory, and what copyin, copyout and vmfault of vm.c do to it:
    a page below the process's size that was never touched reads as zeros, whether or not a
    frame has been given to it yet. */
module UserMemory {
  import Blocks
  import opened PageNeeds
  import opened PageTable
  import opened Vm

  type Bytes = s: seq<int> | |s| == PGSIZE witness Blocks.Zeros(PGSIZE)

  const ZERO: Bytes := Blocks.Zeros(PGSIZE)

  predicate User(e: nat) {
    e / 16 % 2 == 1
  }

  predicate Writable(e: nat) {
    e / 4 % 2 == 1
  }

  /** A page as bytes; the pages of processes are all of the first kind. */
  function Raw(page: Page<Bytes>): Bytes {
    if page.Data? then page.d else ZERO
  }

  /** What page v of the process reads as, faulted in or not. */
  function Contents(m: Mem<Bytes>, r: nat, v: nat): Bytes {
    if Leaf(m, r, v) != 0 && Ppn(Leaf(m, r, v)) < |m.pages| then Raw(m.pages[Ppn(Leaf(m, r, v))]) else ZERO
  }

  /** A process of size sz may read, or write, page v. */
  predicate Reads(m: Mem<Bytes>, r: nat, sz: nat, v: nat) {
    v < USER_PAGES && if Leaf(m, r, v) != 0 then User(Leaf(m, r, v)) else v * PGSIZE < sz
  }

  predicate Writes(m: Mem<Bytes>, r: nat, sz: nat, v: nat) {
    Reads(m, r, sz, v) && (Leaf(m, r, v) != 0 ==> Writable(Leaf(m, r, v)))
  }

  /** The byte at a virtual address. */
  function ByteAt(m: Mem<Bytes>, r: nat, va: nat): int {
    Contents(m, r, va / PGSIZE)[va % PGSIZE]
  }

  // ----- what other spaces, and the process itself, notice

  predicate SameRights(m: Mem<Bytes>, t: Mem<Bytes>, r: nat, sz: nat, v: nat) {
    (Reads(t, r, sz, v) <==> Reads(m, r, sz, v)) && (Writes(t, r, sz, v) <==> Writes(m, r, sz, v))
  }

  ghost predicate Rights(m: Mem<Bytes>, t: Mem<Bytes>, r: nat, sz: nat) {
    && InTree(t, Root(r))
    && (forall v: nat :: v < USER_PAGES ==> SameRights(m, t, r, sz, v))
    && (forall v: nat :: USER_PAGES <= v < PAGES ==> Leaf(t, r, v) == Leaf(m, r, v))
  }

  /** The process sees no difference. */
  ghost predicate Unnoticed(m: Mem<Bytes>, t: Mem<Bytes>, r: nat, sz: nat) {
    Rights(m, t, r, sz) && forall v: nat :: v < USER_PAGES ==> Contents(t, r, v) == Contents(m, r, v)
  }

  /** The other address spaces have their mappings and contents. */
  ghost predicate Apart(m: Mem<Bytes>, t: Mem<Bytes>, r: nat) {
    && (forall q: nat :: InTree(t, Root(q)) <==> InTree(m, Root(q)))
    && forall q: nat, v: nat :: InTree(m, Root(q)) && q != r && v < PAGES ==> SameElsewhere(m, t, q, v)
  }

  predicate SameElsewhere(m: Mem<Bytes>, t: Mem<Bytes>, q: nat, v: nat) {
    Leaf(t, q, v) == Leaf(m, q, v) && (v < USER_PAGES ==> Contents(t, q, v) == Contents(m, q, v))
  }

  /** The bytes from address at on are the data, and nothing else changed. */
  ghost predicate Wrote(m: Mem<Bytes>, t: Mem<Bytes>, r: nat, sz: nat, at: nat, data: seq<int>) {
    && Rights(m, t, r, sz)
    && forall va: nat :: va / PGSIZE < USER_PAGES ==>
         ByteAt(t, r, va) == if at <= va < at + |data| then data[va - at] else ByteAt(m, r, va)
  }

  lemma UnnoticedSelf(m: Mem<Bytes>, r: nat, sz: nat)
    requires InTree(m, Root(r))
    ensures Unnoticed(m, m, r, sz) && Apart(m, m, r)
  {
  }

  lemma UnnoticedOn(m: Mem<Bytes>, t: Mem<Bytes>, u: Mem<Bytes>, r: nat, sz: nat)
    requires Unnoticed(m, t, r, sz) && Unnoticed(t, u, r, sz) && Apart(m, t, r) && Apart(t, u, r)
    ensures Unnoticed(m, u, r, sz) && Apart(m, u, r)
  {
    hide Leaf, Contents, Reads, Writes;
    forall v: nat | v < USER_PAGES
      ensures SameRights(m, u, r, sz, v)
    {
      assert SameRights(m, t, r, sz, v) && SameRights(t, u, r, sz, v);
    }
    forall q: nat, v: nat | InTree(m, Root(q)) && q != r && v < PAGES
      ensures SameElsewhere(m, u, q, v)
    {
      assert SameElsewhere(m, t, q, v) && SameElsewhere(t, u, q, v);
    }
  }

  /** A mapped page whose frame kept what was in it. */
  lemma KeptContents(m: Mem<Bytes>, t: Mem<Bytes>, q: nat, v: nat)
    requires Inv(m) && InTree(m, Root(q)) && v < USER_PAGES && Leaf(t, q, v) == Leaf(m, q, v) && |t.pages| == |m.pages|
    requires forall x :: x in m.owner && Loose(m, x) && x < |m.pages| ==> t.pages[x] == m.pages[x]
    ensures Contents(t, q, v) == Contents(m, q, v)
  {
    hide Leaf;
    if Leaf(m, q, v) != 0 {
      FrameThere(m, q, v);
    }
  }

  lemma GrewUnnoticed(m: Mem<Bytes>, t: Mem<Bytes>, r: nat, sz: nat)
    requires Inv(m) && Grew(m, t) && InTree(m, Root(r))
    ensures Unnoticed(m, t, r, sz) && Apart(m, t, r)
  {
    hide Leaf, Inv, Contents, User, Writable;
    forall q: nat, v: nat | InTree(m, Root(q)) && v < PAGES
      ensures SameElsewhere(m, t, q, v)
    {
      if v < USER_PAGES {
        KeptContents(m, t, q, v);
      }
    }
    forall v: nat | v < USER_PAGES
      ensures SameRights(m, t, r, sz, v) && Contents(t, r, v) == Contents(m, r, v)
    {
      assert SameElsewhere(m, t, r, v);
    }
  }

  /** The flags of a page that vmfault maps. */
  lemma FaultFlags(e: nat)
    requires Flags(e) == WithV(PTE_W + PTE_U + PTE_R)
    ensures User(e) && Writable(e)
  {
    hide User, Writable;
    var q := e / 0x400;
    FlagBits(q);
    assert e == 0x400 * q + 23;
  }

  lemma FlagBits(q: nat)
    ensures User(0x400 * q + 23) && Writable(0x400 * q + 23)
  {
    hide User, Writable;
    UserBit(0x40 * q + 1, 0x20 * q);
    WritableBit(0x100 * q + 5, 0x80 * q + 2);
  }

  lemma UserBit(a: nat, k: nat)
    requires a == 2 * k + 1
    ensures User(16 * a + 7)
  {
    assert (16 * a + 7) / 16 == a;
  }

  lemma WritableBit(a: nat, k: nat)
    requires a == 2 * k + 1
    ensures Writable(4 * a + 3)
  {
    assert (4 * a + 3) / 4 == a;
  }

  /** Demand paging is invisible: a zeroed frame for an untouched page changes nothing that
      the process or anyone else can see. */
  lemma FaultUnnoticed(m: Mem<Bytes>, t: Mem<Bytes>, r: nat, sz: nat, a: nat)
    requires Inv(m) && InTree(m, Root(r)) && a < USER_PAGES && Leaf(m, r, a) == 0 && a * PGSIZE < sz
    requires AddedPage(m, t, r, a, Data(ZERO), PTE_W + PTE_U + PTE_R)
    ensures Unnoticed(m, t, r, sz) && Apart(m, t, r)
    ensures Leaf(t, r, a) != 0 && User(Leaf(t, r, a)) && Writable(Leaf(t, r, a))
  {
    hide Leaf, Inv, WithV;
    FaultFlags(Leaf(t, r, a));
    hide Flags, User, Writable, Contents;
    forall x | x in m.owner && Loose(m, x) && x < |m.pages|
      ensures t.pages[x] == m.pages[x]
    {
      assert Stays(m, t, x);
    }
    forall q: nat, v: nat | InTree(m, Root(q)) && v < PAGES && (q != r || v != a)
      ensures SameElsewhere(m, t, q, v)
    {
      if v < USER_PAGES {
        KeptContents(m, t, q, v);
      }
    }
    ZeroPage(m, t, r, a);
    forall v: nat | v < USER_PAGES
      ensures SameRights(m, t, r, sz, v) && Contents(t, r, v) == Contents(m, r, v)
    {
      assert v != a ==> SameElsewhere(m, t, r, v);
    }
  }

  lemma ZeroPage(m: Mem<Bytes>, t: Mem<Bytes>, r: nat, a: nat)
    requires Leaf(m, r, a) == 0 && Leaf(t, r, a) != 0 && Ppn(Leaf(t, r, a)) < |t.pages|
             && t.pages[Ppn(Leaf(t, r, a))] == Data(ZERO)
    ensures Contents(m, r, a) == ZERO == Contents(t, r, a)
  {
  }

  // ----- writes

  /** A frame of the process patched from offset o on. */
  function Patched(page: Bytes, o: nat, piece: seq<int>): Bytes
    requires o + |piece| <= PGSIZE
  {
    page[..o] + piece + page[o + |piece|..]
  }

  /** One turn of copyout: the process's page v, as it reads, with a piece from offset o on. */
  lemma PatchWrote(m: Mem<Bytes>, t: Mem<Bytes>, u: Mem<Bytes>, r: nat, sz: nat, v: nat, o: nat, piece: seq<int>,
                   p: nat)
    requires Inv(t) && InTree(m, Root(r)) && Unnoticed(m, t, r, sz) && Apart(m, t, r)
    requires v < USER_PAGES && Leaf(t, r, v) != 0 && p == Ppn(Leaf(t, r, v)) < |t.pages| && o + |piece| <= PGSIZE
    requires u == t.(pages := t.pages[p := Data(Patched(Raw(t.pages[p]), o, piece))]) && SameMaps(t, u)
             && SameRoots(t, u)
    ensures Wrote(m, u, r, sz, v * PGSIZE + o, piece) && Apart(m, u, r)
  {
    hide Inv, User, Writable;
    forall q: nat, w: nat | InTree(t, Root(q)) && w < USER_PAGES && (q != r || w != v)
      ensures Contents(u, q, w) == Contents(t, q, w)
    {
      OtherFrame(t, r, v, q, w);
    }
    forall w: nat | w < USER_PAGES
      ensures SameRights(m, u, r, sz, w)
    {
      assert SameRights(m, t, r, sz, w);
    }
    forall q: nat, w: nat | InTree(m, Root(q)) && q != r && w < PAGES
      ensures SameElsewhere(m, u, q, w)
    {
      assert SameElsewhere(m, t, q, w);
    }
    hide Leaf, Contents;
    forall va: nat | va / PGSIZE < USER_PAGES
      ensures ByteAt(u, r, va)
           == if v * PGSIZE + o <= va < v * PGSIZE + o + |piece| then piece[va - (v * PGSIZE + o)] else ByteAt(m, r, va)
    {
      PatchByte(m, u, r, v, o, piece, va);
    }
  }

  /** Different pages of processes have different frames. */
  lemma OtherFrame(t: Mem<Bytes>, r: nat, v: nat, q: nat, w: nat)
    requires Inv(t) && InTree(t, Root(r)) && InTree(t, Root(q)) && v < USER_PAGES && w < USER_PAGES
             && (q != r || w != v)
    ensures Leaf(t, r, v) != 0 && Leaf(t, q, w) != 0 ==> Ppn(Leaf(t, r, v)) != Ppn(Leaf(t, q, w))
  {
    hide Leaf, Inv;
    if Leaf(t, r, v) != 0 && Leaf(t, q, w) != 0 {
      FrameThere(t, r, v);
      FrameThere(t, q, w);
    }
  }

  lemma PatchByte(m: Mem<Bytes>, u: Mem<Bytes>, r: nat, v: nat, o: nat, piece: seq<int>, va: nat)
    requires o + |piece| <= PGSIZE && v < USER_PAGES && Contents(u, r, v) == Patched(Contents(m, r, v), o, piece)
    requires va / PGSIZE != v ==> Contents(u, r, va / PGSIZE) == Contents(m, r, va / PGSIZE)
    ensures ByteAt(u, r, va)
         == if v * PGSIZE + o <= va < v * PGSIZE + o + |piece| then piece[va - (v * PGSIZE + o)] else ByteAt(m, r, va)
  {
    hide Contents;
    assert va == va / PGSIZE * PGSIZE + va % PGSIZE;
  }

  lemma WroteOn(m: Mem<Bytes>, t: Mem<Bytes>, u: Mem<Bytes>, r: nat, sz: nat, at: nat, data: seq<int>, more: seq<int>)
    requires Wrote(m, t, r, sz, at, data) && Wrote(t, u, r, sz, at + |data|, more) && Apart(m, t, r) && Apart(t, u, r)
    ensures Wrote(m, u, r, sz, at, data + more) && Apart(m, u, r)
  {
    hide Leaf, Contents, Reads, Writes, ByteAt;
    forall v: nat | v < USER_PAGES
      ensures SameRights(m, u, r, sz, v)
    {
      assert SameRights(m, t, r, sz, v) && SameRights(t, u, r, sz, v);
    }
    forall q: nat, v: nat | InTree(m, Root(q)) && q != r && v < PAGES
      ensures SameElsewhere(m, u, q, v)
    {
      assert SameElsewhere(m, t, q, v) && SameElsewhere(t, u, q, v);
    }
  }

  lemma UnnoticedWrote(m: Mem<Bytes>, t: Mem<Bytes>, r: nat, sz: nat, at: nat)
    requires Unnoticed(m, t, r, sz)
    ensures Wrote(m, t, r, sz, at, [])
  {
    hide Leaf, Contents;
  }

  /** What a process finds where something was copied out for it. */
  lemma CopiedOutReadsBack(m: Mem<Bytes>, t: Mem<Bytes>, r: nat, sz: nat, at: nat, data: seq<int>, dst: seq<int>)
    requires Wrote(m, t, r, sz, at, data) && |dst| == |data| && (at + |data|) <= TRAPFRAME
    requires forall i :: 0 <= i < |dst| ==> dst[i] == ByteAt(t, r, at + i)
    ensures dst == data
  {
    hide Leaf, Contents, ByteAt;
    forall i | 0 <= i < |dst|
      ensures dst[i] == data[i]
    {
      assert (at + i) / PGSIZE < USER_PAGES;
    }
  }

  /** fork: below the size, the child reads what the parent read, byte by byte, and so does
      the parent still. */
  lemma ForkedReads(m: Mem<Bytes>, t: Mem<Bytes>, o: nat, n: nat, sz: nat, va: nat)
    requires Inv(m) && InTree(m, Root(o)) && InTree(m, Root(n)) && o != n && va < sz <= TRAPFRAME
    requires Copied(m, t, o, n, PagesOf(sz))
    ensures ByteAt(t, n, va) == ByteAt(m, o, va) == ByteAt(t, o, va)
    ensures Reads(t, n, sz, va / PGSIZE) <==> Reads(m, o, sz, va / PGSIZE)
    ensures Writes(t, n, sz, va / PGSIZE) <==> Writes(m, o, sz, va / PGSIZE)
  {
    hide Leaf, Inv, User, Writable, Contents, FreshFrame;
    var v := va / PGSIZE;
    BelowSize(sz, va);
    Rounding(sz, v);
    assert CopiedPage(m, t, o, n, v);
    ForkedPage(m, t, o, n, v);
    forall x | x in m.owner && Loose(m, x) && x < |m.pages|
      ensures t.pages[x] == m.pages[x]
    {
      assert Stays(m, t, x);
    }
    KeptContents(m, t, o, v);
  }

  lemma ForkedPage(m: Mem<Bytes>, t: Mem<Bytes>, o: nat, n: nat, v: nat)
    requires CopiedPage(m, t, o, n, v)
    ensures Contents(t, n, v) == Contents(m, o, v)
    ensures (Leaf(t, n, v) != 0 <==> Leaf(m, o, v) != 0)
    ensures Leaf(m, o, v) != 0 ==> User(Leaf(t, n, v)) == User(Leaf(m, o, v))
    ensures Leaf(m, o, v) != 0 ==> Writable(Leaf(t, n, v)) == Writable(Leaf(m, o, v))
  {
    hide Leaf;
    if Leaf(m, o, v) != 0 {
      SameBits(Leaf(t, n, v), Leaf(m, o, v));
    }
  }

  lemma SameBits(a: nat, b: nat)
    requires Flags(a) == Flags(b)
    ensures User(a) == User(b) && Writable(a) == Writable(b)
  {
    hide User, Writable;
    FlagsDecide(a / 0x400, a % 0x400);
    FlagsDecide(b / 0x400, b % 0x400);
    assert a == 0x400 * (a / 0x400) + a % 0x400 && b == 0x400 * (b / 0x400) + b % 0x400;
  }

  lemma FlagsDecide(q: nat, f: nat)
    ensures User(0x400 * q + f) == User(f) && Writable(0x400 * q + f) == Writable(f)
  {
    assert (0x400 * q + f) / 16 == 2 * (0x20 * q) + f / 16;
    assert (0x400 * q + f) / 4 == 2 * (0x80 * q) + f / 4;
    Even(0x20 * q, f / 16);
    Even(0x80 * q, f / 4);
  }

  lemma Even(k: nat, x: nat)
    ensures (2 * k + x) % 2 == x % 2
  {
  }

  // ----- steps of the methods

  /** An address space in order: the two pages above USER_PAGES are the kernel's. */
  ghost predicate Sound(m: Mem<Bytes>, r: nat, sz: nat) {
    && Inv(m) && InTree(m, Root(r)) && sz <= TRAPFRAME
    && forall v: nat :: USER_PAGES <= v < PAGES ==> !User(Leaf(m, r, v))
  }

  lemma StillSound(m: Mem<Bytes>, t: Mem<Bytes>, r: nat, sz: nat)
    requires Sound(m, r, sz) && Inv(t) && Rights(m, t, r, sz)
    ensures Sound(t, r, sz)
  {
    hide Leaf, Inv, User;
  }

  lemma BelowSize(sz: nat, va: nat)
    requires sz <= TRAPFRAME
    ensures va < sz ==> va / PGSIZE < USER_PAGES && va / PGSIZE * PGSIZE < sz
  {
  }

  lemma FaultPerm()
    ensures PTE_W + PTE_U + PTE_R < 0x400 && IsLeaf(PTE_W + PTE_U + PTE_R)
  {
  }

  lemma FaultFrame(m: Mem<Bytes>, m2: Mem<Bytes>, m3: Mem<Bytes>, r: nat, v: nat, p: nat)
    requires Extended(m2, m3, r, v, 1, p, PTE_W + PTE_U + PTE_R) && InTree(m2, Root(r)) && v < USER_PAGES
             && InTree(m, Root(r))
    requires AddedPage(m, m3, r, v, Data(ZERO), PTE_W + PTE_U + PTE_R) && Took(m, m3, WayMissing(m, r, v), 1)
    ensures FaultedPage(m, m3, r, v, p)
  {
    hide Leaf, Took, Stays;
    PteParts(p, WithV(PTE_W + PTE_U + PTE_R));
    assert Leaf(m3, r, v) == MakePte(p, WithV(PTE_W + PTE_U + PTE_R));
    FaultFlags(Leaf(m3, r, v));
    hide User, Writable, Ppn, Flags, MakePte, WithV;
  }

  // ----- who can still be served

  /** Page v of the process was given the frame p and the tables it lacked; no other page
      was touched. */
  ghost predicate FaultedPage(m: Mem<Bytes>, t: Mem<Bytes>, r: nat, v: nat, p: nat) {
    && v < USER_PAGES && SameSpaces(m, t) && Took(m, t, WayMissing(m, r, v), 1)
    && UserFrame(t, r, v, p) && Writable(Leaf(t, r, v)) && Flags(Leaf(t, r, v)) == 23
    && forall w: nat :: w < PAGES ==> (Leaf(t, r, w) != 0 <==> Leaf(m, r, w) != 0 || w == v)
  }

  predicate UserFrame(m: Mem<Bytes>, r: nat, v: nat, p: nat) {
    v < USER_PAGES && Leaf(m, r, v) != 0 && User(Leaf(m, r, v)) && p == Ppn(Leaf(m, r, v))
  }

  /** The same, or a page that had its frame already. */
  ghost predicate Touched(m: Mem<Bytes>, t: Mem<Bytes>, r: nat, v: nat) {
    && SameSpaces(m, t) && (if Leaf(m, r, v) == 0 then Took(m, t, WayMissing(m, r, v), 1) else Took(m, t, {}, 0))
    && forall w: nat :: w < PAGES ==> (Leaf(t, r, w) != 0 <==> Leaf(m, r, w) != 0 || w == v)
  }

  lemma FaultedUser(m: Mem<Bytes>, t: Mem<Bytes>, r: nat, v: nat, p: nat)
    requires FaultedPage(m, t, r, v, p) && Leaf(m, r, v) == 0
    ensures UserFrame(t, r, v, p) && Touched(m, t, r, v) && Writable(Leaf(t, r, v))
  {
  }

  lemma MappedTouched(m: Mem<Bytes>, r: nat, v: nat)
    ensures Leaf(m, r, v) != 0 ==> Touched(m, m, r, v)
  {
    hide At, Leaf;
    TookNone(m);
  }

  /** The list is too short for page v alone. */
  predicate Starves(m: Mem<Bytes>, r: nat, v: nat) {
    Leaf(m, r, v) == 0 && |m.free| <= TablesMissing(m, r, v)
  }

  /** The pages first .. end-1 that no frame has been given to yet. */
  ghost function Untouched(m: Mem<Bytes>, r: nat, first: nat, end: nat): set<nat> {
    set w: nat | first <= w < end && Leaf(m, r, w) == 0
  }

  /** The list is long enough to fault in all of the pages first .. last. */
  ghost predicate Enough(m: Mem<Bytes>, r: nat, first: nat, last: nat) {
    Needed(m, r, Untouched(m, r, first, last + 1)) <= |m.free|
  }

  /** A copy from address va on cannot go on after k bytes. */
  ghost predicate Stuck(m: Mem<Bytes>, r: nat, sz: nat, va: nat, k: nat) {
    !Reads(m, r, sz, (va + k) / PGSIZE) || !Enough(m, r, va / PGSIZE, (va + k) / PGSIZE)
  }

  ghost predicate StuckWriting(m: Mem<Bytes>, r: nat, sz: nat, va: nat, k: nat) {
    !Writes(m, r, sz, (va + k) / PGSIZE) || !Enough(m, r, va / PGSIZE, (va + k) / PGSIZE)
  }

  /** Since m the pages first .. v-1 were faulted in where they had no frame, and paid for. */
  ghost predicate FaultedIn(m: Mem<Bytes>, t: Mem<Bytes>, r: nat, first: nat, v: nat) {
    && SameSpaces(m, t) && Paid(m, t, r, Untouched(m, r, first, v))
    && forall w: nat :: w < PAGES ==> (Leaf(t, r, w) != 0 <==> Leaf(m, r, w) != 0 || first <= w < v)
  }

  lemma NoneFaulted(m: Mem<Bytes>, r: nat, first: nat)
    ensures FaultedIn(m, m, r, first, first)
  {
    hide Paid, Leaf;
    assert Untouched(m, r, first, first) == {};
    PaidNone(m, r);
  }

  lemma UntouchedNext(m: Mem<Bytes>, r: nat, first: nat, v: nat)
    requires first <= v
    ensures Untouched(m, r, first, v + 1)
         == if Leaf(m, r, v) == 0 then Untouched(m, r, first, v) + {v} else Untouched(m, r, first, v)
    ensures v !in Untouched(m, r, first, v) && forall w :: w in Untouched(m, r, first, v) ==> w < v
  {
    hide Leaf;
  }

  /** One turn of a copy: page v was found or faulted in, or the copy stops there. */
  lemma FaultTurn(m: Mem<Bytes>, m1: Mem<Bytes>, t: Mem<Bytes>, r: nat, first: nat, v: nat, may: bool, ok: bool)
    requires InTree(m, Root(r)) && first <= v && FaultedIn(m, m1, r, first, v) && (may ==> v < PAGES)
    requires ok <==> may && !Starves(m1, r, v)
    requires ok ==> Touched(m1, t, r, v)
    requires !ok ==> TookWithin(m1, t, WayMissing(m1, r, v), 0) && (!may ==> t == m1)
    ensures !ok ==> (!may || !Enough(m, r, first, v)) && ChargedBelow(m, t, r, first, v)
    ensures ok ==> Enough(m, r, first, v) && FaultedIn(m, t, r, first, v + 1)
  {
    hide Leaf, Paid, Took, WayMissing, Needed, TablesMissing, Untouched, InTree, TookWithin, ChargedBelow;
    var some := Untouched(m, r, first, v);
    UntouchedNext(m, r, first, v);
    ChargedSoFar(m, m1, r, first, v);
    ChargedMore(m, m1, t, r, first, v);
    if may {
      if Leaf(m1, r, v) == 0 {
        PaysForNext(m, m1, r, some, v);
        if ok {
          PaidMore(m, m1, t, r, some, v);
        }
      } else {
        PaidFits(m, m1, r, some);
        PaidOn(m, m1, t, r, some);
      }
    }
  }

  lemma PaidOn(m: Mem<Bytes>, t: Mem<Bytes>, u: Mem<Bytes>, r: nat, pages: set<nat>)
    requires Paid(m, t, r, pages) && Took(t, u, {}, 0) && SameSpaces(m, t)
    ensures Paid(m, u, r, pages)
  {
    hide Took;
    TookSame(m, t, u, Missing(m, r, pages), |pages|, 0);
  }

  /** A copy that came to its end at page v: the frames of the untouched pages first .. v and
      the tables that these lacked, no more, are what the list has lost. */
  ghost predicate Charged(m: Mem<Bytes>, t: Mem<Bytes>, r: nat, first: nat, v: nat) {
    Paid(m, t, r, Untouched(m, r, first, v + 1))
  }

  /** One that stopped at page v: the same for the pages before, and at most tables for v. */
  ghost predicate ChargedBelow(m: Mem<Bytes>, t: Mem<Bytes>, r: nat, first: nat, v: nat) {
    TookWithin(m, t, Missing(m, r, Untouched(m, r, first, v) + {v}), |Untouched(m, r, first, v)|)
  }

  lemma NowCharged(m: Mem<Bytes>, t: Mem<Bytes>, r: nat, first: nat, va: nat)
    ensures va > 0 && FaultedIn(m, t, r, first, (va - 1) / PGSIZE + 1) ==> Charged(m, t, r, first, (va - 1) / PGSIZE)
  {
  }

  lemma ChargedSoFar(m: Mem<Bytes>, t: Mem<Bytes>, r: nat, first: nat, v: nat)
    requires FaultedIn(m, t, r, first, v)
    ensures ChargedBelow(m, t, r, first, v)
  {
    hide Leaf, Took, WayMissing;
    var some := Untouched(m, r, first, v);
    MissingMore(m, r, some, v);
    assert Missing(m, r, some) <= Missing(m, r, some + {v});
  }

  lemma ChargedMore(m: Mem<Bytes>, m1: Mem<Bytes>, t: Mem<Bytes>, r: nat, first: nat, v: nat)
    requires FaultedIn(m, m1, r, first, v) && InTree(m, Root(r)) && first <= v
    ensures TookWithin(m1, t, WayMissing(m1, r, v), 0) && v < PAGES ==> ChargedBelow(m, t, r, first, v)
  {
    hide Leaf, Took, WayMissing, Missing, TookWithin, InTree, Untouched;
    var some := Untouched(m, r, first, v);
    UntouchedNext(m, r, first, v);
    if TookWithin(m1, t, WayMissing(m1, r, v), 0) && v < PAGES {
      WithinMore(m, m1, t, r, some, |some|, v, 0);
    }
  }

  /** A frame written to changes neither tables nor mappings. */
  lemma TouchedStore(m: Mem<Bytes>, t: Mem<Bytes>, u: Mem<Bytes>, r: nat, v: nat)
    requires Touched(m, t, r, v) && SameMaps(t, u) && SamePlaces(t, u) && SameRoots(t, u) && u.free == t.free
    requires InTree(m, Root(r))
    ensures Touched(m, u, r, v)
  {
    hide Leaf, At, InTree, WayMissing;
    TookSame(m, t, u, if Leaf(m, r, v) == 0 then WayMissing(m, r, v) else {}, if Leaf(m, r, v) == 0 then 1 else 0, 0);
  }

  /** Where the next turn of a copy starts: on the next page, unless this was the last. */
  lemma NextPage(va: nat, n: nat)
    requires 0 < n <= PGSIZE - va % PGSIZE
    ensures (va + n - 1) / PGSIZE == va / PGSIZE
    ensures n == PGSIZE - va % PGSIZE ==> (va + n) / PGSIZE == va / PGSIZE + 1
  {
    SamePage(va, n - 1);
  }

  ghost predicate WritesAll(m: Mem<Bytes>, r: nat, sz: nat, first: nat, last: nat) {
    forall v: nat :: first <= v <= last ==> Writes(m, r, sz, v)
  }

  /** The pages of the bytes before va, and that of the n bytes from va on. */
  lemma PieceWrites(m: Mem<Bytes>, r: nat, sz: nat, dstva: nat, va: nat, n: nat)
    requires 0 < n <= PGSIZE - va % PGSIZE && dstva <= va && Writes(m, r, sz, va / PGSIZE)
    requires dstva < va ==> WritesAll(m, r, sz, dstva / PGSIZE, (va - 1) / PGSIZE)
    ensures WritesAll(m, r, sz, dstva / PGSIZE, (va + n - 1) / PGSIZE)
  {
    hide Writes;
    NextPage(va, n);
  }

  lemma SameReads(m: Mem<Bytes>, t: Mem<Bytes>, r: nat, sz: nat, v: nat)
    requires Rights(m, t, r, sz)
    ensures Reads(t, r, sz, v) <==> Reads(m, r, sz, v)
  {
    hide Leaf, User;
    assert v < USER_PAGES ==> SameRights(m, t, r, sz, v);
  }

  lemma NoUserLeaf(m: Mem<Bytes>, r: nat, sz: nat, v: nat, p: nat)
    requires Sound(m, r, sz) && p == if v < PAGES && User(Leaf(m, r, v)) then Ppn(Leaf(m, r, v)) else 0
    ensures p == 0 ==> !(v < PAGES && User(Leaf(m, r, v)))
    ensures p != 0 ==> v < USER_PAGES && Leaf(m, r, v) != 0 && User(Leaf(m, r, v)) && p == Ppn(Leaf(m, r, v))
  {
    hide Leaf;
    assert v < PAGES ==> LeafOk(Leaf(m, r, v));
  }

  /** The frame found for a page holds what the process reads there. */
  lemma PageReads(m: Mem<Bytes>, t: Mem<Bytes>, r: nat, sz: nat, v: nat, p: nat)
    requires Inv(t) && InTree(t, Root(r)) && Unnoticed(m, t, r, sz)
    requires UserFrame(t, r, v, p)
    ensures Leaf(t, r, v) != 0 && v < USER_PAGES && p == Ppn(Leaf(t, r, v))
    ensures Reads(m, r, sz, v) && p < |t.pages| && Contents(m, r, v) == Raw(t.pages[p])
    ensures Writes(m, r, sz, v) <==> Writable(Leaf(t, r, v))
  {
    hide Leaf, User, Inv, Writable, Ppn;
    FrameThere(t, r, v);
    assert SameRights(m, t, r, sz, v);
  }

  lemma PieceRead(m: Mem<Bytes>, r: nat, sz: nat, srcva: nat, dst: seq<int>, va: nat, page: Bytes, n: nat)
    requires va == srcva + |dst| && page == Contents(m, r, va / PGSIZE) && Reads(m, r, sz, va / PGSIZE)
             && va % PGSIZE + n <= PGSIZE
    requires forall i :: 0 <= i < |dst| ==> Found(m, r, sz, srcva, dst, i)
    ensures var out := dst + page[va % PGSIZE..va % PGSIZE + n]; forall i :: 0 <= i < |out| ==>
              Found(m, r, sz, srcva, out, i)
  {
    hide Leaf, Contents, Reads;
    var out := dst + page[va % PGSIZE..va % PGSIZE + n];
    forall i | 0 <= i < |out|
      ensures Found(m, r, sz, srcva, out, i)
    {
      if i < |dst| {
        assert Found(m, r, sz, srcva, dst, i);
      } else {
        SamePage(va, i - |dst|);
        assert srcva + i == va + (i - |dst|);
      }
    }
  }

  lemma SamePage(va: nat, k: nat)
    requires va % PGSIZE + k < PGSIZE
    ensures (va + k) / PGSIZE == va / PGSIZE && (va + k) % PGSIZE == va % PGSIZE + k
  {
  }

  /** Byte i that copyin found is readable, and the one that the process has there. */
  predicate Found(m: Mem<Bytes>, r: nat, sz: nat, srcva: nat, dst: seq<int>, i: nat)
    requires i < |dst|
  {
    Reads(m, r, sz, (srcva + i) / PGSIZE) && dst[i] == ByteAt(m, r, srcva + i)
  }

  // ----- the process

  class Process {
    const mem: Memory<Bytes>
    const r: nat   // the root of p->pagetable
    const sz: nat  // p->sz

    constructor (mem: Memory<Bytes>, r: nat, sz: nat)
      ensures this.mem == mem && this.r == r && this.sz == sz
    {
      this.mem, this.r, this.sz := mem, r, sz;
    }

    ghost predicate Ready()
      reads mem
    {
      Sound(mem.State(), r, sz) && mem.zero == ZERO
    }

    /** The entry for page v, or 0: walk, and the test for PTE_V. */
    method EntryOf(v: nat) returns (e: nat)
      requires Ready() && v < PAGES
      modifies mem`pages, mem`freelist, mem`owner
      ensures mem.State() == old(mem.State()) && e == Leaf(mem.State(), r, v)
    {
      hide Inv, Leaf, Px;
      var t := mem.Walk(r, v, false);
      PxPlaces(v);
      LeafIs(mem.State(), r, v, t);
      e := if t != 0 && V(mem.pages[t].ptes[Px(0, v)]) then mem.pages[t].ptes[Px(0, v)] else 0;
    }

    /** walkaddr, for the page with number v: the frame, or 0. */
    method Walkaddr(v: nat) returns (p: nat)
      requires Ready()
      modifies mem`pages, mem`freelist, mem`owner
      ensures mem.State() == old(mem.State())
      ensures p == if v < PAGES && User(Leaf(mem.State(), r, v)) then Ppn(Leaf(mem.State(), r, v)) else 0
    {
      if v >= PAGES {
        return 0;
      }
      var e := EntryOf(v);
      if e == 0 || !User(e) {
        return 0;
      }
      p := Ppn(e);
    }

    /** vmfault: the frame now mapped for the page of va, or 0 when va is not below the size,
        its page is mapped already, or the list is too short for a frame and the tables on
        the way to it. The process cannot tell. */
    method Vmfault(va: nat) returns (p: nat)
      requires Ready()
      modifies mem`pages, mem`freelist, mem`owner
      ensures Ready() && Unnoticed(old(mem.State()), mem.State(), r, sz) && Apart(old(mem.State()), mem.State(), r)
      ensures var m, v := old(mem.State()), va / PGSIZE;
              p == 0 <==> va >= sz || Leaf(m, r, v) != 0 || |old(mem.freelist)| <= TablesMissing(m, r, v)
      ensures p != 0 ==> FaultedPage(old(mem.State()), mem.State(), r, va / PGSIZE, p)
      ensures p == 0 ==> TookWithin(old(mem.State()), mem.State(), WayMissing(old(mem.State()), r, va / PGSIZE), 0)
      ensures va >= sz || Leaf(old(mem.State()), r, va / PGSIZE) != 0 ==> mem.State() == old(mem.State())
      ensures va < sz ==> va / PGSIZE < USER_PAGES
    {
      hide Inv, Grew, Leaf, SameMaps, SamePlaces, SameRoots, Extended, AddedPage, Unnoticed, Apart, User, Writable;
      hide Took, WayMissing, Missing, PageRange, FaultedPage, TookWithin;
      ghost var m := mem.State();
      WithinNone(m, WayMissing(m, r, va / PGSIZE));
      UnnoticedSelf(m, r, sz);
      BelowSize(sz, va);
      if va >= sz {
        return 0;
      }
      var v := va / PGSIZE;
      var e := EntryOf(v);
      if e != 0 {
        return 0;
      }
      p := mem.Kalloc();
      if p == 0 {
        return 0;
      }
      ghost var m1 := mem.State();
      mem.Store(p, Data(mem.zero));
      ghost var m2 := mem.State();
      FreshPage(m, m1, m2, r, v, p);
      FreshWay(m, m1, m2, r, v);
      FaultPerm();
      var ret;
      ghost var k;
      ret, k := mem.Mappages(r, v, 1, p, PTE_W + PTE_U + PTE_R);
      ghost var m3 := mem.State();
      if ret != 0 {
        FreshDropped(m, m2, m3, r, v, p, PTE_W + PTE_U + PTE_R, mem.junk);
        var freed := mem.Kfree(p);
        FreshWithin(m, m1, m2, m3, mem.State(), r, v);
        GrewUnnoticed(m, mem.State(), r, sz);
        RightsOf(m, mem.State(), r, sz);
        StillSound(m, mem.State(), r, sz);
        return 0;
      }
      FreshMapped(m, m2, m3, r, v, p, Data(mem.zero), PTE_W + PTE_U + PTE_R);
      FreshTook(m, m1, m2, m3, r, v);
      FaultUnnoticed(m, m3, r, sz, v);
      FaultFrame(m, m2, m3, r, v, p);
      RightsOf(m, m3, r, sz);
      StillSound(m, m3, r, sz);
    }

    /** The page number v for a copy: walkaddr, and vmfault if that finds none. */
    method PageFor(v: nat) returns (p: nat)
      requires Ready()
      modifies mem`pages, mem`freelist, mem`owner
      ensures Ready() && Unnoticed(old(mem.State()), mem.State(), r, sz) && Apart(old(mem.State()), mem.State(), r)
      ensures p == 0 <==> !Reads(old(mem.State()), r, sz, v) || Starves(old(mem.State()), r, v)
      ensures p != 0 ==> UserFrame(mem.State(), r, v, p) && Touched(old(mem.State()), mem.State(), r, v)
      ensures p != 0 && Leaf(old(mem.State()), r, v) == 0 ==> Writable(Leaf(mem.State(), r, v))
      ensures p != 0 && Leaf(old(mem.State()), r, v) != 0 ==> mem.State() == old(mem.State())
      ensures p == 0 ==> TookWithin(old(mem.State()), mem.State(), WayMissing(old(mem.State()), r, v), 0)
      ensures p == 0 && !Reads(old(mem.State()), r, sz, v) ==> mem.State() == old(mem.State())
    {
      hide Inv, Leaf, Unnoticed, Apart, Contents, User, Sound, Rights, FaultedPage, TablesMissing, TookWithin;
      hide WayMissing;
      hide Touched, Writable;
      ghost var m := mem.State();
      SoundFacts(m, r, sz);
      UnnoticedSelf(m, r, sz);
      p := Walkaddr(v);
      NoUserLeaf(m, r, sz, v, p);
      MappedTouched(m, r, v);
      if p == 0 {
        p := Vmfault(v * PGSIZE);
        PagesExact(v);
        if p != 0 {
          FaultedUser(m, mem.State(), r, v, p);
        }
      }
    }

    /** copyin: the bytes as the process sees them, whatever had to be faulted in. It gets as
        far as the pages are the process's to read and the list can pay for the untouched
        ones among them. */
    method Copyin(srcva: nat, len: nat) returns (ret: int, dst: seq<int>)
      requires Ready()
      modifies mem`pages, mem`freelist, mem`owner
      ensures Ready() && Unnoticed(old(mem.State()), mem.State(), r, sz) && Apart(old(mem.State()), mem.State(), r)
      ensures |dst| <= len && forall i :: 0 <= i < |dst| ==> Found(old(mem.State()), r, sz, srcva, dst, i)
      ensures |dst| > 0 ==> Enough(old(mem.State()), r, srcva / PGSIZE, (srcva + |dst| - 1) / PGSIZE)
      ensures ret == if |dst| == len then 0 else -1
      ensures ret == -1 ==> Stuck(old(mem.State()), r, sz, srcva, |dst|)
      ensures len == 0 ==> mem.State() == old(mem.State())
      ensures ret == 0 && len > 0 ==>
                Charged(old(mem.State()), mem.State(), r, srcva / PGSIZE, (srcva + len - 1) / PGSIZE)
      ensures ret == -1 ==> ChargedBelow(old(mem.State()), mem.State(), r, srcva / PGSIZE, (srcva + |dst|) / PGSIZE)
    {
      hide Inv, Leaf, Unnoticed, Apart, Contents, User, Sound, Reads, Found, ByteAt, FaultedIn, FaultedPage, Starves;
      hide Enough, UserFrame, TookWithin, WayMissing, ChargedBelow;
      ghost var m, first := mem.State(), srcva / PGSIZE;
      SoundFacts(m, r, sz);
      UnnoticedSelf(m, r, sz);
      NoneFaulted(m, r, first);
      dst := [];
      var left, va := len, srcva;
      while left > 0
        invariant left == len - |dst| >= 0 && va == srcva + |dst| && Ready()
        invariant Unnoticed(m, mem.State(), r, sz) && Apart(m, mem.State(), r)
        invariant forall i :: 0 <= i < |dst| ==> Found(m, r, sz, srcva, dst, i)
        invariant |dst| > 0 ==> Enough(m, r, first, (va - 1) / PGSIZE)
        invariant left > 0 ==> first <= va / PGSIZE && FaultedIn(m, mem.State(), r, first, va / PGSIZE)
        invariant if dst == [] then mem.State() == m else FaultedIn(m, mem.State(), r, first, (va - 1) / PGSIZE + 1)
        decreases left
      {
        var v := va / PGSIZE;
        ghost var m1 := mem.State();
        SoundFacts(m1, r, sz);
        RightsOf(m, m1, r, sz);
        SameReads(m, m1, r, sz, v);
        var p := PageFor(v);
        ReadsBelow(m1, r, sz, v);
        FaultTurn(m, m1, mem.State(), r, first, v, Reads(m1, r, sz, v), p != 0);
        if p == 0 {
          UnnoticedOn(m, m1, mem.State(), r, sz);
          return -1, dst;
        }
        UnnoticedOn(m, m1, mem.State(), r, sz);
        SoundFacts(mem.State(), r, sz);
        PageReads(m, mem.State(), r, sz, v, p);
        var n := PGSIZE - (va - v * PGSIZE);
        if n > left {
          n := left;
        }
        NextPage(va, n);
        var page := Raw(mem.pages[p]);
        PieceRead(m, r, sz, srcva, dst, va, page, n);
        dst := dst + page[va % PGSIZE..va % PGSIZE + n];
        left, va := left - n, va + n;
      }
      NowCharged(m, mem.State(), r, first, va);
      ret := 0;
    }

    /** One turn of copyout's loop: a piece of one page, or false and nothing written. */
    method CopyoutPage(va: nat, piece: seq<int>) returns (ok: bool)
      requires Ready() && va % PGSIZE + |piece| <= PGSIZE
      modifies mem`pages, mem`freelist, mem`owner
      ensures Ready() && Apart(old(mem.State()), mem.State(), r)
      ensures ok <==> Writes(old(mem.State()), r, sz, va / PGSIZE) && !Starves(old(mem.State()), r, va / PGSIZE)
      ensures ok ==> Wrote(old(mem.State()), mem.State(), r, sz, va, piece)
      ensures ok ==> Touched(old(mem.State()), mem.State(), r, va / PGSIZE)
      ensures !ok ==> Unnoticed(old(mem.State()), mem.State(), r, sz)
      ensures !ok ==> TookWithin(old(mem.State()), mem.State(), WayMissing(old(mem.State()), r, va / PGSIZE), 0)
      ensures !Writes(old(mem.State()), r, sz, va / PGSIZE) ==> mem.State() == old(mem.State())
    {
      hide Inv, Leaf, Unnoticed, Apart, Contents, User, Writable, Sound, Reads, Writes, Wrote, SameMaps, SameRoots;
      hide SamePlaces, Rights, UserFrame, TookWithin, WayMissing, Touched, TablesMissing, Patched;
      var v := va / PGSIZE;
      ghost var m1 := mem.State();
      SoundFacts(m1, r, sz);
      WritesReads(m1, r, sz, v);
      var p := PageFor(v);
      if p == 0 {
        return false;
      }
      ghost var m2 := mem.State();
      SoundFacts(m2, r, sz);
      PageReads(m1, m2, r, sz, v, p);
      var e := EntryOf(v);
      if !Writable(e) {
        WithinNone(m1, WayMissing(m1, r, v));
        return false;
      }
      FrameLoose(m2, r, v);
      mem.Store(p, Data(Patched(Raw(mem.pages[p]), va % PGSIZE, piece)));
      PatchWrote(m1, m2, mem.State(), r, sz, v, va % PGSIZE, piece, p);
      StillSoundWrote(m1, mem.State(), r, sz, va, piece);
      TouchedStore(m1, m2, mem.State(), r, v);
      ok := true;
    }

    /** copyout: the first k bytes arrive, and the process sees nothing else change. It gets
        as far as the pages are the process's to write and the list can pay for the
        untouched ones among them. */
    method Copyout(dstva: nat, src: seq<int>) returns (ret: int, ghost k: nat)
      requires Ready()
      modifies mem`pages, mem`freelist, mem`owner
      ensures Ready() && k <= |src| && Wrote(old(mem.State()), mem.State(), r, sz, dstva, src[..k])
              && Apart(old(mem.State()), mem.State(), r)
      ensures k > 0 ==> WritesAll(old(mem.State()), r, sz, dstva / PGSIZE, (dstva + k - 1) / PGSIZE)
      ensures k > 0 ==> Enough(old(mem.State()), r, dstva / PGSIZE, (dstva + k - 1) / PGSIZE)
      ensures ret == if k == |src| then 0 else -1
      ensures ret == -1 ==> StuckWriting(old(mem.State()), r, sz, dstva, k)
      ensures src == [] ==> mem.State() == old(mem.State())
      ensures ret == 0 && src != [] ==>
                Charged(old(mem.State()), mem.State(), r, dstva / PGSIZE, (dstva + |src| - 1) / PGSIZE)
      ensures ret == -1 ==> ChargedBelow(old(mem.State()), mem.State(), r, dstva / PGSIZE, (dstva + k) / PGSIZE)
    {
      hide Inv, Leaf, Unnoticed, Apart, Sound, Writes, Wrote, Rights, Touched, Charged;
      hide FaultedIn, Starves, Enough, WritesAll, TookWithin, WayMissing, ChargedBelow;
      ghost var m, first := mem.State(), dstva / PGSIZE;
      SoundFacts(m, r, sz);
      UnnoticedSelf(m, r, sz);
      UnnoticedWrote(m, m, r, sz, dstva);
      NoneFaulted(m, r, first);
      k := 0;
      var done, va := 0, dstva;
      assert src[..0] == [];
      while done < |src|
        invariant 0 <= done <= |src| && k == done && va == dstva + done && Ready()
        invariant Wrote(m, mem.State(), r, sz, dstva, src[..done]) && Apart(m, mem.State(), r)
        invariant done > 0 ==> WritesAll(m, r, sz, first, (va - 1) / PGSIZE)
        invariant done > 0 ==> Enough(m, r, first, (va - 1) / PGSIZE)
        invariant done < |src| ==> first <= va / PGSIZE && FaultedIn(m, mem.State(), r, first, va / PGSIZE)
        invariant if done == 0 then mem.State() == m else FaultedIn(m, mem.State(), r, first, (va - 1) / PGSIZE + 1)
      {
        var v := va / PGSIZE;
        var n := PGSIZE - (va - v * PGSIZE);
        if n > |src| - done {
          n := |src| - done;
        }
        NextPage(va, n);
        ghost var m1 := mem.State();
        WroteRights(m, m1, r, sz, dstva, src[..done], v);
        WritesBelow(m1, r, sz, v);
        var ok := CopyoutPage(va, src[done..done + n]);
        FaultTurn(m, m1, mem.State(), r, first, v, Writes(m1, r, sz, v), ok);
        if !ok {
          FaultedWrote(m, m1, mem.State(), r, sz, dstva, src[..done]);
          return -1, k;
        }
        WroteOn(m, m1, mem.State(), r, sz, dstva, src[..done], src[done..done + n]);
        PieceWrites(m, r, sz, dstva, va, n);
        assert src[..done + n] == src[..done] + src[done..done + n];
        done, va, k := done + n, va + n, k + n;
      }
      NowCharged(m, mem.State(), r, first, va);
      ret := 0;
    }
  }

  lemma ReadsBelow(m: Mem<Bytes>, r: nat, sz: nat, v: nat)
    ensures Reads(m, r, sz, v) ==> v < PAGES
  {
  }

  lemma WritesBelow(m: Mem<Bytes>, r: nat, sz: nat, v: nat)
    ensures Writes(m, r, sz, v) ==> v < PAGES
  {
  }

  lemma SoundFacts(m: Mem<Bytes>, r: nat, sz: nat)
    requires Sound(m, r, sz)
    ensures Inv(m) && InTree(m, Root(r))
  {
  }

  lemma RightsOf(m: Mem<Bytes>, t: Mem<Bytes>, r: nat, sz: nat)
    requires Unnoticed(m, t, r, sz)
    ensures Rights(m, t, r, sz)
  {
  }

  lemma WroteRights(m: Mem<Bytes>, t: Mem<Bytes>, r: nat, sz: nat, at: nat, data: seq<int>, v: nat)
    requires Wrote(m, t, r, sz, at, data)
    ensures Rights(m, t, r, sz) && (Writes(t, r, sz, v) <==> Writes(m, r, sz, v))
            && (Reads(t, r, sz, v) <==> Reads(m, r, sz, v))
  {
    hide Leaf, Contents;
    assert v < USER_PAGES ==> SameRights(m, t, r, sz, v);
  }

  lemma WritesReads(m: Mem<Bytes>, r: nat, sz: nat, v: nat)
    ensures Writes(m, r, sz, v) ==> Reads(m, r, sz, v)
    ensures Reads(m, r, sz, v) && Leaf(m, r, v) == 0 ==> Writes(m, r, sz, v)
  {
  }

  lemma FaultedWrote(m: Mem<Bytes>, m1: Mem<Bytes>, m2: Mem<Bytes>, r: nat, sz: nat, at: nat, data: seq<int>)
    requires Wrote(m, m1, r, sz, at, data) && Apart(m, m1, r) && Unnoticed(m1, m2, r, sz) && Apart(m1, m2, r)
    ensures Wrote(m, m2, r, sz, at, data) && Apart(m, m2, r)
  {
    hide Wrote, Unnoticed, Apart;
    UnnoticedWrote(m1, m2, r, sz, at + |data|);
    WroteOn(m, m1, m2, r, sz, at, data, []);
    assert data + [] == data;
  }

  lemma FrameLoose(m: Mem<Bytes>, r: nat, v: nat)
    requires Inv(m) && InTree(m, Root(r)) && v < USER_PAGES && Leaf(m, r, v) != 0
    ensures Ppn(Leaf(m, r, v)) in m.owner && Loose(m, Ppn(Leaf(m, r, v)))
  {
    FrameThere(m, r, v);
  }

  lemma StillSoundWrote(m: Mem<Bytes>, t: Mem<Bytes>, r: nat, sz: nat, at: nat, data: seq<int>)
    requires Sound(m, r, sz) && Inv(t) && Wrote(m, t, r, sz, at, data)
    ensures Sound(t, r, sz)
  {
    hide Sound, Inv;
    StillSound(m, t, r, sz);
  }
}
