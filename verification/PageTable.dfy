/** Sv39 page tables in physical memory (RISC-V Privileged Architecture, version 20211203,
    section 4.4): the three-level trees of all address spaces, the flat map that each
    stands for, and who owns every page of RAM. */
module PageTable {
  import Blocks

  const ENTRIES: nat := 512
  /** Pages below MAXVA, and below the trapframe page: those are the process's own. */
  const PAGES: nat := 0x400_0000
  const USER_PAGES: nat := PAGES - 2

  // ----- page table entries

  predicate V(e: nat) {
    e % 2 == 1
  }

  /** PTE2PA(e) >> 12, PTE_FLAGS and PA2PTE(pa) | flags */
  function Ppn(e: nat): nat {
    e / 0x400
  }

  function Flags(e: nat): nat {
    e % 0x400
  }

  function MakePte(p: nat, flags: nat): nat {
    p * 0x400 + flags
  }

  /** (e & (PTE_R|PTE_W|PTE_X)) != 0 */
  predicate IsLeaf(e: nat) {
    e / 2 % 8 != 0
  }

  lemma PteParts(p: nat, flags: nat)
    requires flags < 0x400
    ensures Ppn(MakePte(p, flags)) == p && Flags(MakePte(p, flags)) == flags
    ensures V(MakePte(p, flags)) <==> V(flags)
    ensures IsLeaf(MakePte(p, flags)) <==> IsLeaf(flags)
  {
    assert MakePte(p, flags) / 2 == 8 * (0x40 * p) + flags / 2;
  }

  /** PX(level, va) of the page number va >> 12. */
  function Px(level: nat, v: nat): nat
    requires level < 3
  {
    if level == 0 then v % ENTRIES else if level == 1 then v / ENTRIES % ENTRIES else v / (ENTRIES * ENTRIES) % ENTRIES
  }

  /** Distinct pages below MAXVA take different ways through the tree. */
  lemma PathsDiffer(v: nat, w: nat)
    requires v < PAGES && w < PAGES && v != w
    ensures Px(2, v) != Px(2, w) || Px(1, v) != Px(1, w) || Px(0, v) != Px(0, w)
  {
    hide Px;
    PathParts(v);
    PathParts(w);
  }

  lemma PathParts(v: nat)
    requires v < PAGES
    ensures v == Px(0, v) + ENTRIES * Px(1, v) + ENTRIES * ENTRIES * Px(2, v)
  {
    var q := v / ENTRIES;
    assert v == ENTRIES * q + v % ENTRIES && q == ENTRIES * (q / ENTRIES) + q % ENTRIES;
    assert v / (ENTRIES * ENTRIES) == q / ENTRIES;
  }

  // ----- memory

  datatype Page<T> = Table(ptes: seq<nat>) | Data(d: T)

  /** A place that a page of RAM can have. Tables are named by the page numbers they
      cover: Mid(r, a) is the level-1 table for the pages v with v / 2^18 == a in the
      address space with root r, Low(r, b) the level-0 table for those with v / 512 == b. */
  datatype Place = Pending | Root(r: nat) | Mid(r: nat, a: nat) | Low(r: nat, b: nat) | Frame(r: nat, v: nat)

  /** Pages lo .. |pages|-1 are RAM. `free` is kalloc's list. */
  datatype Mem<T> = Mem(pages: seq<Page<T>>, lo: nat, free: seq<nat>, owner: map<nat, Place>)

  const ZERO_TABLE: seq<nat> := Blocks.Zeros(ENTRIES)

  predicate IsTable<T>(m: Mem<T>, p: nat) {
    p < |m.pages| && m.pages[p].Table? && |m.pages[p].ptes| == ENTRIES
  }

  function Entry<T>(m: Mem<T>, p: nat, i: nat): nat {
    if IsTable(m, p) && i < ENTRIES then m.pages[p].ptes[i] else 0
  }

  function Child(e: nat): nat {
    if V(e) then Ppn(e) else 0
  }

  /** The tables and the entry on the way to a page; 0 where the way ends. */
  function MidAt<T>(m: Mem<T>, r: nat, a: nat): nat {
    Child(Entry(m, r, a))
  }

  function LowAt<T>(m: Mem<T>, r: nat, b: nat): nat {
    if MidAt(m, r, b / ENTRIES) == 0 then 0 else Child(Entry(m, MidAt(m, r, b / ENTRIES), b % ENTRIES))
  }

  /** The flat map: the valid entry for page v, or 0. */
  function Leaf<T>(m: Mem<T>, r: nat, v: nat): nat {
    if LowAt(m, r, v / ENTRIES) == 0 then 0
    else
      var e := Entry(m, LowAt(m, r, v / ENTRIES), v % ENTRIES);
      if V(e) then e else 0
  }

  predicate InTree<T>(m: Mem<T>, pl: Place) {
    && !pl.Pending? && pl.r in m.owner && m.owner[pl.r] == Root(pl.r)
    && (pl.Mid? ==> pl.a < PAGES / (ENTRIES * ENTRIES)) && (pl.Low? ==> pl.b < PAGES / ENTRIES)
    && (pl.Frame? ==> pl.v < USER_PAGES)
  }

  /** The page that a place points to, 0 for none. */
  function At<T>(m: Mem<T>, pl: Place): nat {
    match pl
    case Pending => 0
    case Root(r) => r
    case Mid(r, a) => MidAt(m, r, a)
    case Low(r, b) => LowAt(m, r, b)
    case Frame(r, v) => Child(Leaf(m, r, v))
  }

  // ----- the invariant

  ghost predicate Distinct(s: seq<nat>) {
    forall i, j :: 0 <= i < j < |s| ==> s[i] != s[j]
  }

  /** Every page of RAM is on the free list or owned, never both. */
  ghost predicate Conserved<T>(m: Mem<T>) {
    && 0 < m.lo && Distinct(m.free)
    && (forall p :: p in m.free ==> m.lo <= p < |m.pages| && p !in m.owner)
    && (forall p :: p in m.owner ==> m.lo <= p < |m.pages|)
    && (forall p: nat :: m.lo <= p < |m.pages| ==> p in m.free || p in m.owner)
  }

  /** Owned pages are where their owners point. */
  ghost predicate Owned<T>(m: Mem<T>) {
    forall p :: p in m.owner && !m.owner[p].Pending? ==> Owns(m, m.owner[p], p)
  }

  predicate Owns<T>(m: Mem<T>, pl: Place, p: nat) {
    InTree(m, pl) && At(m, pl) == p && (pl.Frame? || IsTable(m, p))
  }

  /** What a place points to belongs to that place alone. */
  ghost predicate Pointers<T>(m: Mem<T>) {
    forall pl: Place :: InTree(m, pl) && At(m, pl) != 0 ==> At(m, pl) in m.owner && m.owner[At(m, pl)] == pl
  }

  /** An interior entry has no flag but V; in the root it also lies below MAXVA. */
  predicate Interior(e: nat) {
    V(e) ==> Flags(e) == 1 && Ppn(e) != 0
  }

  predicate RootEntryOk(e: nat, a: nat) {
    Interior(e) && (V(e) ==> a < PAGES / (ENTRIES * ENTRIES))
  }

  predicate LeafOk(e: nat) {
    e == 0 || (IsLeaf(e) && Ppn(e) != 0)
  }

  ghost predicate Entries<T>(m: Mem<T>) {
    && (forall r: nat, a: nat :: InTree(m, Root(r)) && a < ENTRIES ==> RootEntryOk(Entry(m, r, a), a))
    && (forall r: nat, b: nat :: InTree(m, Low(r, b)) ==> Interior(LowEntry(m, r, b)))
    && (forall r: nat, v: nat :: InTree(m, Root(r)) && v < PAGES ==> LeafOk(Leaf(m, r, v)))
  }

  function LowEntry<T>(m: Mem<T>, r: nat, b: nat): nat {
    if MidAt(m, r, b / ENTRIES) == 0 then 0 else Entry(m, MidAt(m, r, b / ENTRIES), b % ENTRIES)
  }

  ghost predicate Inv<T>(m: Mem<T>) {
    Conserved(m) && Owned(m) && Pointers(m) && Entries(m)
  }

  // ----- writing one entry of a table

  function EntrySet<T>(m: Mem<T>, p: nat, i: nat, e: nat): Mem<T>
    requires IsTable(m, p) && i < ENTRIES
  {
    m.(pages := m.pages[p := Table(m.pages[p].ptes[i := e])])
  }

  /** Two places of trees never hold the same table or frame. */
  lemma ApartPlaces<T>(m: Mem<T>, x: Place, y: Place)
    requires Pointers(m) && InTree(m, x) && InTree(m, y)
    ensures x != y && At(m, x) != 0 ==> At(m, x) != At(m, y)
  {
  }

  lemma MidWays<T>(m: Mem<T>, r: nat, v: nat)
    requires InTree(m, Root(r)) && v < PAGES
    ensures InTree(m, Low(r, v / ENTRIES)) && InTree(m, Mid(r, v / ENTRIES / ENTRIES))
  {
  }

  /** Every place holds what it held, but for x, which holds n. */
  ghost predicate Trees<T>(m: Mem<T>, t: Mem<T>, x: Place, n: nat) {
    forall pl: Place :: InTree(m, pl) ==> At(t, pl) == if pl == x then n else At(m, pl)
  }

  /** The flat maps of all address spaces, but for page v of r, which has entry e. */
  ghost predicate Maps<T>(m: Mem<T>, t: Mem<T>, r: nat, v: nat, e: nat) {
    forall q: nat, w: nat :: InTree(m, Root(q)) && w < PAGES ==>
      Leaf(t, q, w) == if q == r && w == v then e else Leaf(m, q, w)
  }

  ghost predicate SameMaps<T>(m: Mem<T>, t: Mem<T>) {
    forall q: nat, w: nat :: InTree(m, Root(q)) && w < PAGES ==> Leaf(t, q, w) == Leaf(m, q, w)
  }

  /** A fresh zeroed table that may be linked in. */
  ghost predicate FreshTable<T>(m: Mem<T>, n: nat) {
    0 < n && IsTable(m, n) && m.pages[n].ptes == ZERO_TABLE && n in m.owner && m.owner[n] == Pending
  }

  /** A fresh level-1 table in entry a of root r. */
  lemma LinkMidTrees<T>(m: Mem<T>, r: nat, a: nat, n: nat)
    requires Pointers(m) && InTree(m, Mid(r, a)) && IsTable(m, r) && MidAt(m, r, a) == 0 && r != 0 && FreshTable(m, n)
    ensures var t := EntrySet(m, r, a, MakePte(n, 1)); Trees(m, t, Mid(r, a), n) && SameMaps(m, t)
  {
    var t := EntrySet(m, r, a, MakePte(n, 1));
    PteParts(n, 1);
    forall q: nat, b: nat | InTree(m, Low(q, b))
      ensures LowAt(t, q, b) == LowAt(m, q, b)
    {
      LinkMidLow(m, r, a, n, q, b);
    }
    forall q: nat, v: nat | InTree(m, Root(q)) && v < PAGES
      ensures Leaf(t, q, v) == Leaf(m, q, v)
    {
      MidWays(m, q, v);
      assert LowAt(t, q, v / ENTRIES) == LowAt(m, q, v / ENTRIES);
      ApartPlaces(m, Low(q, v / ENTRIES), Root(r));
    }
  }

  lemma LinkMidLow<T>(m: Mem<T>, r: nat, a: nat, n: nat, q: nat, b: nat)
    requires Pointers(m) && InTree(m, Mid(r, a)) && IsTable(m, r) && MidAt(m, r, a) == 0 && r != 0 && FreshTable(m, n)
    requires InTree(m, Low(q, b))
    ensures LowAt(EntrySet(m, r, a, MakePte(n, 1)), q, b) == LowAt(m, q, b)
  {
    PteParts(n, 1);
    ApartPlaces(m, Mid(q, b / ENTRIES), Root(r));
  }

  /** A fresh level-0 table in the level-1 table on the way to b. */
  lemma LinkLowTrees<T>(m: Mem<T>, r: nat, b: nat, n: nat)
    requires Pointers(m) && InTree(m, Low(r, b)) && IsTable(m, MidAt(m, r, b / ENTRIES))
             && MidAt(m, r, b / ENTRIES) != 0
    requires LowAt(m, r, b) == 0 && FreshTable(m, n)
    ensures var t := EntrySet(m, MidAt(m, r, b / ENTRIES), b % ENTRIES, MakePte(n, 1));
            Trees(m, t, Low(r, b), n) && SameMaps(m, t)
  {
    var p := MidAt(m, r, b / ENTRIES);
    var t := EntrySet(m, p, b % ENTRIES, MakePte(n, 1));
    PteParts(n, 1);
    MidsKept(m, t, p, Mid(r, b / ENTRIES));
    forall q: nat, c: nat | InTree(m, Low(q, c))
      ensures LowAt(t, q, c) == if q == r && c == b then n else LowAt(m, q, c)
    {
      LinkLowLow(m, r, b, n, q, c);
    }
    hide LowAt, MidAt;
    LinkLowMaps(m, t, r, b, n);
  }

  lemma LinkLowLow<T>(m: Mem<T>, r: nat, b: nat, n: nat, q: nat, c: nat)
    requires Pointers(m) && InTree(m, Low(r, b)) && IsTable(m, MidAt(m, r, b / ENTRIES))
             && MidAt(m, r, b / ENTRIES) != 0
    requires LowAt(m, r, b) == 0 && FreshTable(m, n) && InTree(m, Low(q, c))
    ensures LowAt(EntrySet(m, MidAt(m, r, b / ENTRIES), b % ENTRIES, MakePte(n, 1)), q, c)
         == if q == r && c == b then n else LowAt(m, q, c)
  {
    var p := MidAt(m, r, b / ENTRIES);
    var t := EntrySet(m, p, b % ENTRIES, MakePte(n, 1));
    PteParts(n, 1);
    MidsKept(m, t, p, Mid(r, b / ENTRIES));
    assert InTree(m, Mid(q, c / ENTRIES));
    assert MidAt(t, q, c / ENTRIES) == MidAt(m, q, c / ENTRIES);
    hide MidAt;
    ApartPlaces(m, Mid(q, c / ENTRIES), Mid(r, b / ENTRIES));
  }

  /** Writing a table that is no root changes no root. */
  lemma MidsKept<T>(m: Mem<T>, t: Mem<T>, p: nat, x: Place)
    requires Pointers(m) && InTree(m, x) && At(m, x) == p != 0 && (x.Mid? || x.Low?)
    requires |t.pages| == |m.pages| && forall q :: 0 <= q < |m.pages| && q != p ==> t.pages[q] == m.pages[q]
    ensures forall q: nat, a: nat :: InTree(m, Mid(q, a)) ==> MidAt(t, q, a) == MidAt(m, q, a)
  {
    forall q: nat, a: nat | InTree(m, Mid(q, a))
      ensures MidAt(t, q, a) == MidAt(m, q, a)
    {
      ApartPlaces(m, x, Root(q));
    }
  }

  lemma LinkLowMaps<T>(m: Mem<T>, t: Mem<T>, r: nat, b: nat, n: nat)
    requires Pointers(m) && InTree(m, Low(r, b)) && MidAt(m, r, b / ENTRIES) != 0 && LowAt(m, r, b) == 0
             && FreshTable(m, n)
    requires |t.pages| == |m.pages| && forall q :: 0 <= q < |m.pages| && q != MidAt(m, r, b / ENTRIES) ==>
               t.pages[q] == m.pages[q]
    requires forall q: nat, c: nat :: InTree(m, Low(q, c)) ==>
               LowAt(t, q, c) == if q == r && c == b then n else LowAt(m, q, c)
    ensures SameMaps(m, t)
  {
    hide LowAt, MidAt;
    forall q: nat, v: nat | InTree(m, Root(q)) && v < PAGES
      ensures Leaf(t, q, v) == Leaf(m, q, v)
    {
      MidWays(m, q, v);
      var low := LowAt(m, q, v / ENTRIES);
      assert LowAt(t, q, v / ENTRIES) == if q == r && v / ENTRIES == b then n else low;
      assert InTree(m, Mid(r, b / ENTRIES));
      ApartPlaces(m, Low(q, v / ENTRIES), Mid(r, b / ENTRIES));
      if q == r && v / ENTRIES == b {
        ApartFresh(m, n, Mid(r, b / ENTRIES));
      }
    }
  }

  lemma ApartFresh<T>(m: Mem<T>, n: nat, x: Place)
    requires Pointers(m) && InTree(m, x) && FreshTable(m, n)
    ensures At(m, x) != n
  {
  }

  /** A leaf entry set, or cleared. */
  lemma SetLeafTrees<T>(m: Mem<T>, r: nat, v: nat, e: nat)
    requires Pointers(m) && InTree(m, Root(r)) && v < PAGES && LowAt(m, r, v / ENTRIES) != 0
             && IsTable(m, LowAt(m, r, v / ENTRIES))
    requires e == 0 || V(e)
    ensures var t := EntrySet(m, LowAt(m, r, v / ENTRIES), v % ENTRIES, e);
            Maps(m, t, r, v, e) && Trees(m, t, Frame(r, v), Child(e))
  {
    MidWays(m, r, v);
    var p := LowAt(m, r, v / ENTRIES);
    var t := EntrySet(m, p, v % ENTRIES, e);
    MidsKept(m, t, p, Low(r, v / ENTRIES));
    SetLeafLows(m, t, r, v, e);
    hide LowAt, MidAt;
    SetLeafMaps(m, t, r, v, e);
  }

  lemma SetLeafLows<T>(m: Mem<T>, t: Mem<T>, r: nat, v: nat, e: nat)
    requires Pointers(m) && InTree(m, Low(r, v / ENTRIES)) && LowAt(m, r, v / ENTRIES) != 0
             && IsTable(m, LowAt(m, r, v / ENTRIES))
    requires t == EntrySet(m, LowAt(m, r, v / ENTRIES), v % ENTRIES, e)
    ensures forall q: nat, c: nat :: InTree(m, Low(q, c)) ==> LowAt(t, q, c) == LowAt(m, q, c)
  {
    var p := LowAt(m, r, v / ENTRIES);
    MidsKept(m, t, p, Low(r, v / ENTRIES));
    forall q: nat, c: nat | InTree(m, Low(q, c))
      ensures LowAt(t, q, c) == LowAt(m, q, c)
    {
      assert InTree(m, Mid(q, c / ENTRIES));
      ApartPlaces(m, Mid(q, c / ENTRIES), Low(r, v / ENTRIES));
    }
  }

  lemma SetLeafMaps<T>(m: Mem<T>, t: Mem<T>, r: nat, v: nat, e: nat)
    requires Pointers(m) && InTree(m, Root(r)) && v < PAGES && LowAt(m, r, v / ENTRIES) != 0
             && IsTable(m, LowAt(m, r, v / ENTRIES))
    requires (e == 0 || V(e)) && t == EntrySet(m, LowAt(m, r, v / ENTRIES), v % ENTRIES, e)
    requires forall q: nat, c: nat :: InTree(m, Low(q, c)) ==> LowAt(t, q, c) == LowAt(m, q, c)
    ensures Maps(m, t, r, v, e)
  {
    hide LowAt, MidAt;
    MidWays(m, r, v);
    forall q: nat, w: nat | InTree(m, Root(q)) && w < PAGES
      ensures Leaf(t, q, w) == if q == r && w == v then e else Leaf(m, q, w)
    {
      MidWays(m, q, w);
      assert LowAt(t, q, w / ENTRIES) == LowAt(m, q, w / ENTRIES);
      ApartPlaces(m, Low(q, w / ENTRIES), Low(r, v / ENTRIES));
    }
  }

  // ----- owners

  /** The place x, empty before, now holds the page n that had no place. */
  lemma LinkOwners<T>(m: Mem<T>, t: Mem<T>, x: Place, n: nat)
    requires Owned(m) && Pointers(m) && Trees(m, t, x, n) && InTree(m, x) && !x.Root? && At(m, x) == 0 && 0 !in m.owner
    requires 0 < n && n in m.owner && m.owner[n] == Pending && t.owner == m.owner[n := x]
    requires forall p :: p in m.owner && IsTable(m, p) ==> IsTable(t, p)
    requires x.Frame? || IsTable(t, n)
    ensures Owned(t) && Pointers(t)
  {
    forall pl: Place
      ensures InTree(t, pl) <==> InTree(m, pl)
    {
    }
    forall p | p in t.owner && !t.owner[p].Pending?
      ensures Owns(t, t.owner[p], p)
    {
      if p != n {
        assert Owns(m, m.owner[p], p);
      }
    }
  }

  /** The place x loses its page n. */
  lemma UnlinkOwners<T>(m: Mem<T>, t: Mem<T>, x: Place, n: nat)
    requires Owned(m) && Pointers(m) && Trees(m, t, x, 0) && InTree(m, x) && !x.Root? && At(m, x) == n != 0
    requires t.owner == m.owner - {n}
    requires forall p :: p in t.owner && IsTable(m, p) ==> IsTable(t, p)
    ensures Owned(t) && Pointers(t)
  {
    forall pl: Place
      ensures InTree(t, pl) <==> InTree(m, pl)
    {
    }
    forall p | p in t.owner && !t.owner[p].Pending?
      ensures Owns(t, t.owner[p], p)
    {
      assert Owns(m, m.owner[p], p);
    }
  }

  /** A page that is no table of a tree: what is in it matters to no tree. */
  predicate Loose<T>(m: Mem<T>, p: nat) {
    p !in m.owner || m.owner[p].Pending? || m.owner[p].Frame?
  }

  ghost predicate SamePlaces<T>(m: Mem<T>, t: Mem<T>) {
    forall pl: Place :: InTree(m, pl) ==> At(t, pl) == At(m, pl)
  }

  lemma LooseLows<T>(m: Mem<T>, t: Mem<T>, p: nat, page: Page<T>)
    requires Pointers(m) && p < |m.pages| && Loose(m, p) && t.pages == m.pages[p := page]
    ensures forall r: nat, b: nat :: InTree(m, Low(r, b)) ==>
              LowEntry(t, r, b) == LowEntry(m, r, b) && LowAt(t, r, b) == LowAt(m, r, b)
  {
    forall r: nat, b: nat | InTree(m, Low(r, b))
      ensures LowEntry(t, r, b) == LowEntry(m, r, b) && LowAt(t, r, b) == LowAt(m, r, b)
    {
      assert InTree(m, Mid(r, b / ENTRIES));
      assert MidAt(m, r, b / ENTRIES) == 0 || MidAt(m, r, b / ENTRIES) != p;
    }
  }

  lemma LoosePage<T>(m: Mem<T>, t: Mem<T>, p: nat, page: Page<T>)
    requires Pointers(m) && Entries(m) && 0 !in m.owner && p < |m.pages| && Loose(m, p) && t.pages == m.pages[p := page]
    ensures SamePlaces(m, t) && SameMaps(m, t)
    ensures forall r: nat, a: nat :: InTree(m, Root(r)) ==> Entry(t, r, a) == Entry(m, r, a)
    ensures forall r: nat, b: nat :: InTree(m, Low(r, b)) ==> LowEntry(t, r, b) == LowEntry(m, r, b)
  {
    assert forall r: nat, a: nat :: InTree(m, Root(r)) ==> Entry(t, r, a) == Entry(m, r, a);
    LooseLows(m, t, p, page);
    hide LowEntry, LowAt, MidAt;
    forall r: nat, v: nat | InTree(m, Root(r)) && v < PAGES
      ensures Leaf(t, r, v) == Leaf(m, r, v)
    {
      MidWays(m, r, v);
      assert LowAt(t, r, v / ENTRIES) == LowAt(m, r, v / ENTRIES);
    }
  }

  // ----- every change keeps the invariant

  /** kalloc took page p off the list and filled it. */
  function Allocated<T>(m: Mem<T>, junk: T): Mem<T>
    requires m.free != [] && m.free[0] < |m.pages|
  {
    m.(pages := m.pages[m.free[0] := Data(junk)], free := m.free[1..], owner := m.owner[m.free[0] := Pending])
  }

  /** kfree filled page p with junk and put it on the list. */
  function Freed<T>(m: Mem<T>, p: nat, junk: T): Mem<T>
    requires p < |m.pages|
  {
    m.(pages := m.pages[p := Data(junk)], free := [p] + m.free, owner := m.owner - {p})
  }

  lemma AllocKeeps<T>(m: Mem<T>, junk: T)
    requires Inv(m) && m.free != []
    ensures m.free[0] < |m.pages| && 0 < m.free[0] && m.free[0] !in m.owner
    ensures Inv(Allocated(m, junk)) && SameMaps(m, Allocated(m, junk)) && SamePlaces(m, Allocated(m, junk))
            && SameRoots(m, Allocated(m, junk))
    ensures forall r: nat :: InTree(m, Root(r)) <==> InTree(Allocated(m, junk), Root(r))
  {
    hide At, Leaf, LowAt, MidAt, LowEntry, Entry;
    var p := m.free[0];
    assert p in m.free;
    var t := Allocated(m, junk);
    LoosePage(m, t, p, Data(junk));
    forall pl: Place
      ensures InTree(t, pl) <==> InTree(m, pl)
    {
    }
    AllocConserves(m, junk);
    SameOwned(m, t);
  }

  lemma AllocConserves<T>(m: Mem<T>, junk: T)
    requires Conserved(m) && m.free != [] && m.free[0] < |m.pages|
    ensures Conserved(Allocated(m, junk))
  {
    var t, p := Allocated(m, junk), m.free[0];
    assert m.free == [p] + t.free;
    assert forall q :: q in m.free <==> q == p || q in t.free;
    assert forall k :: 0 <= k < |t.free| ==> t.free[k] == m.free[k + 1];
  }

  /** Owners stay right when nothing moves and only loose pages change. */
  lemma SameOwned<T>(m: Mem<T>, t: Mem<T>)
    requires Owned(m) && Pointers(m) && SamePlaces(m, t) && |t.pages| == |m.pages|
    requires forall pl: Place :: InTree(t, pl) <==> InTree(m, pl)
    requires forall p :: p in m.owner && !m.owner[p].Pending? ==> p in t.owner && t.owner[p] == m.owner[p]
    requires forall p :: p in t.owner && !t.owner[p].Pending? ==> p in m.owner && t.owner[p] == m.owner[p]
    requires forall p :: p in m.owner && !Loose(m, p) && p < |m.pages| ==> t.pages[p] == m.pages[p]
    ensures Owned(t) && Pointers(t)
  {
    forall p | p in t.owner && !t.owner[p].Pending?
      ensures Owns(t, t.owner[p], p)
    {
      assert Owns(m, m.owner[p], p);
    }
  }

  /** memset or memmove of a page that no tree has, or of a frame. */
  lemma WriteKeeps<T>(m: Mem<T>, p: nat, page: Page<T>)
    requires Inv(m) && p in m.owner && Loose(m, p)
    ensures p < |m.pages|
    ensures var t := m.(pages := m.pages[p := page]); Inv(t) && SameMaps(m, t) && SamePlaces(m, t) && SameRoots(m, t)
  {
    hide At, Leaf, LowAt, MidAt, LowEntry, Entry;
    var t := m.(pages := m.pages[p := page]);
    LoosePage(m, t, p, page);
    forall pl: Place
      ensures InTree(t, pl) <==> InTree(m, pl)
    {
    }
    SameOwned(m, t);
  }

  lemma FreeConserves<T>(m: Mem<T>, t: Mem<T>, p: nat)
    requires Conserved(m) && p in m.owner && |t.pages| == |m.pages| && t.lo == m.lo && t.free == [p] + m.free
             && t.owner.Keys == m.owner.Keys - {p}
    ensures Conserved(t)
  {
    assert forall q :: q in t.free <==> q == p || q in m.free;
  }

  /** kfree of a page that no tree has. */
  lemma FreePendingKeeps<T>(m: Mem<T>, p: nat, junk: T)
    requires Inv(m) && p in m.owner && m.owner[p] == Pending
    ensures p < |m.pages| && Inv(Freed(m, p, junk)) && SameMaps(m, Freed(m, p, junk))
            && SamePlaces(m, Freed(m, p, junk))
    ensures forall r: nat :: InTree(m, Root(r)) <==> InTree(Freed(m, p, junk), Root(r))
  {
    hide At, Leaf, LowAt, MidAt, LowEntry, Entry;
    var t := Freed(m, p, junk);
    LoosePage(m, t, p, Data(junk));
    FreeConserves(m, t, p);
    forall pl: Place
      ensures InTree(t, pl) <==> InTree(m, pl)
    {
    }
    SameOwned(m, t);
  }

  lemma TableThere<T>(m: Mem<T>, x: Place)
    requires Inv(m) && InTree(m, x) && !x.Frame? && At(m, x) != 0
    ensures IsTable(m, At(m, x)) && At(m, x) in m.owner && m.owner[At(m, x)] == x
  {
    assert Owns(m, m.owner[At(m, x)], At(m, x));
  }

  lemma RootThere<T>(m: Mem<T>, r: nat)
    requires Inv(m) && InTree(m, Root(r))
    ensures r != 0 && IsTable(m, r)
  {
    assert Owns(m, m.owner[r], r);
  }

  ghost predicate SameRoots<T>(m: Mem<T>, t: Mem<T>) {
    forall pl: Place :: InTree(t, pl) <==> InTree(m, pl)
  }

  /** walk linked a fresh level-1 table. */
  function MidLinked<T>(m: Mem<T>, r: nat, a: nat, n: nat): Mem<T>
    requires IsTable(m, r) && a < ENTRIES
  {
    EntrySet(m, r, a, MakePte(n, 1)).(owner := m.owner[n := Mid(r, a)])
  }

  lemma LinkMidKeeps<T>(m: Mem<T>, r: nat, a: nat, n: nat)
    requires Inv(m) && InTree(m, Mid(r, a)) && MidAt(m, r, a) == 0 && FreshTable(m, n)
    ensures IsTable(m, r)
    ensures var t := MidLinked(m, r, a, n);
            Inv(t) && SameMaps(m, t) && SameRoots(m, t) && MidAt(t, r, a) == n && Trees(m, t, Mid(r, a), n)
  {
    RootThere(m, r);
    var t := MidLinked(m, r, a, n);
    LinkMidTrees(m, r, a, n);
    SameButOwner(m, EntrySet(m, r, a, MakePte(n, 1)), t, Mid(r, a), n);
    LinkOwners(m, t, Mid(r, a), n);
    LinkMidEntries(m, r, a, n);
  }

  /** Trees and maps do not depend on who owns what. */
  lemma SameButOwner<T>(m: Mem<T>, s: Mem<T>, t: Mem<T>, x: Place, n: nat)
    requires Trees(m, s, x, n) && t.pages == s.pages
    ensures Trees(m, t, x, n) && forall q: nat, w: nat :: Leaf(t, q, w) == Leaf(s, q, w)
  {
    assert forall q: nat, i: nat :: Entry(t, q, i) == Entry(s, q, i);
    assert forall q: nat, a: nat :: MidAt(t, q, a) == MidAt(s, q, a);
    assert forall q: nat, b: nat :: LowAt(t, q, b) == LowAt(s, q, b);
  }

  lemma LinkMidEntries<T>(m: Mem<T>, r: nat, a: nat, n: nat)
    requires Inv(m) && InTree(m, Mid(r, a)) && MidAt(m, r, a) == 0 && FreshTable(m, n) && IsTable(m, r) && r != 0
    requires SameMaps(m, MidLinked(m, r, a, n)) && Trees(m, MidLinked(m, r, a, n), Mid(r, a), n)
    requires SameRoots(m, MidLinked(m, r, a, n))
    ensures Entries(MidLinked(m, r, a, n))
  {
    hide LowEntry, MidAt, LowAt, Leaf, Interior, RootEntryOk, Inv, MidLinked, Entry;
    var t := MidLinked(m, r, a, n);
    forall q: nat, b: nat | InTree(t, Low(q, b))
      ensures Interior(LowEntry(t, q, b))
    {
      LinkMidLowEntry(m, t, r, a, n, q, b);
    }
    forall q: nat, i: nat | InTree(t, Root(q)) && i < ENTRIES
      ensures RootEntryOk(Entry(t, q, i), i)
    {
      LinkMidRootEntry(m, r, a, n, q, i);
    }
    LinkMidLeaves(m, t);
  }

  lemma LinkMidLeaves<T>(m: Mem<T>, t: Mem<T>)
    requires Inv(m) && SameMaps(m, t) && SameRoots(m, t)
    ensures forall q: nat, v: nat :: InTree(t, Root(q)) && v < PAGES ==> LeafOk(Leaf(t, q, v))
  {
    hide Leaf, LeafOk, Owned, Pointers, Conserved;
  }

  /** An entry of a level-1 table after walk linked a fresh one. */
  lemma LinkMidLowEntry<T>(m: Mem<T>, t: Mem<T>, r: nat, a: nat, n: nat, q: nat, b: nat)
    requires Inv(m) && InTree(m, Mid(r, a)) && MidAt(m, r, a) == 0 && FreshTable(m, n) && IsTable(m, r) && r != 0
    requires t == MidLinked(m, r, a, n) && Trees(m, t, Mid(r, a), n) && SameRoots(m, t) && InTree(t, Low(q, b))
    ensures Interior(LowEntry(t, q, b))
  {
    hide LowAt, Leaf;
    var c := b / ENTRIES;
    assert InTree(m, Low(q, b)) && InTree(m, Mid(q, c)) && InTree(m, Root(r));
    assert At(t, Mid(q, c)) == if q == r && c == a then n else At(m, Mid(q, c));
    ApartPlaces(m, Mid(q, c), Root(r));
    if q == r && c == a {
      assert Entry(t, n, b % ENTRIES) == 0;
    } else {
      assert Interior(LowEntry(m, q, b));
      assert MidAt(t, q, c) == MidAt(m, q, c);
      assert MidAt(m, q, c) != r ==> Entry(t, MidAt(m, q, c), b % ENTRIES) == Entry(m, MidAt(m, q, c), b % ENTRIES);
    }
  }

  lemma LinkMidRootEntry<T>(m: Mem<T>, r: nat, a: nat, n: nat, q: nat, i: nat)
    requires Inv(m) && InTree(m, Mid(r, a)) && FreshTable(m, n) && IsTable(m, r)
    requires SameRoots(m, MidLinked(m, r, a, n)) && InTree(MidLinked(m, r, a, n), Root(q)) && i < ENTRIES
    ensures RootEntryOk(Entry(MidLinked(m, r, a, n), q, i), i)
  {
    hide LowAt, Leaf, MidAt;
    PteParts(n, 1);
    assert InTree(m, Root(q));
    assert RootEntryOk(Entry(m, q, i), i);
  }

  /** walk linked a fresh level-0 table. */
  function LowLinked<T>(m: Mem<T>, r: nat, b: nat, n: nat): Mem<T>
    requires IsTable(m, MidAt(m, r, b / ENTRIES))
  {
    EntrySet(m, MidAt(m, r, b / ENTRIES), b % ENTRIES, MakePte(n, 1)).(owner := m.owner[n := Low(r, b)])
  }

  lemma LinkLowKeeps<T>(m: Mem<T>, r: nat, b: nat, n: nat)
    requires Inv(m) && InTree(m, Low(r, b)) && MidAt(m, r, b / ENTRIES) != 0 && LowAt(m, r, b) == 0 && FreshTable(m, n)
    ensures IsTable(m, MidAt(m, r, b / ENTRIES))
    ensures var t := LowLinked(m, r, b, n);
            Inv(t) && SameMaps(m, t) && SameRoots(m, t) && LowAt(t, r, b) == n && Trees(m, t, Low(r, b), n)
  {
    TableThere(m, Mid(r, b / ENTRIES));
    var t := LowLinked(m, r, b, n);
    LinkLowTrees(m, r, b, n);
    SameButOwner(m, EntrySet(m, MidAt(m, r, b / ENTRIES), b % ENTRIES, MakePte(n, 1)), t, Low(r, b), n);
    LinkOwners(m, t, Low(r, b), n);
    LinkLowEntries(m, r, b, n);
  }

  lemma LinkLowEntries<T>(m: Mem<T>, r: nat, b: nat, n: nat)
    requires Inv(m) && InTree(m, Low(r, b)) && MidAt(m, r, b / ENTRIES) != 0 && FreshTable(m, n)
             && IsTable(m, MidAt(m, r, b / ENTRIES))
    requires var t := LowLinked(m, r, b, n); SameMaps(m, t) && Trees(m, t, Low(r, b), n) && SameRoots(m, t)
    ensures Entries(LowLinked(m, r, b, n))
  {
    hide LowEntry, LowAt, Leaf, Interior, RootEntryOk, Inv, Entry;
    var t, p := LowLinked(m, r, b, n), MidAt(m, r, b / ENTRIES);
    forall q: nat, c: nat | InTree(t, Low(q, c))
      ensures Interior(LowEntry(t, q, c))
    {
      LinkLowLowEntry(m, t, r, b, n, q, c);
    }
    RootEntriesKept(m, t, p, Mid(r, b / ENTRIES));
    LinkMidLeaves(m, t);
  }

  lemma LinkLowLowEntry<T>(m: Mem<T>, t: Mem<T>, r: nat, b: nat, n: nat, q: nat, c: nat)
    requires Inv(m) && InTree(m, Low(r, b)) && FreshTable(m, n) && IsTable(m, MidAt(m, r, b / ENTRIES))
    requires t == LowLinked(m, r, b, n) && Trees(m, t, Low(r, b), n) && SameRoots(m, t) && InTree(t, Low(q, c))
    ensures Interior(LowEntry(t, q, c))
  {
    hide LowAt, Leaf;
    PteParts(n, 1);
    assert InTree(m, Low(q, c)) && InTree(m, Mid(q, c / ENTRIES));
    assert At(t, Mid(q, c / ENTRIES)) == At(m, Mid(q, c / ENTRIES));
    assert MidAt(t, q, c / ENTRIES) == MidAt(m, q, c / ENTRIES);
    assert Interior(LowEntry(m, q, c));
  }

  /** A write to a table that is no root. */
  lemma RootEntriesKept<T>(m: Mem<T>, t: Mem<T>, p: nat, x: Place)
    requires Inv(m) && InTree(m, x) && (x.Mid? || x.Low?) && At(m, x) == p != 0 && SameRoots(m, t)
    requires |t.pages| == |m.pages| && forall q :: 0 <= q < |m.pages| && q != p ==> t.pages[q] == m.pages[q]
    ensures forall q: nat, i: nat :: InTree(t, Root(q)) && i < ENTRIES ==> RootEntryOk(Entry(t, q, i), i)
  {
    hide LowAt, MidAt, Leaf;
    forall q: nat, i: nat | InTree(t, Root(q)) && i < ENTRIES
      ensures RootEntryOk(Entry(t, q, i), i)
    {
      assert InTree(m, Root(q)) && RootEntryOk(Entry(m, q, i), i);
      assert At(m, Root(q)) == q;
    }
  }

  // ----- the flat map

  /** mappages stored entry e for page v; a user frame now belongs to that page. */
  function Mapped<T>(m: Mem<T>, r: nat, v: nat, e: nat): Mem<T>
    requires IsTable(m, LowAt(m, r, v / ENTRIES))
  {
    EntrySet(m, LowAt(m, r, v / ENTRIES), v % ENTRIES, e)
    .(owner := if v < USER_PAGES then m.owner[Ppn(e) := Frame(r, v)] else m.owner)
  }

  ghost predicate Mappable<T>(m: Mem<T>, r: nat, v: nat, e: nat) {
    && InTree(m, Root(r)) && v < PAGES && LowAt(m, r, v / ENTRIES) != 0 && Leaf(m, r, v) == 0
    && V(e) && IsLeaf(e) && Ppn(e) != 0 && (v < USER_PAGES ==> Ppn(e) in m.owner && m.owner[Ppn(e)] == Pending)
  }

  lemma MapKeeps<T>(m: Mem<T>, r: nat, v: nat, e: nat)
    requires Inv(m) && Mappable(m, r, v, e)
    ensures IsTable(m, LowAt(m, r, v / ENTRIES))
    ensures var t := Mapped(m, r, v, e);
            Inv(t) && Maps(m, t, r, v, e) && SameRoots(m, t) && Trees(m, t, Frame(r, v), Ppn(e))
  {
    hide LowAt, MidAt, Leaf, LowEntry;
    MapTrees(m, r, v, e);
    var t := Mapped(m, r, v, e);
    var s := EntrySet(m, LowAt(m, r, v / ENTRIES), v % ENTRIES, e);
    if v < USER_PAGES {
      LinkOwners(m, t, Frame(r, v), Ppn(e));
    } else {
      SameOwnedLeaf(m, t, r, v);
    }
    LeafEntries(m, s, t, r, v, e);
  }

  lemma MapTrees<T>(m: Mem<T>, r: nat, v: nat, e: nat)
    requires Inv(m) && Mappable(m, r, v, e)
    ensures IsTable(m, LowAt(m, r, v / ENTRIES))
    ensures var t := Mapped(m, r, v, e); Maps(m, t, r, v, e) && SameRoots(m, t) && Trees(m, t, Frame(r, v), Ppn(e))
  {
    hide LowAt, MidAt, Leaf, LowEntry;
    MidWays(m, r, v);
    TableThere(m, Low(r, v / ENTRIES));
    SetLeafTrees(m, r, v, e);
    SameButOwner(m, EntrySet(m, LowAt(m, r, v / ENTRIES), v % ENTRIES, e), Mapped(m, r, v, e), Frame(r, v), Ppn(e));
  }

  lemma SameOwnedLeaf<T>(m: Mem<T>, t: Mem<T>, r: nat, v: nat)
    requires Owned(m) && Pointers(m) && Trees(m, t, Frame(r, v), At(t, Frame(r, v))) && v >= USER_PAGES
             && t.owner == m.owner
    requires forall p :: p in m.owner && IsTable(m, p) ==> IsTable(t, p)
    ensures Owned(t) && Pointers(t)
  {
    forall pl: Place
      ensures InTree(t, pl) <==> InTree(m, pl)
    {
    }
    forall p | p in t.owner && !t.owner[p].Pending?
      ensures Owns(t, t.owner[p], p)
    {
      assert Owns(m, m.owner[p], p);
    }
  }

  /** Interior entries do not change when a leaf entry does. */
  lemma LeafEntries<T>(m: Mem<T>, s: Mem<T>, t: Mem<T>, r: nat, v: nat, e: nat)
    requires Inv(m) && InTree(m, Root(r)) && v < PAGES && LowAt(m, r, v / ENTRIES) != 0
             && IsTable(m, LowAt(m, r, v / ENTRIES))
    requires s == EntrySet(m, LowAt(m, r, v / ENTRIES), v % ENTRIES, e) && t.pages == s.pages && LeafOk(e)
    requires Trees(m, t, Frame(r, v), Child(e)) && Maps(m, t, r, v, e) && SameRoots(m, t)
    ensures Entries(t)
  {
    hide LowAt;
    MidWays(m, r, v);
    var p := LowAt(m, r, v / ENTRIES);
    forall q: nat, c: nat | InTree(t, Low(q, c))
      ensures Interior(LowEntry(t, q, c))
    {
      assert InTree(m, Low(q, c)) && InTree(m, Mid(q, c / ENTRIES));
      assert At(t, Mid(q, c / ENTRIES)) == At(m, Mid(q, c / ENTRIES));
      assert Interior(LowEntry(m, q, c));
      assert MidAt(m, q, c / ENTRIES) != 0 ==> MidAt(m, q, c / ENTRIES) != p;
    }
    RootEntriesKept(m, t, p, Low(r, v / ENTRIES));
  }

  /** uvmunmap cleared the entry for page v, and freed the frame if it was the process's. */
  function Unmapped<T>(m: Mem<T>, r: nat, v: nat, junk: T): Mem<T>
    requires IsTable(m, LowAt(m, r, v / ENTRIES)) && Ppn(Leaf(m, r, v)) < |m.pages|
  {
    var p, low := Ppn(Leaf(m, r, v)), LowAt(m, r, v / ENTRIES);
    if v < USER_PAGES then
      Freed(m, p, junk).(pages := m.pages[p := Data(junk)][low := Table(m.pages[low].ptes[v % ENTRIES := 0])])
    else EntrySet(m, low, v % ENTRIES, 0)
  }

  lemma UnmapKeeps<T>(m: Mem<T>, r: nat, v: nat, junk: T)
    requires Inv(m) && InTree(m, Root(r)) && v < USER_PAGES && Leaf(m, r, v) != 0
    ensures IsTable(m, LowAt(m, r, v / ENTRIES)) && LowAt(m, r, v / ENTRIES) != Ppn(Leaf(m, r, v)) < |m.pages|
    ensures Ppn(Leaf(m, r, v)) in m.owner && m.owner[Ppn(Leaf(m, r, v))] == Frame(r, v)
    ensures var t := Unmapped(m, r, v, junk);
            Inv(t) && Maps(m, t, r, v, 0) && SameRoots(m, t) && Trees(m, t, Frame(r, v), 0)
  {
    MidWays(m, r, v);
    TableThere(m, Low(r, v / ENTRIES));
    assert LeafOk(Leaf(m, r, v)) && At(m, Frame(r, v)) == Ppn(Leaf(m, r, v));
    var p, low, t := Ppn(Leaf(m, r, v)), LowAt(m, r, v / ENTRIES), Unmapped(m, r, v, junk);
    var w := m.(pages := m.pages[p := Data(junk)]);
    WriteKeeps(m, p, Data(junk));
    assert At(w, Low(r, v / ENTRIES)) == low && At(w, Frame(r, v)) == At(m, Frame(r, v));
    UnmapSteps(m, w, t, r, v, p);
  }

  lemma UnmapSteps<T>(m: Mem<T>, w: Mem<T>, t: Mem<T>, r: nat, v: nat, p: nat)
    requires Inv(w) && SameMaps(m, w) && SameRoots(m, w) && InTree(w, Root(r)) && v < USER_PAGES
             && At(w, Frame(r, v)) == p != 0
    requires LowAt(w, r, v / ENTRIES) != 0 && IsTable(w, LowAt(w, r, v / ENTRIES)) && p in w.owner
             && w.owner[p] == Frame(r, v)
    requires t == EntrySet(w, LowAt(w, r, v / ENTRIES), v % ENTRIES, 0).(free := [p] + w.free, owner := w.owner - {p})
    ensures Inv(t) && Maps(m, t, r, v, 0) && SameRoots(m, t) && Trees(w, t, Frame(r, v), 0)
  {
    hide LowAt, MidAt, Leaf, LowEntry, LeafOk;
    var s := EntrySet(w, LowAt(w, r, v / ENTRIES), v % ENTRIES, 0);
    SetLeafTrees(w, r, v, 0);
    SameButOwner(w, s, t, Frame(r, v), 0);
    UnlinkOwners(w, t, Frame(r, v), p);
    FreeConserves(w, t, p);
    ZeroLeaf();
    LeafEntries(w, s, t, r, v, 0);
  }

  lemma ZeroLeaf()
    ensures LeafOk(0)
  {
  }

  /** Clearing a mapping of a page that is not the process's own leaves the frame alone. */
  lemma ForgetKeeps<T>(m: Mem<T>, r: nat, v: nat, junk: T)
    requires Inv(m) && InTree(m, Root(r)) && USER_PAGES <= v < PAGES && Leaf(m, r, v) != 0
    ensures IsTable(m, LowAt(m, r, v / ENTRIES))
    ensures var t := EntrySet(m, LowAt(m, r, v / ENTRIES), v % ENTRIES, 0);
            Inv(t) && Maps(m, t, r, v, 0) && SameRoots(m, t) && Trees(m, t, Frame(r, v), 0)
  {
    MidWays(m, r, v);
    TableThere(m, Low(r, v / ENTRIES));
    var t := EntrySet(m, LowAt(m, r, v / ENTRIES), v % ENTRIES, 0);
    SetLeafTrees(m, r, v, 0);
    hide LowAt, MidAt, Leaf;
    SameOwnedLeaf(m, t, r, v);
    ZeroLeaf();
    LeafEntries(m, t, t, r, v, 0);
  }

  // ----- removing tables

  /** freewalk freed the level-0 table on the way to b, and its caller cleared the entry. */
  function LowRemoved<T>(m: Mem<T>, r: nat, b: nat, junk: T): Mem<T>
    requires LowAt(m, r, b) < |m.pages| && IsTable(m, MidAt(m, r, b / ENTRIES))
  {
    var p, q := LowAt(m, r, b), MidAt(m, r, b / ENTRIES);
    Freed(m, p, junk).(pages := m.pages[p := Data(junk)][q := Table(m.pages[q].ptes[b % ENTRIES := 0])])
  }

  /** No page below is mapped. */
  ghost predicate NoLeaves<T>(m: Mem<T>, x: Place)
    requires !x.Pending? && !x.Frame?
  {
    forall v: nat :: v < PAGES && Below(x, v) ==> Leaf(m, x.r, v) == 0
  }

  predicate Below(x: Place, v: nat)
    requires !x.Pending? && !x.Frame?
  {
    match x
    case Root(_) => true
    case Mid(_, a) => v / ENTRIES / ENTRIES == a
    case Low(_, b) => v / ENTRIES == b
  }

  lemma LowRemovedLow<T>(m: Mem<T>, t: Mem<T>, r: nat, b: nat, junk: T, q: nat, c: nat)
    requires Inv(m) && InTree(m, Low(r, b)) && LowAt(m, r, b) != 0 && MidAt(m, r, b / ENTRIES) != 0
             && InTree(m, Low(q, c))
    requires LowAt(m, r, b) < |m.pages| && IsTable(m, MidAt(m, r, b / ENTRIES)) && IsTable(m, LowAt(m, r, b))
    requires t == LowRemoved(m, r, b, junk)
    ensures LowAt(t, q, c) == if q == r && c == b then 0 else LowAt(m, q, c)
    ensures LowEntry(t, q, c) == if q == r && c == b then 0 else LowEntry(m, q, c)
  {
    assert InTree(m, Mid(q, c / ENTRIES)) && InTree(m, Mid(r, b / ENTRIES)) && InTree(m, Root(q));
    var p, mid := LowAt(m, r, b), MidAt(m, r, b / ENTRIES);
    assert At(m, Root(q)) == q && At(m, Low(r, b)) == p && At(m, Mid(r, b / ENTRIES)) == mid;
    assert q != p && q != mid && p != mid;
    assert MidAt(t, q, c / ENTRIES) == MidAt(m, q, c / ENTRIES);
    var other := MidAt(m, q, c / ENTRIES);
    assert At(m, Mid(q, c / ENTRIES)) == other;
    hide MidAt;
    assert other != 0 ==> other != p;
    assert other == mid && other != 0 ==> Mid(q, c / ENTRIES) == Mid(r, b / ENTRIES);
  }

  lemma LowRemovedTrees<T>(m: Mem<T>, t: Mem<T>, r: nat, b: nat, junk: T)
    requires Inv(m) && InTree(m, Low(r, b)) && LowAt(m, r, b) != 0 && MidAt(m, r, b / ENTRIES) != 0
             && NoLeaves(m, Low(r, b))
    requires LowAt(m, r, b) < |m.pages| && IsTable(m, MidAt(m, r, b / ENTRIES)) && IsTable(m, LowAt(m, r, b))
    requires t == LowRemoved(m, r, b, junk)
    ensures Trees(m, t, Low(r, b), 0) && SameMaps(m, t)
    ensures forall q: nat, c: nat :: InTree(m, Low(q, c)) ==>
              LowEntry(t, q, c) == if q == r && c == b then 0 else LowEntry(m, q, c)
  {
    var p, mid := LowAt(m, r, b), MidAt(m, r, b / ENTRIES);
    forall q: nat, c: nat | InTree(m, Low(q, c))
      ensures LowAt(t, q, c) == if q == r && c == b then 0 else LowAt(m, q, c)
      ensures LowEntry(t, q, c) == if q == r && c == b then 0 else LowEntry(m, q, c)
    {
      LowRemovedLow(m, t, r, b, junk, q, c);
    }
    assert InTree(m, Mid(r, b / ENTRIES)) && At(m, Mid(r, b / ENTRIES)) == mid;
    forall q: nat, a: nat | InTree(m, Mid(q, a))
      ensures MidAt(t, q, a) == MidAt(m, q, a)
    {
      assert InTree(m, Root(q)) && At(m, Root(q)) == q && At(m, Low(r, b)) == p;
    }
    LowRemovedMaps(m, t, r, b, p, mid);
  }

  lemma LowRemovedMaps<T>(m: Mem<T>, t: Mem<T>, r: nat, b: nat, p: nat, mid: nat)
    requires Pointers(m) && InTree(m, Low(r, b)) && At(m, Low(r, b)) == p != 0 && At(m, Mid(r, b / ENTRIES)) == mid != 0
             && NoLeaves(m, Low(r, b))
    requires |t.pages| == |m.pages| && forall i :: 0 <= i < |m.pages| && i != p && i != mid ==> t.pages[i] == m.pages[i]
    requires forall q: nat, c: nat :: InTree(m, Low(q, c)) ==>
               LowAt(t, q, c) == if q == r && c == b then 0 else LowAt(m, q, c)
    ensures SameMaps(m, t)
  {
    hide LowAt, MidAt;
    assert InTree(m, Mid(r, b / ENTRIES));
    forall q: nat, v: nat | InTree(m, Root(q)) && v < PAGES
      ensures Leaf(t, q, v) == Leaf(m, q, v)
    {
      MidWays(m, q, v);
      assert LowAt(t, q, v / ENTRIES) == if q == r && v / ENTRIES == b then 0 else LowAt(m, q, v / ENTRIES);
      assert At(m, Low(q, v / ENTRIES)) == LowAt(m, q, v / ENTRIES);
      assert q == r && v / ENTRIES == b ==> Below(Low(r, b), v);
    }
  }

  lemma LowRemovedKeeps<T>(m: Mem<T>, r: nat, b: nat, junk: T)
    requires Inv(m) && InTree(m, Low(r, b)) && LowAt(m, r, b) != 0 && NoLeaves(m, Low(r, b))
    ensures LowAt(m, r, b) < |m.pages| && MidAt(m, r, b / ENTRIES) != 0 && IsTable(m, MidAt(m, r, b / ENTRIES))
    ensures LowAt(m, r, b) != MidAt(m, r, b / ENTRIES)
    ensures var t := LowRemoved(m, r, b, junk); Inv(t) && SameMaps(m, t) && SameRoots(m, t) && Trees(m, t, Low(r, b), 0)
  {
    assert InTree(m, Mid(r, b / ENTRIES));
    TableThere(m, Low(r, b));
    TableThere(m, Mid(r, b / ENTRIES));
    var p, t := LowAt(m, r, b), LowRemoved(m, r, b, junk);
    LowRemovedTrees(m, t, r, b, junk);
    UnlinkOwners(m, t, Low(r, b), p);
    FreeConserves(m, t, p);
    LowRemovedEntries(m, t, r, b, junk);
  }

  lemma LowRemovedEntries<T>(m: Mem<T>, t: Mem<T>, r: nat, b: nat, junk: T)
    requires Inv(m) && InTree(m, Low(r, b)) && LowAt(m, r, b) != 0 && MidAt(m, r, b / ENTRIES) != 0
    requires LowAt(m, r, b) < |m.pages| && IsTable(m, MidAt(m, r, b / ENTRIES)) && t == LowRemoved(m, r, b, junk)
    requires SameMaps(m, t) && SameRoots(m, t)
    requires forall q: nat, c: nat :: InTree(m, Low(q, c)) ==>
               LowEntry(t, q, c) == if q == r && c == b then 0 else LowEntry(m, q, c)
    ensures Entries(t)
  {
    hide LowEntry;
    assert InTree(m, Mid(r, b / ENTRIES)) && At(m, Mid(r, b / ENTRIES)) != 0 && At(m, Low(r, b)) != 0;
    forall q: nat, i: nat | InTree(t, Root(q)) && i < ENTRIES
      ensures RootEntryOk(Entry(t, q, i), i)
    {
      assert InTree(m, Root(q)) && At(m, Root(q)) == q && RootEntryOk(Entry(m, q, i), i);
    }
  }

  /** The same one level up: no level-0 table is left below. */
  function MidRemoved<T>(m: Mem<T>, r: nat, a: nat, junk: T): Mem<T>
    requires MidAt(m, r, a) < |m.pages| && IsTable(m, r) && a < ENTRIES
  {
    Freed(m, MidAt(m, r, a), junk).(pages := m.pages[MidAt(m, r, a) := Data(junk)][r := Table(m.pages[r].ptes[a := 0])])
  }

  ghost predicate NoLows<T>(m: Mem<T>, r: nat, a: nat) {
    forall b: nat :: b / ENTRIES == a ==> LowAt(m, r, b) == 0
  }

  lemma MidRemovedTrees<T>(m: Mem<T>, t: Mem<T>, r: nat, a: nat, junk: T)
    requires Inv(m) && InTree(m, Mid(r, a)) && MidAt(m, r, a) != 0 && NoLows(m, r, a)
    requires MidAt(m, r, a) < |m.pages| && IsTable(m, r) && t == MidRemoved(m, r, a, junk)
    ensures Trees(m, t, Mid(r, a), 0) && SameMaps(m, t)
    ensures forall q: nat, c: nat :: InTree(m, Low(q, c)) ==>
              LowEntry(t, q, c) == if q == r && c / ENTRIES == a then 0 else LowEntry(m, q, c)
  {
    var p := MidAt(m, r, a);
    assert At(m, Mid(r, a)) == p;
    forall q: nat, c: nat | InTree(m, Mid(q, c))
      ensures MidAt(t, q, c) == if q == r && c == a then 0 else MidAt(m, q, c)
    {
      assert InTree(m, Root(q)) && At(m, Root(q)) == q;
    }
    forall q: nat, c: nat | InTree(m, Low(q, c))
      ensures LowAt(t, q, c) == LowAt(m, q, c)
      ensures LowEntry(t, q, c) == if q == r && c / ENTRIES == a then 0 else LowEntry(m, q, c)
    {
      assert InTree(m, Mid(q, c / ENTRIES)) && At(m, Mid(q, c / ENTRIES)) == MidAt(m, q, c / ENTRIES);
      assert InTree(m, Root(r)) && At(m, Root(r)) == r;
    }
    MidRemovedMaps(m, t, r, a, p);
  }

  lemma MidRemovedMaps<T>(m: Mem<T>, t: Mem<T>, r: nat, a: nat, p: nat)
    requires Pointers(m) && InTree(m, Mid(r, a)) && At(m, Mid(r, a)) == p != 0 && r != 0
    requires |t.pages| == |m.pages| && forall i :: 0 <= i < |m.pages| && i != p && i != r ==> t.pages[i] == m.pages[i]
    requires forall q: nat, c: nat :: InTree(m, Low(q, c)) ==> LowAt(t, q, c) == LowAt(m, q, c)
    ensures SameMaps(m, t)
  {
    hide MidAt, LowAt;
    assert InTree(m, Root(r)) && At(m, Root(r)) == r;
    forall q: nat, v: nat | InTree(m, Root(q)) && v < PAGES
      ensures Leaf(t, q, v) == Leaf(m, q, v)
    {
      MidWays(m, q, v);
      assert LowAt(t, q, v / ENTRIES) == LowAt(m, q, v / ENTRIES);
      assert At(m, Low(q, v / ENTRIES)) == LowAt(m, q, v / ENTRIES);
    }
  }

  lemma MidRemovedKeeps<T>(m: Mem<T>, r: nat, a: nat, junk: T)
    requires Inv(m) && InTree(m, Mid(r, a)) && MidAt(m, r, a) != 0 && NoLows(m, r, a)
    ensures MidAt(m, r, a) < |m.pages| && IsTable(m, r) && MidAt(m, r, a) != r
    ensures var t := MidRemoved(m, r, a, junk); Inv(t) && SameMaps(m, t) && SameRoots(m, t) && Trees(m, t, Mid(r, a), 0)
  {
    RootThere(m, r);
    TableThere(m, Mid(r, a));
    var p, t := MidAt(m, r, a), MidRemoved(m, r, a, junk);
    MidRemovedTrees(m, t, r, a, junk);
    UnlinkOwners(m, t, Mid(r, a), p);
    FreeConserves(m, t, p);
    MidRemovedEntries(m, t, r, a, junk);
  }

  lemma MidRemovedEntries<T>(m: Mem<T>, t: Mem<T>, r: nat, a: nat, junk: T)
    requires Inv(m) && InTree(m, Mid(r, a)) && MidAt(m, r, a) != 0 && MidAt(m, r, a) < |m.pages| && IsTable(m, r)
    requires t == MidRemoved(m, r, a, junk) && SameMaps(m, t) && SameRoots(m, t)
    requires forall q: nat, c: nat :: InTree(m, Low(q, c)) ==>
               LowEntry(t, q, c) == if q == r && c / ENTRIES == a then 0 else LowEntry(m, q, c)
    ensures Entries(t)
  {
    hide LowEntry;
    assert At(m, Mid(r, a)) != 0;
    forall q: nat, i: nat | InTree(t, Root(q)) && i < ENTRIES
      ensures RootEntryOk(Entry(t, q, i), i)
    {
      assert InTree(m, Root(q)) && At(m, Root(q)) == q && RootEntryOk(Entry(m, q, i), i);
    }
  }

  // ----- whole address spaces

  /** A root without level-1 tables maps nothing. */
  lemma EmptyTree<T>(m: Mem<T>, r: nat, pl: Place)
    requires (forall a: nat :: MidAt(m, r, a) == 0) && !pl.Pending? && !pl.Root? && pl.r == r
    ensures At(m, pl) == 0 && forall v: nat :: Leaf(m, r, v) == 0
  {
    assert forall b: nat :: LowAt(m, r, b) == 0;
  }

  /** uvmcreate: a fresh zeroed page becomes a root that maps nothing. */
  lemma NewRootKeeps<T>(m: Mem<T>, n: nat)
    requires Inv(m) && FreshTable(m, n)
    ensures var t := m.(owner := m.owner[n := Root(n)]);
            && Inv(t) && SameMaps(m, t) && InTree(t, Root(n)) && (forall v: nat :: Leaf(t, n, v) == 0)
            && forall q: nat :: InTree(t, Root(q)) <==> q == n || InTree(m, Root(q))
  {
    hide Entry, MidAt, LowAt, Leaf, At, LowEntry;
    var t := m.(owner := m.owner[n := Root(n)]);
    NewRootEmpty(m, t, n);
    forall pl: Place | InTree(t, pl)
      ensures At(t, pl) == (if pl.r == n then if pl.Root? then n else 0 else At(m, pl)) && (pl.r == n || InTree(m, pl))
    {
      SamePages(m, t, pl);
      if pl.r == n && !pl.Root? {
        EmptyTree(t, n, pl);
      }
      RootAt(t, pl);
    }
    RootAt(t, Root(n));
    forall p | p in t.owner && !t.owner[p].Pending?
      ensures Owns(t, t.owner[p], p)
    {
      assert p != n ==> Owns(m, m.owner[p], p);
    }
    forall q: nat, v: nat
      ensures Leaf(t, q, v) == Leaf(m, q, v)
    {
      SamePages(m, t, Root(q));
    }
    NewRootEntries(m, n);
  }

  lemma RootAt<T>(m: Mem<T>, pl: Place)
    ensures pl.Root? ==> At(m, pl) == pl.r
  {
  }

  lemma NewRootEmpty<T>(m: Mem<T>, t: Mem<T>, n: nat)
    requires FreshTable(m, n) && t == m.(owner := m.owner[n := Root(n)])
    ensures (forall a: nat :: MidAt(t, n, a) == 0) && forall v: nat :: Leaf(t, n, v) == 0
  {
    assert forall i: nat :: Entry(t, n, i) == 0;
    assert forall a: nat :: MidAt(t, n, a) == 0;
    assert forall b: nat :: LowAt(t, n, b) == 0;
  }

  lemma SamePages<T>(m: Mem<T>, t: Mem<T>, pl: Place)
    requires t.pages == m.pages
    ensures At(t, pl) == At(m, pl) && forall v: nat :: !pl.Pending? ==> Leaf(t, pl.r, v) == Leaf(m, pl.r, v)
  {
    assert forall q: nat, i: nat :: Entry(t, q, i) == Entry(m, q, i);
    assert forall q: nat, a: nat :: MidAt(t, q, a) == MidAt(m, q, a);
    assert forall q: nat, b: nat :: LowAt(t, q, b) == LowAt(m, q, b);
  }

  lemma NewRootEntries<T>(m: Mem<T>, n: nat)
    requires Inv(m) && FreshTable(m, n)
    ensures Entries(m.(owner := m.owner[n := Root(n)]))
  {
    var t := m.(owner := m.owner[n := Root(n)]);
    assert forall q: nat, i: nat :: Entry(t, q, i) == Entry(m, q, i);
    assert forall q: nat, a: nat :: MidAt(t, q, a) == MidAt(m, q, a);
    assert forall q: nat, b: nat :: LowEntry(t, q, b) == LowEntry(m, q, b) && LowAt(t, q, b) == LowAt(m, q, b);
    assert forall i: nat :: Entry(t, n, i) == 0;
    forall q: nat, b: nat | InTree(t, Low(q, b))
      ensures Interior(LowEntry(t, q, b))
    {
      assert q != n ==> InTree(m, Low(q, b));
    }
    forall q: nat, v: nat | InTree(t, Root(q)) && v < PAGES
      ensures LeafOk(Leaf(t, q, v))
    {
      assert q != n ==> InTree(m, Root(q)) && LeafOk(Leaf(m, q, v));
    }
  }

  /** freewalk freed the root: the address space is gone, and with it every place in it. */
  lemma RootRemovedKeeps<T>(m: Mem<T>, r: nat, junk: T)
    requires Inv(m) && InTree(m, Root(r)) && forall a: nat :: MidAt(m, r, a) == 0
    ensures r < |m.pages|
    ensures var t := Freed(m, r, junk);
            && Inv(t) && (forall q: nat :: InTree(t, Root(q)) <==> q != r && InTree(m, Root(q)))
            && (forall q: nat, v: nat :: InTree(t, Root(q)) && v < PAGES ==> Leaf(t, q, v) == Leaf(m, q, v))
            && (forall p :: p in t.owner && !t.owner[p].Pending? ==> t.owner[p].r != r)
  {
    hide Entry, LowAt, Leaf, At, LowEntry;
    RootThere(m, r);
    var t := Freed(m, r, junk);
    forall pl: Place | InTree(t, pl)
      ensures InTree(m, pl) && pl.r != r && At(t, pl) == At(m, pl)
    {
      RootRemovedAt(m, r, junk, pl);
    }
    forall q: nat, v: nat | InTree(t, Root(q)) && v < PAGES
      ensures Leaf(t, q, v) == Leaf(m, q, v)
    {
      RootRemovedAt(m, r, junk, Root(q));
    }
    forall p | p in t.owner && !t.owner[p].Pending?
      ensures Owns(t, t.owner[p], p) && t.owner[p].r != r
    {
      assert Owns(m, m.owner[p], p);
      if t.owner[p].r == r && !t.owner[p].Root? {
        EmptyTree(m, r, t.owner[p]);
      }
      RootAt(m, t.owner[p]);
    }
    FreeConserves(m, t, r);
    RootRemovedEntries(m, r, junk);
  }

  lemma RootRemovedAt<T>(m: Mem<T>, r: nat, junk: T, pl: Place)
    requires Inv(m) && InTree(m, Root(r)) && r < |m.pages| && r != 0 && InTree(Freed(m, r, junk), pl)
    ensures InTree(m, pl) && pl.r != r && At(Freed(m, r, junk), pl) == At(m, pl)
    ensures forall v: nat :: pl.Root? && v < PAGES ==> Leaf(Freed(m, r, junk), pl.r, v) == Leaf(m, pl.r, v)
    ensures pl.Low? ==> LowEntry(Freed(m, r, junk), pl.r, pl.b) == LowEntry(m, pl.r, pl.b)
  {
    var t, q := Freed(m, r, junk), pl.r;
    assert q != r && InTree(m, Root(q)) && InTree(m, pl) && At(m, Root(r)) == r;
    assert forall i: nat :: Entry(t, q, i) == Entry(m, q, i);
    forall b: nat | b < PAGES / ENTRIES
      ensures LowAt(t, q, b) == LowAt(m, q, b) && LowEntry(t, q, b) == LowEntry(m, q, b)
    {
      assert InTree(m, Mid(q, b / ENTRIES)) && At(m, Mid(q, b / ENTRIES)) == MidAt(m, q, b / ENTRIES);
    }
    forall v: nat | v < PAGES
      ensures Leaf(t, q, v) == Leaf(m, q, v)
    {
      MidWays(m, q, v);
      assert At(m, Low(q, v / ENTRIES)) == LowAt(m, q, v / ENTRIES);
    }
  }

  lemma RootRemovedEntries<T>(m: Mem<T>, r: nat, junk: T)
    requires Inv(m) && InTree(m, Root(r)) && r < |m.pages| && r != 0
    ensures Entries(Freed(m, r, junk))
  {
    var t := Freed(m, r, junk);
    forall q: nat, a: nat | InTree(t, Root(q)) && a < ENTRIES
      ensures RootEntryOk(Entry(t, q, a), a)
    {
      assert q != r && InTree(m, Root(q)) && RootEntryOk(Entry(m, q, a), a);
    }
    forall q: nat, b: nat | InTree(t, Low(q, b))
      ensures Interior(LowEntry(t, q, b))
    {
      RootRemovedAt(m, r, junk, Low(q, b));
      assert Interior(LowEntry(m, q, b));
    }
    forall q: nat, v: nat | InTree(t, Root(q)) && v < PAGES
      ensures LeafOk(Leaf(t, q, v))
    {
      RootRemovedAt(m, r, junk, Root(q));
      assert LeafOk(Leaf(m, q, v));
    }
  }
}
