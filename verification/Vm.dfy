/** vm.c over kalloc.c: address spaces built, grown, copied and freed page by page. A
    virtual address is its page number here; PGROUNDUP and the byte sizes appear where
    the code computes with them. */
module Vm {
  import opened PageNeeds
  import opened PageTable

  const PGSIZE: nat := 4096
  const PTE_R: nat := 2
  const PTE_W: nat := 4
  const PTE_U: nat := 16

  /** The address of the trapframe page: a process's own memory lies below. */
  const TRAPFRAME: nat := 0x3F_FFFF_E000

  /** What a section that only adds tables keeps: every map, every owner, and the contents
      of every page that is no table. */
  ghost predicate Grew<T>(m: Mem<T>, t: Mem<T>) {
    && SameMaps(m, t) && |t.pages| == |m.pages| && t.lo == m.lo
    && (forall q: nat :: InTree(t, Root(q)) <==> InTree(m, Root(q)))
    && (forall p :: p in m.owner ==>
          p in t.owner && t.owner[p] == m.owner[p] && (Loose(m, p) && p < |m.pages| ==> t.pages[p] == m.pages[p]))
  }

  lemma GrewOn<T>(m: Mem<T>, t: Mem<T>, u: Mem<T>)
    requires Grew(m, t) && Grew(t, u)
    ensures Grew(m, u)
  {
    hide Leaf;
  }

  class Memory<T> {
    const lo: nat
    const zero: T
    const junk: T
    var pages: seq<Page<T>>
    var freelist: seq<nat>
    ghost var owner: map<nat, Place>

    ghost function State(): Mem<T>
      reads this
    {
      Mem(pages, lo, freelist, owner)
    }

    /** kinit: every page of RAM from lo on goes to the list. */
    constructor (lo: nat, image: seq<Page<T>>, zero: T, junk: T)
      requires 0 < lo <= |image|
      ensures this.lo == lo && this.zero == zero && this.junk == junk
      ensures Inv(State()) && owner == map[] && |pages| == |image| && forall p: nat :: lo <= p < |pages| ==>
                p in freelist
    {
      this.lo, this.zero, this.junk := lo, zero, junk;
      pages, freelist, owner := image, [], map[];
      new;
      var p := lo;
      while p < |pages|
        invariant lo <= p <= |pages| == |image| && owner == map[] && Distinct(freelist)
        invariant forall q: nat :: q in freelist <==> lo <= q < p
      {
        ghost var before := freelist;
        var ok := Kfree(p);
        assert forall k :: 1 <= k < |freelist| ==> freelist[k] == before[k - 1] && freelist[k] in before;
        p := p + 1;
      }
    }

    /** kfree; false stands for its panic. */
    method Kfree(p: nat) returns (ok: bool)
      modifies this`pages, this`freelist, this`owner
      ensures ok <==> lo <= p < |old(pages)|
      ensures ok ==> State() == Freed(old(State()), p, junk)
      ensures !ok ==> State() == old(State())
    {
      if p < lo || p >= |pages| {
        return false;
      }
      pages := pages[p := Data(junk)];
      freelist := [p] + freelist;
      owner := owner - {p};
      ok := true;
    }

    /** kalloc; 0 when the list is empty. */
    method Kalloc() returns (p: nat)
      requires Inv(State())
      modifies this`pages, this`freelist, this`owner
      ensures p == 0 <==> old(freelist) == []
      ensures p == 0 ==> State() == old(State())
      ensures p != 0 ==> p == old(freelist)[0] < |pages| == |old(pages)| && State() == Allocated(old(State()), junk)
      ensures Inv(State()) && Grew(old(State()), State()) && SamePlaces(old(State()), State())
              && SameRoots(old(State()), State())
      ensures p != 0 ==> p !in old(owner) && p in owner && owner[p] == Pending
    {
      hide Inv, SameMaps, SamePlaces, SameRoots;
      ghost var m := State();
      KallocFacts(m, junk);
      if freelist == [] {
        return 0;
      }
      p := freelist[0];
      freelist := freelist[1..];
      pages := pages[p := Data(junk)];
      owner := owner[p := Pending];
    }

    /** memset(p, 0, PGSIZE) and memmove of a page nobody's tree has. */
    method Store(p: nat, page: Page<T>)
      requires Inv(State()) && p in owner && Loose(State(), p)
      modifies this`pages
      ensures p < |old(pages)| && pages == old(pages)[p := page] && Inv(State()) && SameMaps(old(State()), State())
      ensures SamePlaces(old(State()), State()) && SameRoots(old(State()), State())
    {
      hide Inv, SameMaps, SamePlaces, SameRoots;
      WriteKeeps(State(), p, page);
      pages := pages[p := page];
    }

    /** One level of walk: from table p through entry i to the table of place x, which is
        created when there is none and alloc says so. */
    method Descend(p: nat, i: nat, alloc: bool, ghost x: Place) returns (n: nat)
      requires Inv(State()) && InTree(State(), x) && IsTable(State(), p) && i < ENTRIES
      requires (x.Mid? && p == x.r && i == x.a)
               || (x.Low? && p == MidAt(State(), x.r, x.b / ENTRIES) && p != 0 && i == x.b % ENTRIES)
      modifies this`pages, this`freelist, this`owner
      ensures Inv(State()) && Grew(old(State()), State())
      ensures n == At(State(), x) && (n != 0 ==> IsTable(State(), n))
      ensures n == 0 <==> At(old(State()), x) == 0 && (!alloc || old(freelist) == [])
      ensures n == 0 || !alloc ==> State() == old(State())
      ensures n != 0 ==> Took(old(State()), State(), if At(old(State()), x) == 0 then {x} else {}, 0)
    {
      hide Inv, SameMaps, Grew, At, Took;
      ghost var m := State();
      KallocFacts(m, junk);
      WayThere(m, x, p, i);
      TookNone(m);
      var pte := pages[p].ptes[i];
      if V(pte) {
        return Ppn(pte);
      }
      if !alloc {
        return 0;
      }
      n := Kalloc();
      if n == 0 {
        return;
      }
      ghost var m1 := State();
      Store(n, Table(ZERO_TABLE));
      ghost var m2 := State();
      FreshWays(m, m1, m2, x, p, i, n);
      pages := pages[p := Table(pages[p].ptes[i := MakePte(n, 1)])];
      owner := owner[n := x];
    }

    /** walk: the level-0 table on the way to page v (its entry v % 512 is the one meant),
        or 0 when there is none; with alloc, 0 only when memory ran out on the way. A page
        at or above MAXVA, which no caller passes, would panic. */
    method Walk(r: nat, v: nat, alloc: bool) returns (t: nat)
      requires Inv(State()) && InTree(State(), Root(r)) && v < PAGES
      modifies this`pages, this`freelist, this`owner
      ensures Inv(State()) && Grew(old(State()), State())
      ensures t == LowAt(State(), r, v / ENTRIES) && (t != 0 ==> IsTable(State(), t))
      ensures !alloc ==> State() == old(State())
      ensures alloc ==> (t != 0 <==> TablesMissing(old(State()), r, v) <= |old(freelist)|)
      ensures alloc && t == 0 ==> freelist == []
      ensures TookWithin(old(State()), State(), WayMissing(old(State()), r, v), 0)
      ensures alloc && t != 0 ==> Took(old(State()), State(), WayMissing(old(State()), r, v), 0)
    {
      hide Inv, Grew, MidAt, LowAt, Px, Took, WayMissing, TablesMissing, WayLinks, SameSpaces, TookWithin;
      ghost var m := State();
      GrewSelf(m);
      WayStarts(m, r, v);
      RootThere(m, r);
      PxPlaces(v);
      t := r;
      var level := 2;
      while level > 0
        invariant 0 <= level <= 2 && Inv(State()) && Grew(m, State()) && (!alloc ==> State() == m)
        invariant InTree(State(), Root(r)) && t != 0 && IsTable(State(), t)
        invariant level == 2 ==> t == r
        invariant level == 1 ==> t == MidAt(State(), r, v / ENTRIES / ENTRIES)
        invariant level == 0 ==> t == LowAt(State(), r, v / ENTRIES)
        invariant Took(m, State(), WayLinks(m, r, v, level), 0)
      {
        ghost var m1, x := State(), if level == 2 then Mid(r, v / ENTRIES / ENTRIES) else Low(r, v / ENTRIES);
        MidWays(m1, r, v);
        var n := Descend(t, Px(level, v), alloc, x);
        GrewOn(m, m1, State());
        GrewRoot(m1, State(), r);
        if n == 0 {
          if alloc {
            WayFails(m, m1, r, v, level, x);
          }
          LinksWithin(m, m1, r, v, level);
          NoWay(State(), r, v, x);
          return 0;
        }
        GrewSpaces(m, m1);
        WayGrows(m, m1, State(), r, v, level, x);
        t, level := n, level - 1;
      }
      WayEnds(m, r, v);
      LinksWithin(m, State(), r, v, 0);
    }

    /** mappages for n pages from v on, to physical pages from p on, none of which is
        mapped yet (or it would panic): 0, or -1 after the first k of them when memory for
        tables ran out. */
    method Mappages(r: nat, v: nat, n: nat, p: nat, perm: nat) returns (ret: int, ghost k: nat)
      requires Inv(State()) && InTree(State(), Root(r)) && 0 < n && v + n <= PAGES && 0 < p && perm < 0x400
               && IsLeaf(perm)
      requires forall w: nat :: v <= w < v + n ==> Leaf(State(), r, w) == 0
      requires forall x: nat :: p <= x < p + n && v + (x - p) < USER_PAGES ==> x in owner && owner[x] == Pending
      modifies this`pages, this`freelist, this`owner
      ensures Inv(State()) && Extended(old(State()), State(), r, v, k, p, perm)
      ensures k <= n && (ret == 0 <==> k == n) && (ret != 0 ==> ret == -1 && freelist == [])
      ensures ret == 0 <==> |Missing(old(State()), r, PageRange(v, v + n))| <= |old(freelist)|
      ensures |Missing(old(State()), r, PageRange(v, v + k))| <= |old(freelist)|
      ensures ret != 0 ==> |old(freelist)| < |Missing(old(State()), r, PageRange(v, v + k + 1))|
      ensures ret != 0 ==> TookWithin(old(State()), State(), Missing(old(State()), r, PageRange(v, v + n)), 0)
      ensures ret == 0 ==> Took(old(State()), State(), Missing(old(State()), r, PageRange(v, v + n)), 0)
    {
      hide Inv, Extended, Grew, Leaf, LowAt, Maps, Px, Took, Missing, WayMissing, TablesMissing, PageRange, SameSpaces;
      hide TookWithin;
      ghost var m := State();
      ExtendedNone(m, r, v, p, perm);
      MapStarts(m, r, v);
      var j := 0;
      k := 0;
      while true
        invariant 0 <= j < n && k == j && Inv(State()) && Extended(m, State(), r, v, k, p, perm)
        invariant Took(m, State(), Missing(m, r, PageRange(v, v + k)), 0)
        decreases n - j
      {
        ghost var m1 := State();
        ExtendedFacts(m, m1, r, v, k, p, perm, v + j, p + j);
        var t := Walk(r, v + j, true);
        if t == 0 {
          ExtendedGrew(m, m1, State(), r, v, k, p, perm);
          MapStops(m, m1, State(), r, v, k, n, p, perm);
          TookFits(m, m1, Missing(m, r, PageRange(v, v + k)), 0);
          return -1, k;
        }
        ghost var m2 := State();
        PxPlaces(v + j);
        MapStep(m1, m2, r, v + j, p + j, perm);
        MapOneExtends(m, m1, m2, Mapped(m2, r, v + j, MakePte(p + j, WithV(perm))), r, v, k, p, perm, v + j, p + j,
                      MakePte(p + j, WithV(perm)));
        pages := pages[t := Table(pages[t].ptes[Px(0, v + j) := MakePte(p + j, WithV(perm))])];
        owner := if v + j < USER_PAGES then owner[p + j := Frame(r, v + j)] else owner;
        MapTurn(m, m1, m2, State(), r, v, k, p, perm);
        k := k + 1;
        if j == n - 1 {
          break;
        }
        j := j + 1;
      }
      TookFits(m, State(), Missing(m, r, PageRange(v, v + n)), 0);
      ret := 0;
    }

    /** uvmunmap of n pages from v on, mapped or not. Frames of the process's own pages are
        freed (doFree); the two pages above them are only forgotten. */
    method Uvmunmap(r: nat, v: nat, n: nat, doFree: bool)
      requires Inv(State()) && InTree(State(), Root(r)) && v + n <= PAGES
      requires if doFree then v + n <= USER_PAGES else v >= USER_PAGES
      modifies this`pages, this`freelist, this`owner
      ensures Inv(State()) && Shrunk(old(State()), State(), r, v, v + n)
      ensures Took(old(State()), State(), {}, if doFree then -|MappedPages(old(State()), r, v, v + n)| else 0)
    {
      hide Inv, Shrunk, Leaf, LowAt, Px, Grew, Took, Returned, TookWithin;
      ghost var m := State();
      ShrunkNone(m, r, v);
      NoneReturned(m, r, v, doFree);
      var a := v;
      while a < v + n
        invariant v <= a <= v + n && Inv(State()) && Shrunk(m, State(), r, v, a)
        invariant Took(m, State(), {}, Returned(m, r, v, a, doFree))
      {
        ghost var m1 := State();
        ShrunkRoot(m, m1, r, v, a);
        PxPlaces(a);
        var t := Walk(r, a, false);
        LeafIs(m1, r, a, t);
        if t != 0 && V(pages[t].ptes[Px(0, a)]) {
          if doFree {
            UnmapStep(m, m1, r, v, a, junk);
            var ok := Kfree(Ppn(pages[t].ptes[Px(0, a)]));
          } else {
            ForgetStep(m, m1, r, v, a, junk);
          }
          pages := pages[t := Table(pages[t].ptes[Px(0, a) := 0])];
        } else {
          ShrunkSkip(m, m1, r, v, a);
        }
        ReturnedNext(m, m1, State(), r, v, a, doFree);
        a := a + 1;
      }
      ReturnedAll(m, r, v, v + n, doFree);
    }

    /** A fresh page with the given contents, mapped for page a: what each turn of uvmalloc
        and uvmcopy does, kfree included when mappages fails. */
    method MapFresh(r: nat, a: nat, d: Page<T>, perm: nat) returns (ok: bool)
      requires Inv(State()) && InTree(State(), Root(r)) && a < USER_PAGES && Leaf(State(), r, a) == 0 && perm < 0x400
               && IsLeaf(perm)
      modifies this`pages, this`freelist, this`owner
      ensures Inv(State()) && (!ok ==> Grew(old(State()), State()))
      ensures ok ==> AddedPage(old(State()), State(), r, a, d, perm)
      ensures ok <==> TablesMissing(old(State()), r, a) < |old(freelist)|
      ensures ok ==> Took(old(State()), State(), WayMissing(old(State()), r, a), 1)
      ensures !ok ==> TookWithin(old(State()), State(), WayMissing(old(State()), r, a), 0)
    {
      hide Inv, Grew, Leaf, SameMaps, SamePlaces, SameRoots, Extended, AddedPage, Took, WayMissing, Missing, PageRange;
      hide TookWithin;
      ghost var m := State();
      WithinNone(m, WayMissing(m, r, a));
      var mem := Kalloc();
      if mem == 0 {
        return false;
      }
      ghost var m1 := State();
      Store(mem, d);
      ghost var m2 := State();
      FreshPage(m, m1, m2, r, a, mem);
      FreshWay(m, m1, m2, r, a);
      var ret;
      ghost var k;
      ret, k := Mappages(r, a, 1, mem, perm);
      ghost var m3 := State();
      if ret != 0 {
        FreshDropped(m, m2, m3, r, a, mem, perm, junk);
        var freed := Kfree(mem);
        FreshWithin(m, m1, m2, m3, State(), r, a);
        return false;
      }
      FreshTook(m, m1, m2, m3, r, a);
      FreshMapped(m, m2, m3, r, a, mem, d, perm);
      ok := true;
    }

    /** uvmdealloc, of sizes in bytes. */
    method Uvmdealloc(r: nat, oldsz: nat, newsz: nat) returns (sz: nat)
      requires Inv(State()) && InTree(State(), Root(r)) && oldsz <= TRAPFRAME
      modifies this`pages, this`freelist, this`owner
      ensures newsz >= oldsz ==> sz == oldsz && State() == old(State())
      ensures newsz < oldsz ==> sz == newsz && Shrunk(old(State()), State(), r, PagesOf(newsz), PagesOf(oldsz))
      ensures newsz < oldsz ==> forall w: nat :: w < PAGES ==>
                Leaf(State(), r, w) == if newsz <= 4096 * w < oldsz then 0 else Leaf(old(State()), r, w)
      ensures newsz < oldsz ==>
                Took(old(State()), State(), {}, -|MappedPages(old(State()), r, PagesOf(newsz), PagesOf(oldsz))|)
      ensures Inv(State())
    {
      hide Inv, Shrunk, Took, MappedPages, Leaf;
      if newsz >= oldsz {
        return oldsz;
      }
      ghost var m := State();
      PagesGrow(newsz, oldsz);
      Rounding(oldsz, USER_PAGES);
      ShrunkNone(State(), r, PagesOf(newsz));
      NoneReturned(State(), r, PagesOf(newsz), true);
      if PagesOf(newsz) < PagesOf(oldsz) {
        Uvmunmap(r, PagesOf(newsz), PagesOf(oldsz) - PagesOf(newsz), true);
      }
      CutBytes(m, State(), r, newsz, oldsz);
      sz := newsz;
    }

    /** uvmalloc, of sizes in bytes: the new pages are zeroed frames; when memory runs out,
        0 and every mapping of every address space as it was. */
    method Uvmalloc(r: nat, oldsz: nat, newsz: nat, perm: nat) returns (sz: nat)
      requires Inv(State()) && InTree(State(), Root(r)) && newsz <= TRAPFRAME && perm < 0x400 && IsLeaf(perm)
      requires forall w: nat :: oldsz <= 4096 * w < newsz ==> Leaf(State(), r, w) == 0
      modifies this`pages, this`freelist, this`owner
      ensures Inv(State())
      ensures newsz < oldsz ==> sz == oldsz && State() == old(State())
      ensures newsz >= oldsz ==> sz == if NewPagesFit(old(State()), r, oldsz, newsz) then newsz else 0
      ensures newsz >= oldsz && sz != 0 ==>
                Filled(old(State()), State(), r, PagesOf(oldsz), PagesOf(newsz), Data(zero), perm)
      ensures newsz >= oldsz && sz != 0 ==> forall w: nat :: oldsz <= 4096 * w < newsz ==>
                FreshFrame(old(State()), State(), r, w, Data(zero), perm)
      ensures newsz >= oldsz && sz != 0 ==> forall w: nat :: w < PAGES && !(oldsz <= 4096 * w < newsz) ==>
                Leaf(State(), r, w) == Leaf(old(State()), r, w)
      ensures newsz >= oldsz && sz == 0 ==> Restored(old(State()), State())
      ensures newsz >= oldsz && sz == 0 ==>
                TookWithin(old(State()), State(), NewTables(old(State()), r, oldsz, newsz), 0)
    {
      hide Inv, Filled, Restored, Leaf, AddedPage, Grew, Shrunk, Paid, Took, WayMissing, Missing, TablesMissing;
      hide PageRange, NewPagesFit, TookWithin, NewTables, MappedPages, FreshFrame;
      if newsz < oldsz {
        return oldsz;
      }
      ghost var m, v := State(), PagesOf(oldsz);
      PagesGrow(oldsz, newsz);
      Unfilled(m, r, oldsz, newsz);
      FilledNone(m, r, v, Data(zero), perm);
      NoneFilled(m, r, v);
      var a := PagesOf(oldsz);
      while a * PGSIZE < newsz
        invariant v <= a <= PagesOf(newsz) && Inv(State()) && Filled(m, State(), r, v, a, Data(zero), perm)
        invariant Paid(m, State(), r, PageRange(v, a))
      {
        ghost var m1 := State();
        Rounding(newsz, a);
        FilledNext(m, m1, r, v, a, Data(zero), perm);
        var ok := MapFresh(r, a, Data(zero), perm);
        FilledPays(m, m1, State(), r, oldsz, newsz, v, a, Data(zero), perm, ok);
        if !ok {
          ghost var m2 := State();
          FilledRoot(m, m1, m2, r, v, a, Data(zero), perm);
          PagesExact(a);
          PagesExact(v);
          var back := Uvmdealloc(r, a * PGSIZE, PagesOf(oldsz) * PGSIZE);
          FilledUndone(m, m1, m2, State(), r, v, a, Data(zero), perm);
          FilledBack(m, m1, m2, State(), r, oldsz, newsz, v, a, Data(zero), perm);
          return 0;
        }
        FilledMore(m, m1, State(), r, v, a, Data(zero), perm);
        a := a + 1;
      }
      sz := newsz;
      Rounding(newsz, a);
      FilledBytes(m, State(), r, oldsz, newsz, Data(zero), perm);
      FilledFits(m, State(), r, oldsz, newsz);
      NothingFilled(m, State(), r, v, Data(zero), perm);
      NothingTaken(m, State(), r, oldsz, newsz);
    }

    /** uvmcopy of the first sz bytes' pages: the child gets the same pages with the same
        flags and contents in fresh frames, or (-1, out of memory) nothing at all. */
    method Uvmcopy(o: nat, n: nat, sz: nat) returns (ret: int)
      requires Inv(State()) && InTree(State(), Root(o)) && InTree(State(), Root(n)) && o != n
               && sz <= TRAPFRAME
      requires forall w: nat :: 4096 * w < sz ==> Leaf(State(), n, w) == 0
      modifies this`pages, this`freelist, this`owner
      ensures Inv(State()) && (ret == 0 || ret == -1)
      ensures ret == 0 <==> Needed(old(State()), n, MappedPages(old(State()), o, 0, PagesOf(sz))) <= |old(freelist)|
      ensures ret == 0 ==> Copied(old(State()), State(), o, n, PagesOf(sz))
      ensures ret == 0 ==> forall w: nat :: 4096 * w < sz ==> CopiedPage(old(State()), State(), o, n, w)
      ensures ret == 0 ==> forall w: nat :: w < PAGES && sz <= 4096 * w ==>
                Leaf(State(), n, w) == Leaf(old(State()), n, w)
      ensures ret == -1 ==> Restored(old(State()), State())
      ensures ret == -1 ==>
                var m := old(State()); TookWithin(m, State(), Missing(m, n, MappedPages(m, o, 0, PagesOf(sz))), 0)
    {
      hide Inv, Copied, Restored, Leaf, LowAt, AddedPage, Grew, Shrunk, Px, Paid, Took, WayMissing, Missing;
      hide TablesMissing, MappedPages, Needed, TookWithin, CopiedPage;
      ghost var m := State();
      Unfilled(m, n, 0, sz);
      CopiedNone(m, o, n);
      NoneCopied(m, o, n);
      var i := 0;
      while i * PGSIZE < sz
        invariant 0 <= i <= PagesOf(sz) && Inv(State()) && Copied(m, State(), o, n, i)
        invariant Paid(m, State(), n, MappedPages(m, o, 0, i))
      {
        ghost var m1 := State();
        Rounding(sz, i);
        CopiedNext(m, m1, o, n, i);
        PxPlaces(i);
        var t := Walk(o, i, false);
        LeafIs(m1, o, i, t);
        if t != 0 && V(pages[t].ptes[Px(0, i)]) {
          var pte := pages[t].ptes[Px(0, i)];
          FrameThere(m1, o, i);
          var ok := MapFresh(n, i, pages[Ppn(pte)], Flags(pte));
          CopiedPays(m, m1, State(), o, n, i, PagesOf(sz), ok);
          if !ok {
            ghost var m2 := State();
            CopiedRoot(m, m1, m2, o, n, i);
            Uvmunmap(n, 0, i, true);
            CopiedUndone(m, m1, m2, State(), o, n, i);
            CopiedBack(m, m1, m2, State(), o, n, i, PagesOf(sz));
            return -1;
          }
          CopiedMore(m, m1, State(), o, n, i, m1.pages[Ppn(pte)], Flags(pte));
        } else {
          CopiedSkip(m, m1, o, n, i);
          MappedNext(m, o, 0, i);
        }
        i := i + 1;
      }
      Rounding(sz, i);
      CopiedBytes(m, State(), o, n, sz);
      PaidFits(m, State(), n, MappedPages(m, o, 0, PagesOf(sz)));
      ret := 0;
    }

    /** uvmcreate: an empty address space, or 0 without memory. */
    method Uvmcreate() returns (r: nat)
      requires Inv(State())
      modifies this`pages, this`freelist, this`owner
      ensures Inv(State()) && (r == 0 <==> old(freelist) == []) && (r == 0 ==> State() == old(State()))
      ensures r != 0 ==>
                InTree(State(), Root(r)) && (forall w: nat :: Leaf(State(), r, w) == 0)
                && SameMaps(old(State()), State())
      ensures r != 0 ==> forall q: nat :: InTree(State(), Root(q)) <==> q == r || InTree(old(State()), Root(q))
      ensures r != 0 ==> Took(old(State()), State(), {}, 1)
    {
      hide Inv, Leaf, SamePlaces, At, Took;
      ghost var m := State();
      r := Kalloc();
      if r == 0 {
        return;
      }
      ghost var m1 := State();
      Store(r, Table(ZERO_TABLE));
      ghost var m2 := State();
      RootsSame(m, m1, m2);
      NewRootKeeps(m2, r);
      owner := owner[r := Root(r)];
      RootTook(m, m1, m2, State());
    }

    /** freewalk of the table of place x, under which nothing is mapped: every table below
        is freed and its entry cleared, then the table itself is freed, so that only the
        caller's entry for it remains. `before` is the memory just before that last kfree;
        false stands for panic("freewalk: leaf"). */
    method Freewalk(t: nat, ghost x: Place) returns (ok: bool, ghost before: Mem<T>)
      requires Inv(State()) && InTree(State(), x) && !x.Frame? && t != 0 && At(State(), x) == t && IsTable(State(), t)
               && NoLeaves(State(), x)
      modifies this`pages, this`freelist, this`owner
      ensures ok && Inv(before) && Pruned(old(State()), before, x, ENTRIES) && t < |before.pages|
              && State() == Freed(before, t, junk)
      decreases if x.Root? then 3 else if x.Mid? then 2 else 1
    {
      hide Inv, Pruned, IsLeaf, NoLeaves, At;
      ghost var m := State();
      PrunedNone(m, x);
      var i := 0;
      while i < ENTRIES
        invariant 0 <= i <= ENTRIES && Inv(State()) && Pruned(m, State(), x, i)
      {
        ghost var m1 := State();
        PruneEntry(m, m1, x, t, i);
        var pte := pages[t].ptes[i];
        if V(pte) && !IsLeaf(pte) {
          ghost var b;
          ok, b := Freewalk(Ppn(pte), Below1(x, i));
          if !ok {
            return;
          }
          PruneMore(m, m1, b, x, t, i, Ppn(pte), junk);
          pages := pages[t := Table(pages[t].ptes[i := 0])];
        } else if V(pte) {
          return false, m1;
        } else {
          PruneSkip(m, m1, x, t, i);
        }
        i := i + 1;
      }
      before := State();
      PrunedTable(m, before, x, t);
      ok := Kfree(t);
    }

    /** uvmfree: every page of the address space, frame or table, is free again; all others
        stay as they are. The two pages above USER_PAGES must have been unmapped. */
    method Uvmfree(r: nat, sz: nat) returns (ok: bool)
      requires Inv(State()) && InTree(State(), Root(r)) && sz <= TRAPFRAME
      requires forall w: nat :: w < PAGES && sz <= 4096 * w ==> Leaf(State(), r, w) == 0
      modifies this`pages, this`freelist, this`owner
      ensures ok && Inv(State()) && SpaceFreed(old(State()), State(), r)
    {
      hide Inv, Pruned, Leaf, NoLeaves, Shrunk, SpaceFreed;
      ghost var m := State();
      ShrunkNone(m, r, 0);
      PagesGrow(0, sz);
      NoneAbove(m, r, sz);
      if sz > 0 {
        Uvmunmap(r, 0, PagesOf(sz), true);
      }
      ghost var m1 := State();
      EmptySpace(m, m1, r, PagesOf(sz));
      ghost var b;
      ok, b := Freewalk(r, Root(r));
      FreedSpace(m, m1, b, r, PagesOf(sz), junk);
    }
  }

  /** A new root takes its page, and no table has changed. */
  lemma RootTook<T>(m: Mem<T>, m1: Mem<T>, m2: Mem<T>, t: Mem<T>)
    requires SamePlaces(m, m1) && SameRoots(m, m1) && SamePlaces(m1, m2) && t.pages == m2.pages
             && |m.free| == |t.free| + 1
    ensures Took(m, t, {}, 1)
  {
    hide At, InTree;
    forall pl: Place | InTree(m, pl)
      ensures At(t, pl) == At(m, pl)
    {
      SamePages(m2, t, pl);
    }
  }

  lemma RootsSame<T>(m: Mem<T>, m1: Mem<T>, m2: Mem<T>)
    requires SameMaps(m, m1) && SameRoots(m, m1) && SameMaps(m1, m2) && SameRoots(m1, m2)
    ensures SameMaps(m, m2) && SameRoots(m, m2)
  {
    hide Leaf;
  }

  /** The child n has what the parent o has, below page i. */
  ghost predicate Copied<T>(m: Mem<T>, t: Mem<T>, o: nat, n: nat, i: nat) {
    Outside(m, t, n, 0, i) && forall w: nat :: w < i ==> CopiedPage(m, t, o, n, w)
  }

  ghost predicate CopiedPage<T>(m: Mem<T>, t: Mem<T>, o: nat, n: nat, w: nat) {
    if Leaf(m, o, w) == 0 then Leaf(t, n, w) == 0
    else
      && Ppn(Leaf(m, o, w)) < |m.pages| && V(Flags(Leaf(m, o, w)))
      && FreshFrame(m, t, n, w, m.pages[Ppn(Leaf(m, o, w))], Flags(Leaf(m, o, w)))
  }

  lemma CopiedNone<T>(m: Mem<T>, o: nat, n: nat)
    ensures Copied(m, m, o, n, 0)
  {
  }

  /** The parent and the child at page i, before it is copied. */
  lemma CopiedNext<T>(m: Mem<T>, t: Mem<T>, o: nat, n: nat, i: nat)
    requires Copied(m, t, o, n, i) && InTree(m, Root(o)) && InTree(m, Root(n)) && o != n && i < PAGES
    ensures InTree(t, Root(o)) && InTree(t, Root(n)) && Leaf(t, o, i) == Leaf(m, o, i) && Leaf(t, n, i) == Leaf(m, n, i)
  {
  }

  /** The pages v .. a-1 that are mapped. */
  ghost function MappedPages<T>(m: Mem<T>, r: nat, v: nat, a: nat): set<nat> {
    set w: nat | v <= w < a && Leaf(m, r, w) != 0
  }

  lemma MappedNext<T>(m: Mem<T>, r: nat, v: nat, a: nat)
    requires v <= a
    ensures MappedPages(m, r, v, a + 1)
         == if Leaf(m, r, a) != 0 then MappedPages(m, r, v, a) + {a} else MappedPages(m, r, v, a)
    ensures a !in MappedPages(m, r, v, a) && forall w :: w in MappedPages(m, r, v, a) ==> w < a
  {
    hide Leaf;
  }

  lemma MappedGrows<T>(m: Mem<T>, r: nat, v: nat, a: nat, b: nat)
    requires a <= b
    ensures MappedPages(m, r, v, a) <= MappedPages(m, r, v, b)
  {
    hide Leaf;
  }

  lemma NoneCopied<T>(m: Mem<T>, o: nat, n: nat)
    ensures Paid(m, m, n, MappedPages(m, o, 0, 0))
  {
    hide Paid, Leaf;
    assert MappedPages(m, o, 0, 0) == {};
    PaidNone(m, n);
  }

  /** One turn of uvmcopy's loop: the child's page is paid for, or all were too many. */
  lemma CopiedPays<T>(m: Mem<T>, m1: Mem<T>, t: Mem<T>, o: nat, n: nat, i: nat, all: nat, ok: bool)
    requires Copied(m, m1, o, n, i) && Paid(m, m1, n, MappedPages(m, o, 0, i)) && InTree(m, Root(n))
    requires i < all <= PAGES && Leaf(m, o, i) != 0
    requires ok <==> TablesMissing(m1, n, i) < |m1.free|
    requires ok ==> Took(m1, t, WayMissing(m1, n, i), 1)
    ensures if ok then Paid(m, t, n, MappedPages(m, o, 0, i + 1))
            else Needed(m, n, MappedPages(m, o, 0, all)) > |m.free|
  {
    hide Leaf, CopiedPage, Paid, Took, WayMissing, Missing, TablesMissing, MappedPages, Needed;
    var some := MappedPages(m, o, 0, i);
    MappedNext(m, o, 0, i);
    if ok {
      PaidMore(m, m1, t, n, some, i);
    } else {
      PaysForNext(m, m1, n, some, i);
      MappedGrows(m, o, 0, i + 1, all);
      NeededGrows(m, n, some + {i}, MappedPages(m, o, 0, all));
    }
  }

  /** A uvmcopy that gives up has taken nothing but tables. */
  lemma CopiedBack<T>(m: Mem<T>, m1: Mem<T>, m2: Mem<T>, t: Mem<T>, o: nat, n: nat, i: nat, all: nat)
    requires Copied(m, m1, o, n, i) && Paid(m, m1, n, MappedPages(m, o, 0, i)) && Grew(m1, m2) && InTree(m, Root(n))
    requires i < all <= PAGES && Leaf(m, o, i) != 0
    requires TookWithin(m1, m2, WayMissing(m1, n, i), 0) && Took(m2, t, {}, -|MappedPages(m2, n, 0, i)|)
    ensures TookWithin(m, t, Missing(m, n, MappedPages(m, o, 0, all)), 0)
  {
    hide Leaf, Took, Missing, WayMissing, TookWithin, CopiedPage, MappedPages;
    var some, k := MappedPages(m, o, 0, i), |MappedPages(m, o, 0, i)|;
    MappedInCopy(m, m1, m2, o, n, i);
    MappedNext(m, o, 0, i);
    MappedGrows(m, o, 0, i + 1, all);
    WithinMore(m, m1, m2, n, some, k, i, 0);
    WithinAll(m, m2, n, some + {i}, MappedPages(m, o, 0, all), k);
    WithinSame(m, m2, t, Missing(m, n, MappedPages(m, o, 0, all)), k, -k);
  }

  lemma MappedInCopy<T>(m: Mem<T>, m1: Mem<T>, m2: Mem<T>, o: nat, n: nat, i: nat)
    requires Copied(m, m1, o, n, i) && Grew(m1, m2) && InTree(m, Root(n)) && i <= PAGES
    ensures MappedPages(m2, n, 0, i) == MappedPages(m, o, 0, i)
  {
    hide Leaf;
    forall w: nat | w < i
      ensures Leaf(m2, n, w) != 0 <==> Leaf(m, o, w) != 0
    {
      assert CopiedPage(m, m1, o, n, w);
    }
  }

  lemma FrameThere<T>(m: Mem<T>, o: nat, i: nat)
    requires Inv(m) && InTree(m, Root(o)) && i < USER_PAGES && Leaf(m, o, i) != 0
    ensures Ppn(Leaf(m, o, i)) < |m.pages| && Flags(Leaf(m, o, i)) < 0x400 && IsLeaf(Flags(Leaf(m, o, i)))
    ensures V(Leaf(m, o, i)) && V(Flags(Leaf(m, o, i)))
    ensures Ppn(Leaf(m, o, i)) in m.owner && m.owner[Ppn(Leaf(m, o, i))] == Frame(o, i)
  {
    FrameOwned(m, o, i);
    var e := Leaf(m, o, i);
    PteParts(Ppn(e), Flags(e));
    assert e == MakePte(Ppn(e), Flags(e)) && LeafOk(e);
  }

  lemma CopiedSkip<T>(m: Mem<T>, t: Mem<T>, o: nat, n: nat, i: nat)
    requires Copied(m, t, o, n, i) && InTree(m, Root(o)) && InTree(m, Root(n)) && o != n && i < PAGES
    requires Leaf(t, o, i) == 0 && Leaf(m, n, i) == 0
    ensures Copied(m, t, o, n, i + 1)
  {
    hide Leaf, FreshFrame;
  }

  lemma CopiedMore<T>(m: Mem<T>, m1: Mem<T>, t: Mem<T>, o: nat, n: nat, i: nat, page: Page<T>, perm: nat)
    requires Copied(m, m1, o, n, i) && AddedPage(m1, t, n, i, page, perm) && InTree(m, Root(o)) && InTree(m, Root(n))
             && o != n && i < USER_PAGES
    requires Inv(m) && Leaf(m, o, i) != 0 && perm == Flags(Leaf(m, o, i)) && Ppn(Leaf(m, o, i)) < |m1.pages|
             && page == m1.pages[Ppn(Leaf(m, o, i))]
    ensures Copied(m, t, o, n, i + 1)
  {
    hide Leaf, Ppn, Flags, V, WithV, Inv;
    OutsideMore(m, m1, t, n, 0, i, page, perm);
    FrameThere(m, o, i);
    forall w: nat | w < i + 1
      ensures CopiedPage(m, t, o, n, w)
    {
      if w < i {
        CopiedKept(m, m1, t, o, n, i, page, perm, w);
      } else {
        assert FreshFrame(m1, t, n, i, page, perm);
        assert Stays(m, m1, Ppn(Leaf(m, o, i)));
        assert forall x :: x in m.owner ==> Stays(m, m1, x);
      }
    }
  }

  lemma CopiedKept<T>(m: Mem<T>, m1: Mem<T>, t: Mem<T>, o: nat, n: nat, i: nat, page: Page<T>, perm: nat, w: nat)
    requires CopiedPage(m, m1, o, n, w) && AddedPage(m1, t, n, i, page, perm) && w < i < PAGES && InTree(m1, Root(n))
    ensures CopiedPage(m, t, o, n, w)
  {
    hide Leaf, Ppn, Flags, V, WithV;
    if Leaf(m, o, w) != 0 {
      assert Stays(m1, t, Ppn(Leaf(m1, n, w)));
    }
  }

  lemma CopiedRoot<T>(m: Mem<T>, m1: Mem<T>, m2: Mem<T>, o: nat, n: nat, i: nat)
    requires Copied(m, m1, o, n, i) && Grew(m1, m2) && InTree(m, Root(n))
    ensures InTree(m2, Root(n))
  {
  }

  lemma CopiedUndone<T>(m: Mem<T>, m1: Mem<T>, m2: Mem<T>, t: Mem<T>, o: nat, n: nat, i: nat)
    requires Inv(m) && Copied(m, m1, o, n, i) && Grew(m1, m2) && InTree(m, Root(n)) && i <= USER_PAGES
             && Shrunk(m2, t, n, 0, i)
    requires forall w: nat :: w < i ==> Leaf(m, n, w) == 0
    ensures Restored(m, t)
  {
    hide Inv, Leaf;
    if i > 0 {
      Undone(m, m1, m2, t, n, 0, i);
    } else {
      UndoneNone(m, m1, m2, t, n);
    }
  }

  lemma UndoneNone<T>(m: Mem<T>, m1: Mem<T>, m2: Mem<T>, t: Mem<T>, n: nat)
    requires Outside(m, m1, n, 0, 0) && Grew(m1, m2) && Shrunk(m2, t, n, 0, 0)
    ensures Restored(m, t)
  {
    hide Leaf;
    forall x | x in m.owner
      ensures Stays(m, t, x)
    {
      assert Stays(m, m1, x) && KeptUnless(m2, t, x, n, 0, 0);
    }
  }

  /** PGROUNDUP(sz) / PGSIZE */
  function PagesOf(sz: nat): nat {
    (sz + PGSIZE - 1) / PGSIZE
  }

  lemma PagesGrow(a: nat, b: nat)
    ensures a <= b ==> PagesOf(a) <= PagesOf(b)
  {
  }

  lemma PagesExact(n: nat)
    ensures PagesOf(n * PGSIZE) == n
  {
  }

  /** A page counts if and only if its first byte lies below the size. */
  lemma Rounding(sz: nat, v: nat)
    ensures v < PagesOf(sz) <==> 4096 * v < sz
    ensures PagesOf(sz) <= v <==> sz <= 4096 * v
  {
  }

  lemma RoundedUp(sz: nat)
    ensures sz <= PagesOf(sz) * PGSIZE < sz + PGSIZE
  {
  }

  /** In pages: what uvmalloc asks for in bytes. */
  lemma Unfilled<T>(m: Mem<T>, r: nat, oldsz: nat, newsz: nat)
    requires newsz <= TRAPFRAME
    requires forall w: nat :: oldsz <= 4096 * w < newsz ==> Leaf(m, r, w) == 0
    ensures PagesOf(newsz) <= USER_PAGES
    ensures forall w: nat :: PagesOf(oldsz) <= w < PagesOf(newsz) ==> Leaf(m, r, w) == 0
  {
    hide Leaf;
    Rounding(newsz, USER_PAGES);
    forall w: nat | PagesOf(oldsz) <= w < PagesOf(newsz)
      ensures Leaf(m, r, w) == 0
    {
      Rounding(oldsz, w);
      Rounding(newsz, w);
    }
  }

  lemma NoneAbove<T>(m: Mem<T>, r: nat, sz: nat)
    requires sz <= TRAPFRAME && forall w: nat :: w < PAGES && sz <= 4096 * w ==> Leaf(m, r, w) == 0
    ensures PagesOf(sz) <= USER_PAGES
    ensures forall w: nat :: PagesOf(sz) <= w < PAGES ==> Leaf(m, r, w) == 0
  {
    hide Leaf;
    Rounding(sz, USER_PAGES);
    forall w: nat | PagesOf(sz) <= w < PAGES
      ensures Leaf(m, r, w) == 0
    {
      Rounding(sz, w);
    }
  }

  lemma CutBytes<T>(m: Mem<T>, t: Mem<T>, r: nat, newsz: nat, oldsz: nat)
    requires Shrunk(m, t, r, PagesOf(newsz), PagesOf(oldsz)) && InTree(m, Root(r))
    ensures forall w: nat :: w < PAGES ==> Leaf(t, r, w) == if newsz <= 4096 * w < oldsz then 0 else Leaf(m, r, w)
  {
    hide Leaf;
    forall w: nat | w < PAGES
      ensures Leaf(t, r, w) == if newsz <= 4096 * w < oldsz then 0 else Leaf(m, r, w)
    {
      Rounding(newsz, w);
      Rounding(oldsz, w);
    }
  }

  lemma FilledBytes<T>(m: Mem<T>, t: Mem<T>, r: nat, oldsz: nat, newsz: nat, d: Page<T>, perm: nat)
    requires Filled(m, t, r, PagesOf(oldsz), PagesOf(newsz), d, perm) && InTree(m, Root(r))
    ensures forall w: nat :: oldsz <= 4096 * w < newsz ==> FreshFrame(m, t, r, w, d, perm)
    ensures forall w: nat :: w < PAGES && !(oldsz <= 4096 * w < newsz) ==> Leaf(t, r, w) == Leaf(m, r, w)
  {
    hide Leaf, FreshFrame;
    forall w: nat
      ensures oldsz <= 4096 * w < newsz ==> FreshFrame(m, t, r, w, d, perm)
      ensures w < PAGES && !(oldsz <= 4096 * w < newsz) ==> Leaf(t, r, w) == Leaf(m, r, w)
    {
      Rounding(oldsz, w);
      Rounding(newsz, w);
    }
  }

  lemma CopiedBytes<T>(m: Mem<T>, t: Mem<T>, o: nat, n: nat, sz: nat)
    requires Copied(m, t, o, n, PagesOf(sz)) && InTree(m, Root(n))
    ensures forall w: nat :: 4096 * w < sz ==> CopiedPage(m, t, o, n, w)
    ensures forall w: nat :: w < PAGES && sz <= 4096 * w ==> Leaf(t, n, w) == Leaf(m, n, w)
  {
    hide Leaf, CopiedPage;
    forall w: nat
      ensures 4096 * w < sz ==> CopiedPage(m, t, o, n, w)
      ensures w < PAGES && sz <= 4096 * w ==> Leaf(t, n, w) == Leaf(m, n, w)
    {
      Rounding(sz, w);
    }
  }

  /** After growth every address between the sizes is on a mapped page, if the page that the
      old end is in was mapped. */
  lemma GrownAddresses<T>(m: Mem<T>, t: Mem<T>, r: nat, oldsz: nat, newsz: nat, d: Page<T>, perm: nat, va: nat)
    requires newsz <= TRAPFRAME && (oldsz % 4096 == 0 || Leaf(m, r, oldsz / 4096) != 0)
    requires forall w: nat :: oldsz <= 4096 * w < newsz ==> FreshFrame(m, t, r, w, d, perm)
    requires forall w: nat :: w < PAGES && !(oldsz <= 4096 * w < newsz) ==> Leaf(t, r, w) == Leaf(m, r, w)
    requires oldsz <= va < newsz
    ensures Leaf(t, r, va / 4096) != 0
  {
    hide Leaf;
    if oldsz <= va / 4096 * 4096 {
      assert FreshFrame(m, t, r, va / 4096, d, perm);
    } else {
      assert va / 4096 == oldsz / 4096;
    }
  }

  /** Nothing but the mappings of pages v .. a-1 of r changed, as far as maps, owners and
      contents go. */
  ghost predicate Outside<T>(m: Mem<T>, t: Mem<T>, r: nat, v: nat, a: nat) {
    && (forall q: nat, w: nat :: InTree(m, Root(q)) && w < PAGES && !(q == r && v <= w < a) ==>
          Leaf(t, q, w) == Leaf(m, q, w))
    && (forall q: nat :: InTree(t, Root(q)) <==> InTree(m, Root(q))) && |t.pages| == |m.pages| && t.lo == m.lo
    && (forall x :: x in m.owner ==> Stays(m, t, x))
  }

  /** Every mapping of every address space, every owner, and what is in every page that is
      no table is as it was. */
  ghost predicate Restored<T>(m: Mem<T>, t: Mem<T>) {
    Outside(m, t, 0, 0, 0)
  }

  ghost predicate Filled<T>(m: Mem<T>, t: Mem<T>, r: nat, v: nat, a: nat, d: Page<T>, perm: nat) {
    Outside(m, t, r, v, a) && forall w: nat :: v <= w < a ==> FreshFrame(m, t, r, w, d, perm)
  }

  /** The list has a frame for every page between the two sizes, and the tables missing. */
  ghost predicate NewPagesFit<T>(m: Mem<T>, r: nat, oldsz: nat, newsz: nat)
    requires PagesOf(oldsz) <= PagesOf(newsz)
  {
    Needed(m, r, PageRange(PagesOf(oldsz), PagesOf(newsz))) <= |m.free|
  }

  /** The tables that the pages between two sizes lack. */
  ghost function NewTables<T>(m: Mem<T>, r: nat, oldsz: nat, newsz: nat): set<Place>
    requires PagesOf(oldsz) <= PagesOf(newsz)
  {
    Missing(m, r, PageRange(PagesOf(oldsz), PagesOf(newsz)))
  }

  lemma NothingTaken<T>(m: Mem<T>, t: Mem<T>, r: nat, oldsz: nat, newsz: nat)
    requires PagesOf(oldsz) <= PagesOf(newsz) && Paid(m, t, r, PageRange(PagesOf(oldsz), PagesOf(newsz)))
    ensures newsz == 0 ==> TookWithin(m, t, NewTables(m, r, oldsz, newsz), 0)
  {
    hide Took, Missing;
  }

  /** A uvmalloc that gives up has taken nothing but tables. */
  lemma FilledBack<T>(m: Mem<T>, m1: Mem<T>, m2: Mem<T>, t: Mem<T>, r: nat, oldsz: nat, newsz: nat, v: nat, a: nat,
                      d: Page<T>, perm: nat)
    requires v == PagesOf(oldsz) <= a < PagesOf(newsz) <= PAGES && InTree(m, Root(r))
    requires Filled(m, m1, r, v, a, d, perm) && Paid(m, m1, r, PageRange(v, a)) && Grew(m1, m2)
    requires TookWithin(m1, m2, WayMissing(m1, r, a), 0)
    requires if v < a then Took(m2, t, {}, -|MappedPages(m2, r, v, a)|) else t == m2
    ensures TookWithin(m, t, NewTables(m, r, oldsz, newsz), 0)
  {
    hide Leaf, Took, Missing, WayMissing, PageRange, TookWithin, FreshFrame, MappedPages;
    var some, all := PageRange(v, a), PageRange(v, PagesOf(newsz));
    AllMapped(m, m1, m2, r, v, a, d, perm);
    RangeMore(v, a);
    RangeGrows(v, a + 1, PagesOf(newsz));
    WithinMore(m, m1, m2, r, some, a - v, a, 0);
    WithinAll(m, m2, r, some + {a}, all, a - v);
    if v < a {
      WithinSame(m, m2, t, Missing(m, r, all), a - v, v - a);
    }
  }

  lemma AllMapped<T>(m: Mem<T>, m1: Mem<T>, m2: Mem<T>, r: nat, v: nat, a: nat, d: Page<T>, perm: nat)
    requires Filled(m, m1, r, v, a, d, perm) && Grew(m1, m2) && InTree(m, Root(r)) && v <= a <= PAGES
    ensures MappedPages(m2, r, v, a) == PageRange(v, a)
  {
    hide Leaf, PageRange;
    forall w: nat | v <= w < a
      ensures Leaf(m2, r, w) != 0
    {
      assert FreshFrame(m, m1, r, w, d, perm);
    }
  }

  lemma NoneFilled<T>(m: Mem<T>, r: nat, v: nat)
    ensures Paid(m, m, r, PageRange(v, v))
  {
    hide Paid;
    RangeMore(v, v);
    PaidNone(m, r);
  }

  /** One turn of uvmalloc's loop: the page is paid for, or all of them were too many. */
  lemma FilledPays<T>(m: Mem<T>, m1: Mem<T>, t: Mem<T>, r: nat, oldsz: nat, newsz: nat, v: nat, a: nat, d: Page<T>,
                      perm: nat, ok: bool)
    requires v == PagesOf(oldsz) <= a < PagesOf(newsz) <= PAGES
    requires Filled(m, m1, r, v, a, d, perm) && Paid(m, m1, r, PageRange(v, a)) && InTree(m, Root(r))
    requires ok <==> TablesMissing(m1, r, a) < |m1.free|
    requires ok ==> Took(m1, t, WayMissing(m1, r, a), 1)
    ensures if ok then Paid(m, t, r, PageRange(v, a + 1)) else !NewPagesFit(m, r, oldsz, newsz)
  {
    hide Leaf, FreshFrame, Paid, Took, WayMissing, Missing, TablesMissing, PageRange, Needed;
    var some, all := PageRange(v, a), PageRange(v, PagesOf(newsz));
    RangeMore(v, a);
    if ok {
      PaidMore(m, m1, t, r, some, a);
    } else {
      PaysForNext(m, m1, r, some, a);
      RangeGrows(v, a + 1, PagesOf(newsz));
      NeededGrows(m, r, some + {a}, all);
    }
  }

  lemma FilledFits<T>(m: Mem<T>, t: Mem<T>, r: nat, oldsz: nat, newsz: nat)
    requires PagesOf(oldsz) <= PagesOf(newsz) && Paid(m, t, r, PageRange(PagesOf(oldsz), PagesOf(newsz)))
    ensures NewPagesFit(m, r, oldsz, newsz)
  {
    hide Paid, PageRange, Needed;
    PaidFits(m, t, r, PageRange(PagesOf(oldsz), PagesOf(newsz)));
  }

  lemma NothingFilled<T>(m: Mem<T>, t: Mem<T>, r: nat, v: nat, d: Page<T>, perm: nat)
    ensures Filled(m, t, r, v, 0, d, perm) ==> Restored(m, t)
  {
    hide Leaf;
  }

  lemma FilledNone<T>(m: Mem<T>, r: nat, v: nat, d: Page<T>, perm: nat)
    ensures Filled(m, m, r, v, v, d, perm)
  {
  }

  lemma FilledNext<T>(m: Mem<T>, t: Mem<T>, r: nat, v: nat, a: nat, d: Page<T>, perm: nat)
    requires Filled(m, t, r, v, a, d, perm) && InTree(m, Root(r)) && a < PAGES
    ensures InTree(t, Root(r)) && Leaf(t, r, a) == Leaf(m, r, a)
  {
  }

  lemma FilledMore<T>(m: Mem<T>, m1: Mem<T>, t: Mem<T>, r: nat, v: nat, a: nat, d: Page<T>, perm: nat)
    requires Filled(m, m1, r, v, a, d, perm) && AddedPage(m1, t, r, a, d, perm) && InTree(m, Root(r)) && v <= a < PAGES
    ensures Filled(m, t, r, v, a + 1, d, perm)
  {
    hide Leaf, Ppn, Flags, WithV;
    OutsideMore(m, m1, t, r, v, a, d, perm);
    forall w: nat | v <= w < a + 1
      ensures FreshFrame(m, t, r, w, d, perm)
    {
      if w < a {
        assert FreshFrame(m, m1, r, w, d, perm);
        assert Stays(m1, t, Ppn(Leaf(m1, r, w)));
      } else {
        assert FreshFrame(m1, t, r, a, d, perm);
        assert forall x :: x in m.owner ==> x in m1.owner by {
          assert forall x :: x in m.owner ==> Stays(m, m1, x);
        }
      }
    }
  }

  lemma OutsideMore<T>(m: Mem<T>, m1: Mem<T>, t: Mem<T>, r: nat, v: nat, a: nat, d: Page<T>, perm: nat)
    requires Outside(m, m1, r, v, a) && AddedPage(m1, t, r, a, d, perm) && v <= a
    ensures Outside(m, t, r, v, a + 1)
  {
    hide Leaf, FreshFrame;
    forall x | x in m.owner
      ensures Stays(m, t, x)
    {
      assert Stays(m, m1, x) && Stays(m1, t, x);
    }
  }

  lemma FilledRoot<T>(m: Mem<T>, m1: Mem<T>, m2: Mem<T>, r: nat, v: nat, a: nat, d: Page<T>, perm: nat)
    requires Filled(m, m1, r, v, a, d, perm) && Grew(m1, m2) && InTree(m, Root(r))
    ensures InTree(m2, Root(r))
  {
  }

  /** Giving back what was added so far restores everything. */
  lemma FilledUndone<T>(m: Mem<T>, m1: Mem<T>, m2: Mem<T>, t: Mem<T>, r: nat, v: nat, a: nat, d: Page<T>, perm: nat)
    requires Inv(m) && Filled(m, m1, r, v, a, d, perm) && Grew(m1, m2) && InTree(m, Root(r)) && a <= USER_PAGES
    requires if v < a then Shrunk(m2, t, r, v, a) else t == m2
    requires forall w: nat :: v <= w < a ==> Leaf(m, r, w) == 0
    ensures Restored(m, t)
  {
    hide FreshFrame;
    Undone(m, m1, m2, t, r, v, a);
  }

  lemma Undone<T>(m: Mem<T>, m1: Mem<T>, m2: Mem<T>, t: Mem<T>, r: nat, v: nat, a: nat)
    requires Inv(m) && Outside(m, m1, r, v, a) && Grew(m1, m2) && InTree(m, Root(r)) && a <= USER_PAGES
    requires if v < a then Shrunk(m2, t, r, v, a) else t == m2
    requires forall w: nat :: v <= w < a ==> Leaf(m, r, w) == 0
    ensures Restored(m, t)
  {
    hide Leaf, LeafOk;
    forall x | x in m.owner
      ensures Stays(m, t, x)
    {
      assert Stays(m, m1, x);
      OwnedFrames(m, x);
      assert v < a ==> KeptUnless(m2, t, x, r, v, a);
    }
  }

  lemma OwnedFrames<T>(m: Mem<T>, x: nat)
    requires Inv(m) && x in m.owner
    ensures m.owner[x].Frame? ==> Leaf(m, m.owner[x].r, m.owner[x].v) != 0
  {
    assert !m.owner[x].Pending? ==> Owns(m, m.owner[x], x);
  }

  /** Pages v .. a-1 of r are unmapped and their frames free; all else is as it was. */
  ghost predicate Shrunk<T>(m: Mem<T>, t: Mem<T>, r: nat, v: nat, a: nat) {
    && (forall q: nat, w: nat :: InTree(m, Root(q)) && w < PAGES ==>
          Leaf(t, q, w) == if q == r && v <= w < a then 0 else Leaf(m, q, w))
    && (forall q: nat :: InTree(t, Root(q)) <==> InTree(m, Root(q)))
    && |t.pages| == |m.pages| && t.lo == m.lo
    && (forall x :: x in t.owner ==> x in m.owner && t.owner[x] == m.owner[x])
    && (forall x :: x in m.owner ==> KeptUnless(m, t, x, r, v, a))
  }

  ghost predicate KeptUnless<T>(m: Mem<T>, t: Mem<T>, x: nat, r: nat, v: nat, a: nat)
    requires x in m.owner
  {
    (m.owner[x].Frame? && m.owner[x].r == r && v <= m.owner[x].v < a)
    || (x in t.owner && (Loose(m, x) && x < |m.pages| && x < |t.pages| ==> t.pages[x] == m.pages[x]))
  }

  lemma ShrunkNone<T>(m: Mem<T>, r: nat, v: nat)
    ensures Shrunk(m, m, r, v, v)
  {
  }

  lemma ShrunkRoot<T>(m: Mem<T>, t: Mem<T>, r: nat, v: nat, a: nat)
    requires Shrunk(m, t, r, v, a) && InTree(m, Root(r))
    ensures InTree(t, Root(r))
  {
  }

  lemma ShrunkSkip<T>(m: Mem<T>, t: Mem<T>, r: nat, v: nat, a: nat)
    requires Shrunk(m, t, r, v, a) && InTree(m, Root(r)) && v <= a < PAGES && Leaf(t, r, a) == 0
    ensures Shrunk(m, t, r, v, a + 1)
  {
    hide Leaf;
    forall x | x in m.owner
      ensures KeptUnless(m, t, x, r, v, a + 1)
    {
      assert KeptUnless(m, t, x, r, v, a);
    }
  }

  /** The entry that walk finds is the one of the flat map. */
  lemma LeafIs<T>(m: Mem<T>, r: nat, v: nat, t: nat)
    requires t == LowAt(m, r, v / ENTRIES) && (t != 0 ==> IsTable(m, t))
    ensures Leaf(m, r, v) == if t != 0 && V(m.pages[t].ptes[v % ENTRIES]) then m.pages[t].ptes[v % ENTRIES] else 0
  {
  }

  lemma LowIsNoLoosePage<T>(m: Mem<T>, r: nat, b: nat)
    requires Inv(m) && InTree(m, Low(r, b)) && LowAt(m, r, b) != 0
    ensures LowAt(m, r, b) in m.owner && m.owner[LowAt(m, r, b)] == Low(r, b)
  {
    TableThere(m, Low(r, b));
  }

  lemma LeafHasLow<T>(m: Mem<T>, r: nat, v: nat)
    ensures Leaf(m, r, v) != 0 ==> LowAt(m, r, v / ENTRIES) != 0
  {
  }

  /** One turn of uvmunmap's loop that finds a mapping. */
  lemma UnmapStep<T>(m: Mem<T>, m1: Mem<T>, r: nat, v: nat, a: nat, junk: T)
    requires Shrunk(m, m1, r, v, a) && Inv(m1) && InTree(m, Root(r)) && v <= a < USER_PAGES && Leaf(m1, r, a) != 0
    ensures LowAt(m1, r, a / ENTRIES) != 0 && IsTable(m1, LowAt(m1, r, a / ENTRIES))
    ensures m1.lo <= Ppn(Leaf(m1, r, a)) < |m1.pages| && Ppn(Leaf(m1, r, a)) != LowAt(m1, r, a / ENTRIES)
    ensures var low, p := LowAt(m1, r, a / ENTRIES), Ppn(Leaf(m1, r, a));
            var t := Freed(m1, p, junk)
                     .(pages := m1.pages[p := Data(junk)][low := Table(m1.pages[low].ptes[a % ENTRIES := 0])]);
            Inv(t) && Shrunk(m, t, r, v, a + 1) && Took(m1, t, {}, -1)
  {
    hide LowAt, Leaf, Took, Trees;
    ShrunkRoot(m, m1, r, v, a);
    MidWays(m1, r, a);
    LeafHasLow(m1, r, a);
    UnmapKeeps(m1, r, a, junk);
    LeafTook(m1, Unmapped(m1, r, a, junk), Frame(r, a), 0, -1);
    LowIsNoLoosePage(m1, r, a / ENTRIES);
    ShrunkMore(m, m1, Unmapped(m1, r, a, junk), r, v, a, LowAt(m1, r, a / ENTRIES), Ppn(Leaf(m1, r, a)));
  }

  lemma ForgetStep<T>(m: Mem<T>, m1: Mem<T>, r: nat, v: nat, a: nat, junk: T)
    requires Shrunk(m, m1, r, v, a) && Inv(m1) && InTree(m, Root(r)) && v <= a && USER_PAGES <= a < PAGES
             && Leaf(m1, r, a) != 0
    ensures LowAt(m1, r, a / ENTRIES) != 0 && IsTable(m1, LowAt(m1, r, a / ENTRIES))
    ensures var low := LowAt(m1, r, a / ENTRIES);
            var t := m1.(pages := m1.pages[low := Table(m1.pages[low].ptes[a % ENTRIES := 0])]);
            Inv(t) && Shrunk(m, t, r, v, a + 1) && Took(m1, t, {}, 0)
  {
    hide LowAt, Leaf, Took, Trees;
    ShrunkRoot(m, m1, r, v, a);
    MidWays(m1, r, a);
    LeafHasLow(m1, r, a);
    ForgetKeeps(m1, r, a, junk);
    LeafTook(m1, EntrySet(m1, LowAt(m1, r, a / ENTRIES), a % ENTRIES, 0), Frame(r, a), 0, 0);
    LowIsNoLoosePage(m1, r, a / ENTRIES);
    ShrunkMore(m, m1, EntrySet(m1, LowAt(m1, r, a / ENTRIES), a % ENTRIES, 0), r, v, a, LowAt(m1, r, a / ENTRIES), 0);
  }

  /** How many pages fewer of the list are in use after uvmunmap got through pages v .. a-1. */
  ghost function Returned<T>(m: Mem<T>, r: nat, v: nat, a: nat, doFree: bool): int {
    if doFree then -|MappedPages(m, r, v, a)| else 0
  }

  lemma NoneReturned<T>(m: Mem<T>, r: nat, v: nat, doFree: bool)
    ensures Took(m, m, {}, Returned(m, r, v, v, doFree))
  {
    hide Leaf, At;
    TookNone(m);
    assert MappedPages(m, r, v, v) == {};
  }

  lemma ReturnedAll<T>(m: Mem<T>, r: nat, v: nat, a: nat, doFree: bool)
    ensures Returned(m, r, v, a, doFree) == if doFree then -|MappedPages(m, r, v, a)| else 0
  {
  }

  lemma ReturnedNext<T>(m: Mem<T>, m1: Mem<T>, t: Mem<T>, r: nat, v: nat, a: nat, doFree: bool)
    requires Shrunk(m, m1, r, v, a) && InTree(m, Root(r)) && v <= a < PAGES
             && Took(m, m1, {}, Returned(m, r, v, a, doFree))
    requires if Leaf(m1, r, a) != 0 then Took(m1, t, {}, if doFree then -1 else 0) else t == m1
    ensures Took(m, t, {}, Returned(m, r, v, a + 1, doFree))
  {
    hide Leaf, Took, MappedPages, KeptUnless;
    MappedNext(m, r, v, a);
    if Leaf(m1, r, a) != 0 {
      assert |MappedPages(m, r, v, a) + {a}| == |MappedPages(m, r, v, a)| + 1;
      TookSame(m, m1, t, {}, Returned(m, r, v, a, doFree), if doFree then -1 else 0);
    }
  }

  lemma ShrunkMore<T>(m: Mem<T>, m1: Mem<T>, t: Mem<T>, r: nat, v: nat, a: nat, low: nat, p: nat)
    requires Shrunk(m, m1, r, v, a) && InTree(m, Root(r)) && v <= a < PAGES && Maps(m1, t, r, a, 0) && SameRoots(m1, t)
    requires |t.pages| == |m1.pages| && t.lo == m1.lo && t.owner == m1.owner - {p}
    requires (p == 0 && p !in m1.owner) || (p in m1.owner && m1.owner[p] == Frame(r, a))
    requires low in m1.owner && !Loose(m1, low) && forall x :: 0 <= x < |m1.pages| && x != low && x != p ==>
               t.pages[x] == m1.pages[x]
    ensures Shrunk(m, t, r, v, a + 1)
  {
    hide Leaf;
    forall x | x in m.owner
      ensures KeptUnless(m, t, x, r, v, a + 1)
    {
      assert KeptUnless(m, m1, x, r, v, a);
    }
  }

  /** Page a of r is mapped, with the permissions, to a new frame that holds d; no other
      mapping, owner or page contents changed. */
  ghost predicate AddedPage<T>(m: Mem<T>, t: Mem<T>, r: nat, a: nat, d: Page<T>, perm: nat) {
    && (forall q: nat, w: nat :: InTree(m, Root(q)) && w < PAGES && (q != r || w != a) ==>
          Leaf(t, q, w) == Leaf(m, q, w))
    && FreshFrame(m, t, r, a, d, perm)
    && (forall q: nat :: InTree(t, Root(q)) <==> InTree(m, Root(q))) && |t.pages| == |m.pages| && t.lo == m.lo
    && (forall x :: x in m.owner ==> Stays(m, t, x))
  }

  ghost predicate FreshFrame<T>(m: Mem<T>, t: Mem<T>, r: nat, a: nat, d: Page<T>, perm: nat) {
    && Leaf(t, r, a) != 0 && Flags(Leaf(t, r, a)) == WithV(perm)
    && Ppn(Leaf(t, r, a)) !in m.owner && Ppn(Leaf(t, r, a)) in t.owner && t.owner[Ppn(Leaf(t, r, a))] == Frame(r, a)
    && Ppn(Leaf(t, r, a)) < |t.pages| && t.pages[Ppn(Leaf(t, r, a))] == d
  }

  ghost predicate Stays<T>(m: Mem<T>, t: Mem<T>, x: nat)
    requires x in m.owner
  {
    x in t.owner && t.owner[x] == m.owner[x]
    && (Loose(m, x) && x < |m.pages| && x < |t.pages| ==> t.pages[x] == m.pages[x])
  }

  lemma FreshPage<T>(m: Mem<T>, m1: Mem<T>, m2: Mem<T>, r: nat, a: nat, n: nat)
    requires Grew(m, m1) && n !in m.owner && n in m1.owner && m1.owner[n] == Pending && n < |m1.pages|
    requires m2 == m1.(pages := m2.pages) && |m2.pages| == |m1.pages| && SameMaps(m1, m2) && SameRoots(m1, m2)
    requires forall x :: 0 <= x < |m1.pages| && x != n ==> m2.pages[x] == m1.pages[x]
    requires InTree(m, Root(r)) && a < USER_PAGES && Leaf(m, r, a) == 0
    ensures Grew(m, m2) && InTree(m2, Root(r)) && Leaf(m2, r, a) == 0
  {
    hide Leaf;
  }

  /** Taking and filling the frame leaves the way to its page as it was. */
  lemma FreshWay<T>(m: Mem<T>, m1: Mem<T>, m2: Mem<T>, r: nat, a: nat)
    requires SamePlaces(m, m1) && SameRoots(m, m1) && SamePlaces(m1, m2) && SameRoots(m1, m2) && InTree(m, Root(r))
             && a < PAGES
    ensures WayMissing(m2, r, a) == WayMissing(m, r, a) == Missing(m2, r, PageRange(a, a + 1))
  {
    hide LowAt, MidAt, Missing, PageRange;
    MidWays(m, r, a);
    MissingOne(m2, r, a);
    var mid, low := Mid(r, a / ENTRIES / ENTRIES), Low(r, a / ENTRIES);
    assert At(m1, mid) == At(m, mid) && At(m1, low) == At(m, low);
    assert At(m2, mid) == At(m, mid) && At(m2, low) == At(m, low);
  }

  lemma FreshTook<T>(m: Mem<T>, m1: Mem<T>, m2: Mem<T>, m3: Mem<T>, r: nat, a: nat)
    requires SamePlaces(m, m1) && SameRoots(m, m1) && SamePlaces(m1, m2) && SameRoots(m1, m2) && InTree(m, Root(r))
             && a < PAGES
    requires |m.free| == |m2.free| + 1 && Took(m2, m3, WayMissing(m, r, a), 0)
    ensures Took(m, m3, WayMissing(m, r, a), 1)
  {
    WayInTree(m, r, a);
    hide WayMissing, At, InTree;
  }

  /** The same when mappages failed and the frame went back. */
  lemma FreshWithin<T>(m: Mem<T>, m1: Mem<T>, m2: Mem<T>, m3: Mem<T>, t: Mem<T>, r: nat, a: nat)
    requires SamePlaces(m, m1) && SameRoots(m, m1) && SamePlaces(m1, m2) && SameRoots(m1, m2) && SameSpaces(m2, m3)
    requires InTree(m, Root(r)) && a < PAGES && |m.free| == |m2.free| + 1 && |t.free| == |m3.free| + 1
    requires TookWithin(m2, m3, WayMissing(m, r, a), 0) && SamePlaces(m3, t)
    ensures TookWithin(m, t, WayMissing(m, r, a), 0)
  {
    WayInTree(m, r, a);
    hide WayMissing, At, InTree;
    var links :| links <= WayMissing(m, r, a) && Took(m2, m3, links, 0);
    SpacesKeep(m2, m3);
    assert Took(m, t, links, 0);
  }

  lemma FreshDropped<T>(m: Mem<T>, m2: Mem<T>, m3: Mem<T>, r: nat, a: nat, n: nat, perm: nat, junk: T)
    requires Grew(m, m2) && Inv(m3) && Extended(m2, m3, r, a, 0, n, perm) && n !in m.owner && n in m2.owner
             && m2.owner[n] == Pending
    ensures m3.lo <= n < |m3.pages| && Inv(Freed(m3, n, junk)) && Grew(m, Freed(m3, n, junk))
    ensures SamePlaces(m3, Freed(m3, n, junk)) && SameSpaces(m2, m3)
  {
    hide Leaf;
    assert OwnedOn(m2, m3, n, n, 0);
    FreePendingKeeps(m3, n, junk);
    DroppedGrew(m, m2, m3, r, a, n, perm, junk);
  }

  lemma DroppedGrew<T>(m: Mem<T>, m2: Mem<T>, m3: Mem<T>, r: nat, a: nat, n: nat, perm: nat, junk: T)
    requires Grew(m, m2) && Extended(m2, m3, r, a, 0, n, perm) && n !in m.owner && n < |m3.pages|
             && SameMaps(m3, Freed(m3, n, junk))
    requires forall q: nat :: InTree(m3, Root(q)) <==> InTree(Freed(m3, n, junk), Root(q))
    ensures Grew(m, Freed(m3, n, junk))
  {
    hide Leaf;
    var t := Freed(m3, n, junk);
    forall x | x in m.owner
      ensures x in t.owner && t.owner[x] == m.owner[x] && (Loose(m, x) && x < |m.pages| ==> t.pages[x] == m.pages[x])
    {
      assert OwnedOn(m2, m3, x, n, 0);
    }
  }

  lemma FreshMapped<T>(m: Mem<T>, m2: Mem<T>, m3: Mem<T>, r: nat, a: nat, n: nat, d: Page<T>, perm: nat)
    requires Grew(m, m2) && Inv(m3) && Extended(m2, m3, r, a, 1, n, perm) && n !in m.owner && n in m2.owner
             && m2.owner[n] == Pending
    requires n < |m2.pages| && m2.pages[n] == d && InTree(m, Root(r)) && a < USER_PAGES && 0 < n && perm < 0x400
             && IsLeaf(perm)
    ensures AddedPage(m, m3, r, a, d, perm)
  {
    hide Leaf, Inv, MakePte, Ppn, Flags, WithV, V, IsLeaf, OwnedOn;
    FreshInFrame(m2, m3, r, a, n, d, perm);
    assert n !in m.owner;
    forall x | x in m.owner
      ensures Stays(m, m3, x)
    {
      FreshStays(m, m2, m3, n, x);
    }
  }

  lemma FreshInFrame<T>(m2: Mem<T>, m3: Mem<T>, r: nat, a: nat, n: nat, d: Page<T>, perm: nat)
    requires Inv(m3) && Extended(m2, m3, r, a, 1, n, perm) && n in m2.owner && m2.owner[n] == Pending
    requires n < |m2.pages| && m2.pages[n] == d && InTree(m2, Root(r)) && a < USER_PAGES && 0 < n && perm < 0x400
             && IsLeaf(perm)
    ensures Leaf(m3, r, a) != 0 && Flags(Leaf(m3, r, a)) == WithV(perm) && Ppn(Leaf(m3, r, a)) == n
    ensures n in m3.owner && m3.owner[n] == Frame(r, a) && n < |m3.pages| && m3.pages[n] == d
  {
    hide Leaf, Inv, InTree;
    PermParts(perm);
    PteParts(n, WithV(perm));
    hide MakePte, Ppn, Flags, WithV, V, IsLeaf;
    assert Leaf(m3, r, a) == MakePte(n, WithV(perm));
    FrameOwned(m3, r, a);
    assert OwnedOn(m2, m3, n, n, 1);
  }

  lemma FreshStays<T>(m: Mem<T>, m2: Mem<T>, m3: Mem<T>, n: nat, x: nat)
    requires Grew(m, m2) && x in m.owner && x != n && x in m2.owner && OwnedOn(m2, m3, x, n, 1)
    ensures Stays(m, m3, x)
  {
    hide Leaf;
  }

  lemma FrameOwned<T>(m: Mem<T>, r: nat, a: nat)
    requires Inv(m) && InTree(m, Root(r)) && a < USER_PAGES && Leaf(m, r, a) != 0
    ensures Ppn(Leaf(m, r, a)) != 0 && Ppn(Leaf(m, r, a)) in m.owner && m.owner[Ppn(Leaf(m, r, a))] == Frame(r, a)
  {
    assert LeafOk(Leaf(m, r, a)) && InTree(m, Frame(r, a)) && At(m, Frame(r, a)) == Ppn(Leaf(m, r, a));
  }

  /** perm | PTE_V */
  function WithV(perm: nat): nat {
    if V(perm) then perm else perm + 1
  }

  /** k pages from v on are now mapped to the pages from p on; every other mapping of every
      address space is as it was, and so is what is in every page that is no table. */
  ghost predicate Extended<T>(m: Mem<T>, t: Mem<T>, r: nat, v: nat, k: nat, p: nat, perm: nat) {
    && (forall q: nat, w: nat :: InTree(m, Root(q)) && w < PAGES ==>
          Leaf(t, q, w) == if q == r && v <= w < v + k then MakePte(p + (w - v), WithV(perm)) else Leaf(m, q, w))
    && (forall q: nat :: InTree(t, Root(q)) <==> InTree(m, Root(q)))
    && |t.pages| == |m.pages| && t.lo == m.lo
    && (forall x :: x in m.owner ==> OwnedOn(m, t, x, p, k))
  }

  ghost predicate OwnedOn<T>(m: Mem<T>, t: Mem<T>, x: nat, p: nat, k: nat)
    requires x in m.owner
  {
    && x in t.owner && (t.owner[x] == m.owner[x] || (m.owner[x] == Pending && p <= x < p + k && t.owner[x].Frame?))
    && (Loose(m, x) && x < |m.pages| && x < |t.pages| ==> t.pages[x] == m.pages[x])
  }

  lemma ExtendedNone<T>(m: Mem<T>, r: nat, v: nat, p: nat, perm: nat)
    ensures Extended(m, m, r, v, 0, p, perm)
  {
  }

  lemma ExtendedFacts<T>(m: Mem<T>, t: Mem<T>, r: nat, v: nat, k: nat, p: nat, perm: nat, w: nat, x: nat)
    requires Extended(m, t, r, v, k, p, perm) && InTree(m, Root(r)) && w == v + k < PAGES && x == p + k
    ensures InTree(t, Root(r)) && Leaf(t, r, w) == Leaf(m, r, w)
    ensures x in m.owner ==> x in t.owner && t.owner[x] == m.owner[x]
  {
  }

  lemma ExtendedGrew<T>(m: Mem<T>, m1: Mem<T>, m2: Mem<T>, r: nat, v: nat, k: nat, p: nat, perm: nat)
    requires Extended(m, m1, r, v, k, p, perm) && Grew(m1, m2)
    ensures Extended(m, m2, r, v, k, p, perm)
  {
    hide Leaf;
    forall x | x in m.owner
      ensures OwnedOn(m, m2, x, p, k)
    {
      assert OwnedOn(m, m1, x, p, k);
    }
  }

  /** One turn of mappages's loop after walk found the table in m2. */
  lemma MapStep<T>(m1: Mem<T>, m2: Mem<T>, r: nat, w: nat, x: nat, perm: nat)
    requires Inv(m1) && Inv(m2) && Grew(m1, m2) && InTree(m1, Root(r)) && w < PAGES
    requires Leaf(m1, r, w) == 0 && LowAt(m2, r, w / ENTRIES) != 0
    requires 0 < x && perm < 0x400 && IsLeaf(perm) && (w < USER_PAGES ==> x in m1.owner && m1.owner[x] == Pending)
    ensures InTree(m2, Root(r)) && IsTable(m2, LowAt(m2, r, w / ENTRIES)) && Ppn(MakePte(x, WithV(perm))) == x
    ensures LowAt(m2, r, w / ENTRIES) in m2.owner && !Loose(m2, LowAt(m2, r, w / ENTRIES))
    ensures var t := Mapped(m2, r, w, MakePte(x, WithV(perm)));
            Inv(t) && Maps(m2, t, r, w, MakePte(x, WithV(perm))) && SameRoots(m2, t) && Took(m2, t, {}, 0)
  {
    hide LowAt, Leaf, MakePte, Ppn, Mapped, WithV, Took, Trees;
    PermParts(perm);
    PteParts(x, WithV(perm));
    MidWays(m2, r, w);
    TableThere(m2, Low(r, w / ENTRIES));
    MapKeeps(m2, r, w, MakePte(x, WithV(perm)));
    MappedFree(m2, r, w, MakePte(x, WithV(perm)));
    LeafTook(m2, Mapped(m2, r, w, MakePte(x, WithV(perm))), Frame(r, w), x, 0);
  }

  /** A changed leaf entry changes no table. */
  lemma LeafTook<T>(m: Mem<T>, t: Mem<T>, x: Place, n: nat, k: int)
    requires Trees(m, t, x, n) && !IsTablePlace(x) && |m.free| == |t.free| + k
    ensures Took(m, t, {}, k)
  {
    hide At, InTree;
  }

  lemma MappedFree<T>(m: Mem<T>, r: nat, v: nat, e: nat)
    requires IsTable(m, LowAt(m, r, v / ENTRIES))
    ensures Mapped(m, r, v, e).free == m.free
  {
  }

  lemma MapStarts<T>(m: Mem<T>, r: nat, v: nat)
    ensures Took(m, m, Missing(m, r, PageRange(v, v)), 0)
  {
    hide WayMissing, InTree, At;
    RangeMore(v, v);
    MissingNone(m, r);
    TookNone(m);
  }

  /** The tables that k + 1 pages need, when those for k pages were there already. */
  lemma MapTurn<T>(m: Mem<T>, m1: Mem<T>, m2: Mem<T>, t: Mem<T>, r: nat, v: nat, k: nat, p: nat, perm: nat)
    requires Extended(m, m1, r, v, k, p, perm) && Grew(m1, m2) && InTree(m, Root(r)) && v + k < PAGES
    requires Took(m, m1, Missing(m, r, PageRange(v, v + k)), 0) && Took(m1, m2, WayMissing(m1, r, v + k), 0)
             && Took(m2, t, {}, 0)
    ensures Took(m, t, Missing(m, r, PageRange(v, v + k + 1)), 0)
  {
    hide Leaf, At, Took, Missing, WayMissing, OwnedOn, InTree, PageRange;
    var some, w := PageRange(v, v + k), v + k;
    RangeMore(v, w);
    TookMore(m, m1, m2, r, some, 0, w, 0);
    TookSame(m, m2, t, Missing(m, r, some + {w}), 0, 0);
  }

  lemma MapStops<T>(m: Mem<T>, m1: Mem<T>, t: Mem<T>, r: nat, v: nat, k: nat, n: nat, p: nat, perm: nat)
    requires Took(m, m1, Missing(m, r, PageRange(v, v + k)), 0) && InTree(m, Root(r)) && k < n && v + n <= PAGES
    requires Extended(m, m1, r, v, k, p, perm) && TookWithin(m1, t, WayMissing(m1, r, v + k), 0)
    requires TablesMissing(m1, r, v + k) > |m1.free|
    ensures |m.free| < |Missing(m, r, PageRange(v, v + k + 1))| <= |Missing(m, r, PageRange(v, v + n))|
    ensures TookWithin(m, t, Missing(m, r, PageRange(v, v + n)), 0)
  {
    hide Leaf, OwnedOn, TookWithin, At, Took, Missing, WayMissing, TablesMissing, InTree, PageRange, Needed;
    var some, w := PageRange(v, v + k), v + k;
    RangeMore(v, w);
    TablesForNext(m, m1, r, some, 0, w);
    RangeGrows(v, w + 1, v + n);
    NeededGrows(m, r, some + {w}, PageRange(v, v + n));
    WithinMore(m, m1, t, r, some, 0, w, 0);
    WithinAll(m, t, r, some + {w}, PageRange(v, v + n), 0);
  }

  lemma PermParts(perm: nat)
    requires perm < 0x400 && IsLeaf(perm)
    ensures WithV(perm) < 0x400 && V(WithV(perm)) && IsLeaf(WithV(perm))
  {
  }

  lemma MapOneExtends<T>(m: Mem<T>, m1: Mem<T>, m2: Mem<T>, t: Mem<T>, r: nat, v: nat, k: nat, p: nat, perm: nat,
                         w: nat, y: nat, e: nat)
    requires Extended(m, m1, r, v, k, p, perm) && Grew(m1, m2) && InTree(m, Root(r)) && w == v + k < PAGES && y == p + k
             && e == MakePte(y, WithV(perm))
    requires (w < USER_PAGES ==> y in m1.owner && m1.owner[y] == Pending) && Ppn(e) == y
    requires IsTable(m2, LowAt(m2, r, w / ENTRIES)) && t == Mapped(m2, r, w, e)
    requires LowAt(m2, r, w / ENTRIES) in m2.owner && !Loose(m2, LowAt(m2, r, w / ENTRIES))
    requires Maps(m2, t, r, w, e) && SameRoots(m2, t)
    ensures Extended(m, t, r, v, k + 1, p, perm)
  {
    hide LowAt, Leaf, MakePte, Ppn, WithV;
    MapOneOwned(m, m1, m2, t, r, v, k, p, perm, w, y, e);
  }

  lemma MapOneOwned<T>(m: Mem<T>, m1: Mem<T>, m2: Mem<T>, t: Mem<T>, r: nat, v: nat, k: nat, p: nat, perm: nat, w: nat,
                       y: nat, e: nat)
    requires Extended(m, m1, r, v, k, p, perm) && Grew(m1, m2) && w == v + k && y == p + k
    requires (w < USER_PAGES ==> y in m1.owner && m1.owner[y] == Pending) && Ppn(e) == y
    requires IsTable(m2, LowAt(m2, r, w / ENTRIES)) && t == Mapped(m2, r, w, e)
    requires LowAt(m2, r, w / ENTRIES) in m2.owner && !Loose(m2, LowAt(m2, r, w / ENTRIES))
    ensures forall x :: x in m.owner ==> OwnedOn(m, t, x, p, k + 1)
  {
    hide LowAt, Leaf, MakePte, Ppn, WithV;
    forall x | x in m.owner
      ensures OwnedOn(m, t, x, p, k + 1)
    {
      assert OwnedOn(m, m1, x, p, k);
    }
  }

  lemma PxPlaces(v: nat)
    requires v < PAGES
    ensures Px(2, v) == v / ENTRIES / ENTRIES < ENTRIES && Px(1, v) == v / ENTRIES % ENTRIES < ENTRIES
            && Px(0, v) == v % ENTRIES < ENTRIES
  {
    assert v / (ENTRIES * ENTRIES) == v / ENTRIES / ENTRIES;
  }

  lemma GrewSelf<T>(m: Mem<T>)
    ensures Grew(m, m)
  {
  }

  lemma GrewRoot<T>(m: Mem<T>, t: Mem<T>, r: nat)
    requires Grew(m, t) && InTree(m, Root(r))
    ensures InTree(t, Root(r))
  {
  }

  lemma NoWay<T>(m: Mem<T>, r: nat, v: nat, x: Place)
    requires At(m, x) == 0 && (x == Mid(r, v / ENTRIES / ENTRIES) || x == Low(r, v / ENTRIES))
    ensures LowAt(m, r, v / ENTRIES) == 0
  {
  }

  /** The tables that walk has linked in when it is at a level. */
  function WayLinks<T>(m: Mem<T>, r: nat, v: nat, level: nat): set<Place> {
    if level == 2 then {}
    else if level == 1 then WayMissing(m, r, v) - {Low(r, v / ENTRIES)}
    else WayMissing(m, r, v)
  }

  lemma WayStarts<T>(m: Mem<T>, r: nat, v: nat)
    ensures Took(m, m, WayLinks(m, r, v, 2), 0)
  {
  }

  lemma WayEnds<T>(m: Mem<T>, r: nat, v: nat)
    ensures WayLinks(m, r, v, 0) == WayMissing(m, r, v)
    ensures forall t: Mem<T> :: Took(m, t, WayMissing(m, r, v), 0) ==> TablesMissing(m, r, v) <= |m.free|
  {
    hide WayMissing;
  }

  lemma GrewSpaces<T>(m: Mem<T>, t: Mem<T>)
    requires Grew(m, t)
    ensures SameSpaces(m, t)
  {
  }

  lemma LinksWithin<T>(m: Mem<T>, t: Mem<T>, r: nat, v: nat, level: nat)
    requires Took(m, t, WayLinks(m, r, v, level), 0)
    ensures TookWithin(m, t, WayMissing(m, r, v), 0)
  {
    hide Took, WayMissing;
    assert WayLinks(m, r, v, level) <= WayMissing(m, r, v);
  }

  /** Place x is the table that walk looks for at a level. */
  predicate Next(x: Place, r: nat, v: nat, level: nat) {
    (level == 2 && x == Mid(r, v / ENTRIES / ENTRIES)) || (level == 1 && x == Low(r, v / ENTRIES))
  }

  lemma NextLinks<T>(m: Mem<T>, r: nat, v: nat, level: nat, x: Place)
    requires InTree(m, Root(r)) && v < PAGES && Next(x, r, v, level)
    ensures InTree(m, x) && IsTablePlace(x) && x !in WayLinks(m, r, v, level)
    ensures WayLinks(m, r, v, level - 1) == WayLinks(m, r, v, level) + if At(m, x) == 0 then {x} else {}
    ensures forall pl :: pl in WayLinks(m, r, v, level - 1) ==> InTree(m, pl)
  {
    WayInTree(m, r, v);
    MidWays(m, r, v);
  }

  /** One turn of walk's loop that found the table of place x, or linked it in. */
  lemma WayGrows<T>(m: Mem<T>, m1: Mem<T>, t: Mem<T>, r: nat, v: nat, level: nat, x: Place)
    requires InTree(m, Root(r)) && v < PAGES && Next(x, r, v, level) && SameSpaces(m, m1)
    requires Took(m, m1, WayLinks(m, r, v, level), 0) && Took(m1, t, if At(m1, x) == 0 then {x} else {}, 0)
    ensures Took(m, t, WayLinks(m, r, v, level - 1), 0)
  {
    hide InTree, At, WayLinks;
    NextLinks(m, r, v, level, x);
    TookOn(m, m1, t, WayLinks(m, r, v, level), 0, if At(m1, x) == 0 then {x} else {}, 0);
  }

  /** A turn that found neither the table nor memory for it. */
  lemma WayFails<T>(m: Mem<T>, m1: Mem<T>, r: nat, v: nat, level: nat, x: Place)
    requires InTree(m, Root(r)) && v < PAGES && Next(x, r, v, level)
    requires Took(m, m1, WayLinks(m, r, v, level), 0) && At(m1, x) == 0 && m1.free == []
    ensures TablesMissing(m, r, v) > |m.free|
  {
    hide InTree, WayLinks;
    NextLinks(m, r, v, level, x);
    MoreMissing(m, r, v, level, x);
  }

  lemma MoreMissing<T>(m: Mem<T>, r: nat, v: nat, level: nat, x: Place)
    requires Next(x, r, v, level) && At(m, x) == 0 && x !in WayLinks(m, r, v, level)
    ensures |WayLinks(m, r, v, level)| < TablesMissing(m, r, v)
  {
    var links := WayLinks(m, r, v, level);
    assert links + {x} <= WayMissing(m, r, v);
    SubsetSize(links + {x}, WayMissing(m, r, v));
  }

  /** What the entry at the end of a way says about the place it leads to. */
  lemma WayThere<T>(m: Mem<T>, x: Place, p: nat, i: nat)
    requires Inv(m) && InTree(m, x) && IsTable(m, p) && i < ENTRIES
    requires (x.Mid? && p == x.r && i == x.a)
             || (x.Low? && p == MidAt(m, x.r, x.b / ENTRIES) && p != 0 && i == x.b % ENTRIES)
    ensures At(m, x) == (if V(m.pages[p].ptes[i]) then Ppn(m.pages[p].ptes[i]) else 0)
    ensures V(m.pages[p].ptes[i]) ==> At(m, x) != 0 && IsTable(m, At(m, x))
  {
    if x.Low? {
      assert Interior(LowEntry(m, x.r, x.b));
    } else {
      assert InTree(m, Root(x.r)) && RootEntryOk(Entry(m, p, i), i);
    }
    if At(m, x) != 0 {
      TableThere(m, x);
    }
  }

  /** Linking the fresh table n, in m2, where m had none. */
  lemma FreshWays<T>(m: Mem<T>, m1: Mem<T>, m2: Mem<T>, x: Place, p: nat, i: nat, n: nat)
    requires Inv(m) && InTree(m, x) && At(m, x) == 0 && IsTable(m, p) && i < ENTRIES
    requires (x.Mid? && p == x.r && i == x.a)
             || (x.Low? && p == MidAt(m, x.r, x.b / ENTRIES) && p != 0 && i == x.b % ENTRIES)
    requires n != 0 && n < |m.pages| && n !in m.owner && Grew(m, m1) && SamePlaces(m, m1) && SameRoots(m, m1)
    requires m1.owner == m.owner[n := Pending] && m2 == m1.(pages := m1.pages[n := Table(ZERO_TABLE)])
    requires Inv(m2) && SameMaps(m1, m2) && SamePlaces(m1, m2) && SameRoots(m1, m2) && |m.free| == |m1.free| + 1
    ensures IsTable(m2, p) && p != n
    ensures var t := m2.(pages := m2.pages[p := Table(m2.pages[p].ptes[i := MakePte(n, 1)])],
                         owner := m2.owner[n := x]);
            Inv(t) && Grew(m, t) && At(t, x) == n && IsTable(t, n) && Took(m, t, {x}, 0)
  {
    hide MidAt, LowAt, Leaf, Inv, At, Took, Trees;
    ParentOwned(m, x, p);
    assert FreshTable(m2, n);
    if x.Mid? {
      FreshMid(m, m1, m2, x.r, x.a, n);
    } else {
      FreshLow(m, m1, m2, x.r, x.b, p, n);
    }
    var t := m2.(pages := m2.pages[p := Table(m2.pages[p].ptes[i := MakePte(n, 1)])], owner := m2.owner[n := x]);
    FreshGrew(m, m1, m2, t, p, x, n);
    LinkTook(m, m1, m2, t, x, n);
  }

  lemma LinkTook<T>(m: Mem<T>, m1: Mem<T>, m2: Mem<T>, t: Mem<T>, x: Place, n: nat)
    requires SamePlaces(m, m1) && SameRoots(m, m1) && SamePlaces(m1, m2) && SameRoots(m1, m2) && Trees(m2, t, x, n)
             && n != 0
    requires InTree(m, x) && IsTablePlace(x) && At(m, x) == 0 && |m.free| == |t.free| + 1
    ensures Took(m, t, {x}, 0)
  {
    hide At, InTree;
  }

  lemma FreshMid<T>(m: Mem<T>, m1: Mem<T>, m2: Mem<T>, r: nat, a: nat, n: nat)
    requires InTree(m, Mid(r, a)) && At(m, Mid(r, a)) == 0 && SamePlaces(m, m1) && SameRoots(m, m1)
             && SamePlaces(m1, m2) && SameRoots(m1, m2)
    requires Inv(m2) && FreshTable(m2, n)
    ensures IsTable(m2, r)
    ensures var t := MidLinked(m2, r, a, n);
            Inv(t) && SameMaps(m2, t) && SameRoots(m2, t) && Trees(m2, t, Mid(r, a), n) && At(t, Mid(r, a)) == n
              && (r != n ==> IsTable(t, n))
  {
    hide MidAt, LowAt, Leaf;
    assert InTree(m1, Mid(r, a)) && InTree(m2, Mid(r, a)) && At(m1, Mid(r, a)) == 0 && At(m2, Mid(r, a)) == 0;
    LinkMidKeeps(m2, r, a, n);
  }

  lemma FreshLow<T>(m: Mem<T>, m1: Mem<T>, m2: Mem<T>, r: nat, b: nat, p: nat, n: nat)
    requires InTree(m, Low(r, b)) && At(m, Low(r, b)) == 0 && SamePlaces(m, m1) && SameRoots(m, m1)
             && SamePlaces(m1, m2) && SameRoots(m1, m2)
    requires p == MidAt(m, r, b / ENTRIES) && p != 0 && Inv(m2) && FreshTable(m2, n)
    ensures MidAt(m2, r, b / ENTRIES) == p && IsTable(m2, p)
    ensures var t := LowLinked(m2, r, b, n);
            Inv(t) && SameMaps(m2, t) && SameRoots(m2, t) && Trees(m2, t, Low(r, b), n) && At(t, Low(r, b)) == n
              && (p != n ==> IsTable(t, n))
  {
    hide MidAt, LowAt, Leaf;
    assert InTree(m, Mid(r, b / ENTRIES)) && InTree(m1, Mid(r, b / ENTRIES)) && At(m, Mid(r, b / ENTRIES)) == p;
    assert At(m1, Mid(r, b / ENTRIES)) == p && At(m2, Mid(r, b / ENTRIES)) == p;
    assert InTree(m1, Low(r, b)) && InTree(m2, Low(r, b)) && At(m1, Low(r, b)) == 0 && At(m2, Low(r, b)) == 0;
    LinkLowKeeps(m2, r, b, n);
  }

  lemma ParentOwned<T>(m: Mem<T>, x: Place, p: nat)
    requires Inv(m) && InTree(m, x)
    requires (x.Mid? && p == x.r) || (x.Low? && p == MidAt(m, x.r, x.b / ENTRIES) && p != 0)
    ensures p in m.owner && !Loose(m, p)
  {
    assert x.Low? ==> InTree(m, Mid(x.r, x.b / ENTRIES)) && At(m, Mid(x.r, x.b / ENTRIES)) == p;
  }

  lemma FreshGrew<T>(m: Mem<T>, m1: Mem<T>, m2: Mem<T>, t: Mem<T>, p: nat, x: Place, n: nat)
    requires Grew(m, m1) && n !in m.owner && p in m.owner && !Loose(m, p) && p < |m1.pages| && IsTable(m2, p)
             && n < |m1.pages|
    requires m2 == m1.(pages := m2.pages) && |m2.pages| == |m1.pages| && forall q :: 0 <= q < |m1.pages| && q != n ==>
               m2.pages[q] == m1.pages[q]
    requires t == m2.(pages := t.pages, owner := m2.owner[n := x]) && |t.pages| == |m2.pages|
    requires forall q :: 0 <= q < |m2.pages| && q != p ==> t.pages[q] == m2.pages[q]
    requires SameMaps(m1, m2) && SameRoots(m1, m2) && SameMaps(m2, t) && SameRoots(m2, t)
    ensures Grew(m, t)
  {
    hide Leaf;
  }

  lemma KallocFacts<T>(m: Mem<T>, junk: T)
    requires Inv(m)
    ensures Grew(m, m) && SamePlaces(m, m) && SameRoots(m, m)
    ensures m.free != [] ==> m.free[0] < |m.pages| && 0 < m.free[0] && m.free[0] !in m.owner
    ensures m.free != [] ==> Inv(Allocated(m, junk)) && Grew(m, Allocated(m, junk))
    ensures m.free != [] ==> SamePlaces(m, Allocated(m, junk)) && SameRoots(m, Allocated(m, junk))
  {
    hide Leaf;
    if m.free != [] {
      AllocKeeps(m, junk);
    }
  }

  /** The place of the table that entry i of x's table leads to. */
  function Below1(x: Place, i: nat): Place
    requires x.Root? || x.Mid? || x.Low?
  {
    match x
    case Root(r) => Mid(r, i)
    case Mid(r, a) => Low(r, a * ENTRIES + i)
    case Low(r, b) => Frame(r, b * ENTRIES + i)
  }

  /** Tables below x. */
  predicate Under(x: Place, pl: Place) {
    match x
    case Root(r) => (pl.Mid? || pl.Low?) && pl.r == r
    case Mid(r, a) => pl.Low? && pl.r == r && pl.b / ENTRIES == a
    case _ => false
  }

  /** freewalk got through i entries of x's table: the tables they led to are gone, and
      nothing else changed. */
  ghost predicate Pruned<T>(m: Mem<T>, u: Mem<T>, x: Place, i: nat)
    requires x.Root? || x.Mid? || x.Low?
  {
    && SameMaps(m, u) && SameRoots(m, u) && |u.pages| == |m.pages| && u.lo == m.lo
    && (forall j: nat :: j < i && !x.Low? && InTree(m, Below1(x, j)) ==> At(u, Below1(x, j)) == 0)
    && (forall pl: Place :: InTree(m, pl) && !Under(x, pl) ==> At(u, pl) == At(m, pl))
    && (forall p :: p in u.owner ==> p in m.owner && u.owner[p] == m.owner[p])
    && (forall p :: p in m.owner && !Under(x, m.owner[p]) ==> Stays(m, u, p))
  }

  lemma PrunedNone<T>(m: Mem<T>, x: Place)
    requires x.Root? || x.Mid? || x.Low?
    ensures Pruned(m, m, x, 0)
  {
  }

  lemma PrunedTable<T>(m: Mem<T>, u: Mem<T>, x: Place, t: nat)
    requires (x.Root? || x.Mid? || x.Low?) && t != 0
    requires Inv(m) && Pruned(m, u, x, ENTRIES) && InTree(m, x) && At(m, x) == t && IsTable(m, t)
    ensures m.lo <= t < |u.pages|
  {
    TableFact(m, x);
  }

  lemma TableFact<T>(m: Mem<T>, x: Place)
    requires Inv(m) && InTree(m, x) && !x.Frame? && (x.Root? || At(m, x) != 0)
    ensures At(m, x) in m.owner && m.lo <= At(m, x) < |m.pages| && m.owner[At(m, x)] == x
  {
  }

  /** Entry i of x's table, while freewalk is at it: a table without mappings, or nothing. */
  ghost predicate EntryThere<T>(m: Mem<T>, u: Mem<T>, x: Place, t: nat, i: nat)
    requires (x.Root? || x.Mid? || x.Low?) && i < ENTRIES && IsTable(u, t)
  {
    var e := u.pages[t].ptes[i];
    if V(e) then
      && !IsLeaf(e) && !x.Low? && InTree(u, Below1(x, i)) && At(u, Below1(x, i)) == Ppn(e) != 0 && IsTable(u, Ppn(e))
      && NoLeaves(u, Below1(x, i))
    else !x.Low? && InTree(m, Below1(x, i)) ==> At(u, Below1(x, i)) == 0
  }

  lemma PruneEntry<T>(m: Mem<T>, u: Mem<T>, x: Place, t: nat, i: nat)
    requires (x.Root? || x.Mid? || x.Low?) && i < ENTRIES
    requires Inv(m) && Inv(u) && Pruned(m, u, x, i) && InTree(m, x)
    requires At(m, x) == t && IsTable(m, t) && t != 0 && NoLeaves(m, x)
    ensures InTree(u, x) && At(u, x) == t && IsTable(u, t) && EntryThere(m, u, x, t, i)
  {
    hide Leaf, LowAt, MidAt, NoLeaves, Inv, InTree, At, EntryThere, Under, Below1, IsTable;
    PrunePlace(m, u, x, t, i);
    match x {
      case Root(r) => PruneRoot(m, u, r, i);
      case Mid(r, a) => PruneMid(m, u, r, a, t, i);
      case Low(r, b) => PruneLow(m, u, r, b, t, i);
      case _ =>
    }
  }

  lemma PrunePlace<T>(m: Mem<T>, u: Mem<T>, x: Place, t: nat, i: nat)
    requires (x.Root? || x.Mid? || x.Low?) && Inv(u) && Pruned(m, u, x, i) && InTree(m, x) && At(m, x) == t != 0
    ensures InTree(u, x) && At(u, x) == t && IsTable(u, t) && (x.Root? ==> x.r == t)
  {
    hide Leaf, LowAt, MidAt;
    TableThere(u, x);
  }

  lemma FlagsOne(e: nat)
    requires Flags(e) == 1
    ensures !IsLeaf(e)
  {
    hide IsLeaf;
    var q := Ppn(e);
    OnlyValid(0x40 * q);
    assert e == 0x400 * q + 1;
  }

  lemma OnlyValid(k: nat)
    ensures !IsLeaf(16 * k + 1)
  {
    assert (16 * k + 1) / 2 == 8 * k;
  }

  lemma PruneRoot<T>(m: Mem<T>, u: Mem<T>, r: nat, i: nat)
    requires Inv(u) && SameMaps(m, u) && InTree(m, Root(r)) && InTree(u, Root(r)) && i < ENTRIES && IsTable(u, r)
    requires NoLeaves(m, Root(r))
    ensures EntryThere(m, u, Root(r), r, i)
  {
    hide Leaf, LowAt;
    assert RootEntryOk(Entry(u, r, i), i);
    if V(Entry(u, r, i)) {
      FlagsOne(Entry(u, r, i));
      TableThere(u, Mid(r, i));
      assert forall v: nat :: Below(Mid(r, i), v) ==> Below(Root(r), v);
    }
  }

  lemma PruneMid<T>(m: Mem<T>, u: Mem<T>, r: nat, a: nat, t: nat, i: nat)
    requires Inv(u) && SameMaps(m, u) && InTree(m, Mid(r, a)) && InTree(u, Mid(r, a)) && i < ENTRIES
    requires NoLeaves(m, Mid(r, a)) && At(u, Mid(r, a)) == t != 0 && IsTable(u, t)
    ensures EntryThere(m, u, Mid(r, a), t, i)
  {
    hide Leaf, NoLeaves;
    var b := a * ENTRIES + i;
    Halves(a, i);
    MidEntry(u, r, a, t, i);
    assert InTree(u, Low(r, b)) && Interior(LowEntry(u, r, b));
    if V(LowEntry(u, r, b)) {
      FlagsOne(LowEntry(u, r, b));
      TableThere(u, Low(r, b));
      NoneBelow(m, u, r, a, b);
    }
  }

  lemma MidEntry<T>(u: Mem<T>, r: nat, a: nat, t: nat, i: nat)
    requires MidAt(u, r, a) == t != 0 && IsTable(u, t) && i < ENTRIES
    ensures LowEntry(u, r, a * ENTRIES + i) == u.pages[t].ptes[i]
    ensures LowAt(u, r, a * ENTRIES + i) == Child(u.pages[t].ptes[i])
  {
    Halves(a, i);
  }

  lemma Halves(a: nat, i: nat)
    requires i < ENTRIES
    ensures (a * ENTRIES + i) / ENTRIES == a && (a * ENTRIES + i) % ENTRIES == i
  {
  }

  lemma NoneBelow<T>(m: Mem<T>, u: Mem<T>, r: nat, a: nat, b: nat)
    requires SameMaps(m, u) && InTree(m, Root(r)) && NoLeaves(m, Mid(r, a)) && b / ENTRIES == a
    ensures NoLeaves(u, Low(r, b))
  {
    hide Leaf;
    assert forall v: nat :: Below(Low(r, b), v) ==> Below(Mid(r, a), v);
  }

  lemma PruneLow<T>(m: Mem<T>, u: Mem<T>, r: nat, b: nat, t: nat, i: nat)
    requires SameMaps(m, u) && InTree(m, Low(r, b)) && NoLeaves(m, Low(r, b)) && i < ENTRIES
    requires At(u, Low(r, b)) == t != 0 && IsTable(u, t)
    ensures EntryThere(m, u, Low(r, b), t, i)
  {
    var v := b * ENTRIES + i;
    Halves(b, i);
    assert InTree(m, Root(r)) && v < PAGES && Below(Low(r, b), v);
    assert Leaf(u, r, v) == Leaf(m, r, v) == 0;
  }

  /** freewalk removed the table that entry i of x's table led to. */
  lemma PruneMore<T>(m: Mem<T>, u: Mem<T>, before: Mem<T>, x: Place, t: nat, i: nat, child: nat, junk: T)
    requires Inv(u) && Inv(before) && (x.Root? || x.Mid?) && i < ENTRIES && InTree(m, x) && InTree(u, x)
             && At(u, x) == t != 0 && IsTable(u, t)
    requires InTree(u, Below1(x, i)) && At(u, Below1(x, i)) == child != 0 && NoLeaves(u, Below1(x, i))
    requires Pruned(m, u, x, i) && Pruned(u, before, Below1(x, i), ENTRIES) && child < |before.pages|
    ensures IsTable(Freed(before, child, junk), t)
    ensures var f := Freed(before, child, junk);
            var v := f.(pages := f.pages[t := Table(f.pages[t].ptes[i := 0])]);
            Inv(v) && Pruned(m, v, x, i + 1)
  {
    hide Leaf, LowAt, MidAt, NoLeaves, Inv;
    PruneFacts(u, before, x, i, t, child);
    RemovedIs(before, t, child, i, junk);
    if x.Root? {
      PruneMoreRoot(m, u, before, x.r, t, i, child, junk);
    } else {
      PruneMoreMid(m, u, before, x.r, x.a, t, i, child, junk);
    }
  }

  lemma PruneFacts<T>(u: Mem<T>, before: Mem<T>, x: Place, i: nat, t: nat, child: nat)
    requires (x.Root? || x.Mid?) && i < ENTRIES && Inv(before) && Pruned(u, before, Below1(x, i), ENTRIES)
    requires InTree(u, x) && InTree(u, Below1(x, i)) && At(u, x) == t != 0 && At(u, Below1(x, i)) == child != 0
    ensures InTree(before, x) && InTree(before, Below1(x, i)) && At(before, x) == t && At(before, Below1(x, i)) == child
    ensures child in before.owner && before.owner[child] == Below1(x, i) && child < |before.pages|
    ensures t in before.owner && before.owner[t] == x && t != child && IsTable(before, t)
  {
    hide Leaf, LowAt, MidAt;
    TableFact(before, Below1(x, i));
    TableFact(before, x);
    TableThere(before, x);
  }

  lemma PruneMoreRoot<T>(m: Mem<T>, u: Mem<T>, before: Mem<T>, r: nat, t: nat, i: nat, child: nat, junk: T)
    requires Inv(before) && i < ENTRIES && InTree(m, Root(r)) && InTree(u, Mid(r, i)) && InTree(before, Mid(r, i))
             && t == r
    requires At(u, Mid(r, i)) == child && At(before, Mid(r, i)) == child != 0
    requires Pruned(m, u, Root(r), i) && Pruned(u, before, Mid(r, i), ENTRIES) && child < |before.pages|
             && IsTable(before, t) && t != child
    requires child in before.owner && before.owner[child] == Mid(r, i) && t in before.owner
             && before.owner[t] == Root(r)
    ensures var f := Freed(before, child, junk);
            IsTable(f, t) && var v := f.(pages := f.pages[t := Table(f.pages[t].ptes[i := 0])]);
            Inv(v) && Pruned(m, v, Root(r), i + 1)
  {
    hide Leaf, LowAt, Inv, Pruned, NoLows;
    BelowMid(u, before, r, i);
    MidRemovedKeeps(before, r, i, junk);
    PrunedOn(m, u, before, MidRemoved(before, r, i, junk), Root(r), i, child, t);
  }

  lemma PruneMoreMid<T>(m: Mem<T>, u: Mem<T>, before: Mem<T>, r: nat, a: nat, t: nat, i: nat, child: nat, junk: T)
    requires Inv(before) && i < ENTRIES && InTree(m, Mid(r, a)) && InTree(u, Low(r, a * ENTRIES + i))
             && InTree(before, Low(r, a * ENTRIES + i))
    requires At(before, Mid(r, a)) == t && NoLeaves(u, Low(r, a * ENTRIES + i))
    requires At(u, Low(r, a * ENTRIES + i)) == child && At(before, Low(r, a * ENTRIES + i)) == child != 0
    requires Pruned(m, u, Mid(r, a), i) && Pruned(u, before, Low(r, a * ENTRIES + i), ENTRIES) && child < |before.pages|
    requires IsTable(before, t) && t != child
    requires child in before.owner && before.owner[child] == Low(r, a * ENTRIES + i) && t in before.owner
             && before.owner[t] == Mid(r, a)
    ensures var f := Freed(before, child, junk);
            IsTable(f, t) && var v := f.(pages := f.pages[t := Table(f.pages[t].ptes[i := 0])]);
            Inv(v) && Pruned(m, v, Mid(r, a), i + 1)
  {
    hide Leaf, LowAt, MidAt, Inv, NoLeaves;
    var b := a * ENTRIES + i;
    Halves(a, i);
    BelowLow(u, before, r, a, i);
    LowRemovedKeeps(before, r, b, junk);
    PrunedOn(m, u, before, LowRemoved(before, r, b, junk), Mid(r, a), i, child, t);
  }

  lemma RemovedIs<T>(before: Mem<T>, t: nat, child: nat, i: nat, junk: T)
    requires IsTable(before, t) && child < |before.pages| && t != child && i < ENTRIES
    ensures IsTable(Freed(before, child, junk), t)
    ensures Freed(before, child, junk).pages[t] == before.pages[t]
  {
  }

  lemma BelowMid<T>(u: Mem<T>, before: Mem<T>, r: nat, a: nat)
    requires Pruned(u, before, Mid(r, a), ENTRIES) && InTree(u, Mid(r, a))
    ensures NoLows(before, r, a)
  {
    forall b: nat | b / ENTRIES == a
      ensures LowAt(before, r, b) == 0
    {
      assert Below1(Mid(r, a), b % ENTRIES) == Low(r, b);
      assert InTree(u, Low(r, b));
      assert At(before, Below1(Mid(r, a), b % ENTRIES)) == 0;
    }
  }

  lemma BelowLow<T>(u: Mem<T>, before: Mem<T>, r: nat, a: nat, i: nat)
    requires SameMaps(u, before) && InTree(u, Low(r, a * ENTRIES + i)) && NoLeaves(u, Low(r, a * ENTRIES + i))
    ensures NoLeaves(before, Low(r, a * ENTRIES + i))
  {
    hide Leaf;
    assert InTree(u, Root(r));
  }

  lemma PrunedOn<T>(m: Mem<T>, u: Mem<T>, before: Mem<T>, v: Mem<T>, x: Place, i: nat, child: nat, t: nat)
    requires (x.Root? || x.Mid?) && i < ENTRIES && InTree(m, x) && InTree(u, Below1(x, i))
             && At(u, Below1(x, i)) == child
    requires Pruned(m, u, x, i) && Pruned(u, before, Below1(x, i), ENTRIES) && child in before.owner
             && before.owner[child] == Below1(x, i)
    requires Trees(before, v, Below1(x, i), 0) && SameMaps(before, v) && SameRoots(before, v)
             && |v.pages| == |before.pages| && v.lo == before.lo
    requires v.owner == before.owner - {child} && t in before.owner && before.owner[t] == x
    requires forall p :: 0 <= p < |before.pages| && p != t && p != child ==> v.pages[p] == before.pages[p]
    ensures Pruned(m, v, x, i + 1)
  {
    hide Leaf, LowAt, MidAt, At;
    var y := Below1(x, i);
    assert x.Mid? ==> (x.a * ENTRIES + i) / ENTRIES == x.a by { Halves(if x.Mid? then x.a else 0, i); }
    assert forall pl: Place :: Under(y, pl) ==> Under(x, pl);
    assert Under(x, y);
    PrunedMaps(m, u, before, v);
    PrunedChildren(m, u, before, v, x, i);
    forall pl: Place | InTree(m, pl) && !Under(x, pl)
      ensures At(v, pl) == At(m, pl)
    {
      assert InTree(u, pl) && InTree(before, pl) && pl != y;
    }
    forall p | p in m.owner && !Under(x, m.owner[p])
      ensures Stays(m, v, p)
    {
      assert Stays(m, u, p) && Stays(u, before, p);
    }
  }

  lemma PrunedMaps<T>(m: Mem<T>, u: Mem<T>, before: Mem<T>, v: Mem<T>)
    requires SameMaps(m, u) && SameMaps(u, before) && SameMaps(before, v) && SameRoots(m, u) && SameRoots(u, before)
             && SameRoots(before, v)
    ensures SameMaps(m, v) && SameRoots(m, v)
  {
    hide Leaf;
  }

  lemma PrunedChildren<T>(m: Mem<T>, u: Mem<T>, before: Mem<T>, v: Mem<T>, x: Place, i: nat)
    requires (x.Root? || x.Mid?) && i < ENTRIES && Pruned(m, u, x, i) && Pruned(u, before, Below1(x, i), ENTRIES)
    requires Trees(before, v, Below1(x, i), 0)
    ensures forall j: nat :: j < i + 1 && InTree(m, Below1(x, j)) ==> At(v, Below1(x, j)) == 0
  {
    hide Leaf, LowAt, MidAt, At;
    forall j: nat | j < i + 1 && InTree(m, Below1(x, j))
      ensures At(v, Below1(x, j)) == 0
    {
      assert InTree(u, Below1(x, j)) && InTree(before, Below1(x, j));
    }
  }

  lemma PruneSkip<T>(m: Mem<T>, u: Mem<T>, x: Place, t: nat, i: nat)
    requires (x.Root? || x.Mid? || x.Low?) && Pruned(m, u, x, i)
    requires !x.Low? && InTree(m, Below1(x, i)) ==> At(u, Below1(x, i)) == 0
    ensures Pruned(m, u, x, i + 1)
  {
    hide At, Leaf;
  }

  // ----- the end of an address space

  /** Nothing belongs to address space r any more; every other map, owner and page is as it
      was. */
  ghost predicate SpaceFreed<T>(m: Mem<T>, t: Mem<T>, r: nat) {
    && (forall q: nat :: InTree(t, Root(q)) <==> q != r && InTree(m, Root(q)))
    && (forall q: nat, w: nat :: InTree(t, Root(q)) && w < PAGES ==> Leaf(t, q, w) == Leaf(m, q, w))
    && (forall p :: p in t.owner && !t.owner[p].Pending? ==> t.owner[p].r != r)
    && (forall p :: p in t.owner ==> p in m.owner && t.owner[p] == m.owner[p])
    && (forall p :: p in m.owner && (m.owner[p].Pending? || m.owner[p].r != r) ==> Stays(m, t, p))
  }

  lemma EmptySpace<T>(m: Mem<T>, m1: Mem<T>, r: nat, n: nat)
    requires Inv(m1) && Shrunk(m, m1, r, 0, n) && InTree(m, Root(r)) && forall w: nat :: n <= w < PAGES ==>
               Leaf(m, r, w) == 0
    ensures InTree(m1, Root(r)) && At(m1, Root(r)) == r && r != 0 && IsTable(m1, r) && NoLeaves(m1, Root(r))
  {
    hide Leaf;
    RootThere(m1, r);
  }

  lemma FreedSpace<T>(m: Mem<T>, m1: Mem<T>, b: Mem<T>, r: nat, n: nat, junk: T)
    requires Shrunk(m, m1, r, 0, n) && Inv(b) && Pruned(m1, b, Root(r), ENTRIES) && InTree(m, Root(r))
             && InTree(m1, Root(r))
    ensures r < |b.pages| && Inv(Freed(b, r, junk)) && SpaceFreed(m, Freed(b, r, junk), r)
  {
    NoMids(m1, b, r);
    RootRemovedKeeps(b, r, junk);
    FreedStays(m, m1, b, r, n, junk);
  }

  lemma NoMids<T>(m1: Mem<T>, b: Mem<T>, r: nat)
    requires Inv(b) && Pruned(m1, b, Root(r), ENTRIES) && InTree(m1, Root(r))
    ensures InTree(b, Root(r)) && forall a: nat :: MidAt(b, r, a) == 0
  {
    hide Leaf, LowAt;
    assert InTree(b, Root(r));
    forall a: nat
      ensures MidAt(b, r, a) == 0
    {
      if a < ENTRIES {
        assert RootEntryOk(Entry(b, r, a), a);
        assert InTree(m1, Below1(Root(r), a)) ==> At(b, Below1(Root(r), a)) == 0;
      }
    }
  }

  lemma FreedStays<T>(m: Mem<T>, m1: Mem<T>, b: Mem<T>, r: nat, n: nat, junk: T)
    requires Shrunk(m, m1, r, 0, n) && Pruned(m1, b, Root(r), ENTRIES) && InTree(b, Root(r)) && r < |b.pages|
    requires (forall q: nat :: InTree(Freed(b, r, junk), Root(q)) <==> q != r && InTree(b, Root(q)))
    requires forall q: nat, v: nat :: InTree(Freed(b, r, junk), Root(q)) && v < PAGES ==>
               Leaf(Freed(b, r, junk), q, v) == Leaf(b, q, v)
    requires forall p :: p in Freed(b, r, junk).owner && !Freed(b, r, junk).owner[p].Pending? ==>
               Freed(b, r, junk).owner[p].r != r
    ensures SpaceFreed(m, Freed(b, r, junk), r)
  {
    hide Leaf, At;
    var t := Freed(b, r, junk);
    forall p | p in m.owner && (m.owner[p].Pending? || m.owner[p].r != r)
      ensures Stays(m, t, p)
    {
      assert KeptUnless(m, m1, p, r, 0, n);
      assert Stays(m1, b, p);
    }
  }
}
