/** What mappings cost: the tables that are still missing on the way to the pages, and how
    much shorter kalloc's list is once the pages are mapped. */
module PageNeeds {
  import opened PageTable

  predicate IsTablePlace(pl: Place) {
    pl.Mid? || pl.Low?
  }

  /** The tables that walk has to create on its way to page v. */
  function WayMissing<T>(m: Mem<T>, r: nat, v: nat): set<Place> {
    (if MidAt(m, r, v / ENTRIES / ENTRIES) == 0 then {Mid(r, v / ENTRIES / ENTRIES)} else {})
    + if LowAt(m, r, v / ENTRIES) == 0 then {Low(r, v / ENTRIES)} else {}
  }

  function TablesMissing<T>(m: Mem<T>, r: nat, v: nat): (n: nat)
    ensures n <= 2
  {
    |WayMissing(m, r, v)|
  }

  /** The same for several pages: a table that two of them share is needed once. */
  ghost function Missing<T>(m: Mem<T>, r: nat, pages: set<nat>): set<Place> {
    set w, pl | w in pages && pl in WayMissing(m, r, w) :: pl
  }

  /** The pages of RAM that it takes to map these pages to new frames. */
  ghost function Needed<T>(m: Mem<T>, r: nat, pages: set<nat>): nat {
    |pages| + |Missing(m, r, pages)|
  }

  /** In t the tables in `links`, which m lacked, are there as well, and no others; besides
      them k pages of m's free list are in use. */
  ghost predicate Took<T>(m: Mem<T>, t: Mem<T>, links: set<Place>, k: int) {
    && |m.free| == |t.free| + |links| + k
    && (forall pl :: pl in links ==> IsTablePlace(pl) && At(m, pl) == 0)
    && forall pl: Place :: InTree(m, pl) && IsTablePlace(pl) ==> (At(t, pl) != 0 <==> At(m, pl) != 0 || pl in links)
  }

  lemma TookNone<T>(m: Mem<T>)
    ensures Took(m, m, {}, 0)
  {
  }

  lemma TookOn<T>(m: Mem<T>, t: Mem<T>, u: Mem<T>, links: set<Place>, k: int, more: set<Place>, j: int)
    requires Took(m, t, links, k) && Took(t, u, more, j) && SameSpaces(m, t)
    requires forall pl :: pl in links || pl in more ==> InTree(m, pl)
    ensures Took(m, u, links + more, k + j)
  {
    hide At, InTree;
    SpacesKeep(m, t);
    assert |links + more| == |links| + |more|;
  }

  lemma SpacesKeep<T>(m: Mem<T>, t: Mem<T>)
    requires SameSpaces(m, t)
    ensures forall pl: Place :: InTree(m, pl) ==> InTree(t, pl)
  {
  }

  lemma TookSame<T>(m: Mem<T>, t: Mem<T>, u: Mem<T>, links: set<Place>, k: int, j: int)
    requires Took(m, t, links, k) && Took(t, u, {}, j) && SameSpaces(m, t)
    ensures Took(m, u, links, k + j)
  {
    hide At, InTree;
    SpacesKeep(m, t);
  }

  lemma TookFits<T>(m: Mem<T>, t: Mem<T>, links: set<Place>, k: int)
    requires Took(m, t, links, k)
    ensures |links| + k <= |m.free|
  {
  }

  /** Some of the tables `all` were linked, and besides them k pages of the list are in use:
      nothing else was taken, and nothing is lost. */
  ghost predicate TookWithin<T>(m: Mem<T>, t: Mem<T>, all: set<Place>, k: int) {
    exists links :: links <= all && Took(m, t, links, k)
  }

  lemma WithinNone<T>(m: Mem<T>, all: set<Place>)
    ensures TookWithin(m, m, all, 0)
  {
    TookNone(m);
    assert {} <= all;
  }

  lemma WithinSame<T>(m: Mem<T>, t: Mem<T>, u: Mem<T>, all: set<Place>, k: int, j: int)
    requires TookWithin(m, t, all, k) && Took(t, u, {}, j) && SameSpaces(m, t)
    ensures TookWithin(m, u, all, k + j)
  {
    hide Took;
    var links :| links <= all && Took(m, t, links, k);
    TookSame(m, t, u, links, k, j);
  }

  lemma WithinMore<T>(m: Mem<T>, t: Mem<T>, u: Mem<T>, r: nat, pages: set<nat>, k: int, v: nat, j: int)
    requires Took(m, t, Missing(m, r, pages), k) && TookWithin(t, u, WayMissing(t, r, v), j) && SameSpaces(m, t)
    requires InTree(m, Root(r)) && v < PAGES && forall w :: w in pages ==> w < PAGES
    ensures TookWithin(m, u, Missing(m, r, pages + {v}), k + j)
  {
    hide At, Took, WayMissing, Missing, InTree;
    var links :| links <= WayMissing(t, r, v) && Took(t, u, links, j);
    WayAfter(m, t, r, pages, k, v);
    MissingMore(m, r, pages, v);
    MissingInTree(m, r, pages);
    WayInTree(m, r, v);
    TookOn(m, t, u, Missing(m, r, pages), k, links, j);
    assert Missing(m, r, pages) + links <= Missing(m, r, pages + {v});
  }

  lemma WithinAll<T>(m: Mem<T>, t: Mem<T>, r: nat, some: set<nat>, all: set<nat>, k: int)
    requires TookWithin(m, t, Missing(m, r, some), k) && some <= all
    ensures TookWithin(m, t, Missing(m, r, all), k)
  {
    hide Took, WayMissing;
    var links :| links <= Missing(m, r, some) && Took(m, t, links, k);
    assert links <= Missing(m, r, all);
  }

  ghost predicate SameSpaces<T>(m: Mem<T>, t: Mem<T>) {
    forall q: nat :: InTree(t, Root(q)) <==> InTree(m, Root(q))
  }

  /** Pages a .. b-1. */
  ghost function PageRange(a: nat, b: nat): (s: set<nat>)
    requires a <= b
    ensures |s| == b - a && forall w: nat :: w in s <==> a <= w < b
    decreases b - a
  {
    if a == b then {} else PageRange(a, b - 1) + {b - 1}
  }

  lemma RangeMore(a: nat, b: nat)
    requires a <= b
    ensures PageRange(a, b + 1) == PageRange(a, b) + {b} && PageRange(a, a) == {}
  {
  }

  lemma RangeGrows(a: nat, b: nat, c: nat)
    requires a <= b <= c
    ensures PageRange(a, b) <= PageRange(a, c)
  {
  }

  lemma WayInTree<T>(m: Mem<T>, r: nat, v: nat)
    requires InTree(m, Root(r)) && v < PAGES
    ensures forall pl :: pl in WayMissing(m, r, v) ==> InTree(m, pl) && IsTablePlace(pl) && At(m, pl) == 0
  {
    MidWays(m, r, v);
  }

  lemma MissingInTree<T>(m: Mem<T>, r: nat, pages: set<nat>)
    requires InTree(m, Root(r)) && forall w :: w in pages ==> w < PAGES
    ensures forall pl :: pl in Missing(m, r, pages) ==> InTree(m, pl) && IsTablePlace(pl) && At(m, pl) == 0
  {
    hide WayMissing, InTree, At;
    forall pl | pl in Missing(m, r, pages)
      ensures InTree(m, pl) && IsTablePlace(pl) && At(m, pl) == 0
    {
      var w :| w in pages && pl in WayMissing(m, r, w);
      WayInTree(m, r, w);
    }
  }

  lemma MissingNone<T>(m: Mem<T>, r: nat)
    ensures Missing(m, r, {}) == {} && Needed(m, r, {}) == 0
  {
  }

  lemma MissingOne<T>(m: Mem<T>, r: nat, v: nat)
    ensures Missing(m, r, PageRange(v, v + 1)) == WayMissing(m, r, v)
  {
    RangeMore(v, v);
    assert PageRange(v, v + 1) == {v};
    hide WayMissing;
  }

  lemma MissingMore<T>(m: Mem<T>, r: nat, pages: set<nat>, v: nat)
    ensures Missing(m, r, pages + {v}) == Missing(m, r, pages) + WayMissing(m, r, v)
  {
    hide WayMissing;
  }

  /** After some pages, the next one lacks what none of them had to link. */
  lemma WayAfter<T>(m: Mem<T>, t: Mem<T>, r: nat, pages: set<nat>, k: int, v: nat)
    requires Took(m, t, Missing(m, r, pages), k) && InTree(m, Root(r)) && v < PAGES
    ensures WayMissing(t, r, v) == WayMissing(m, r, v) - Missing(m, r, pages)
  {
    hide Missing;
    MidWays(m, r, v);
    var mid, low := Mid(r, v / ENTRIES / ENTRIES), Low(r, v / ENTRIES);
    assert At(t, mid) != 0 <==> At(m, mid) != 0 || mid in Missing(m, r, pages);
    assert At(t, low) != 0 <==> At(m, low) != 0 || low in Missing(m, r, pages);
  }

  /** One more page with the tables on its way. */
  lemma TookMore<T>(m: Mem<T>, t: Mem<T>, u: Mem<T>, r: nat, pages: set<nat>, k: int, v: nat, j: int)
    requires Took(m, t, Missing(m, r, pages), k) && Took(t, u, WayMissing(t, r, v), j) && SameSpaces(m, t)
    requires InTree(m, Root(r)) && v < PAGES && forall w :: w in pages ==> w < PAGES
    ensures Took(m, u, Missing(m, r, pages + {v}), k + j)
  {
    hide At, Took, WayMissing, Missing, InTree;
    WayAfter(m, t, r, pages, k, v);
    MissingMore(m, r, pages, v);
    MissingInTree(m, r, pages);
    WayInTree(m, r, v);
    TookOn(m, t, u, Missing(m, r, pages), k, WayMissing(t, r, v), j);
    assert Missing(m, r, pages) + WayMissing(t, r, v) == Missing(m, r, pages + {v});
  }

  /** The pages have been mapped to new frames since m: their frames and the tables that
      were missing on their ways are what kalloc's list has lost. */
  ghost predicate Paid<T>(m: Mem<T>, t: Mem<T>, r: nat, pages: set<nat>) {
    Took(m, t, Missing(m, r, pages), |pages|)
  }

  lemma PaidNone<T>(m: Mem<T>, r: nat)
    ensures Paid(m, m, r, {})
  {
    hide At, WayMissing;
    MissingNone(m, r);
  }

  lemma PaidMore<T>(m: Mem<T>, t: Mem<T>, u: Mem<T>, r: nat, pages: set<nat>, v: nat)
    requires Paid(m, t, r, pages) && Took(t, u, WayMissing(t, r, v), 1) && SameSpaces(m, t)
    requires InTree(m, Root(r)) && v < PAGES && v !in pages && forall w :: w in pages ==> w < PAGES
    ensures Paid(m, u, r, pages + {v})
  {
    hide Took, Missing, WayMissing, InTree;
    TookMore(m, t, u, r, pages, |pages|, v, 1);
    assert |pages + {v}| == |pages| + 1;
  }

  lemma PaidFits<T>(m: Mem<T>, t: Mem<T>, r: nat, pages: set<nat>)
    requires Paid(m, t, r, pages)
    ensures Needed(m, r, pages) <= |m.free|
  {
  }

  /** Paying page by page is paying at once: with some pages mapped, the list has more than
      the tables on the way to the next page, hence its frame too, if and only if it had what
      all of them need before any was mapped. */
  lemma PaysForNext<T>(m: Mem<T>, t: Mem<T>, r: nat, pages: set<nat>, v: nat)
    requires Paid(m, t, r, pages) && InTree(m, Root(r)) && v < PAGES && v !in pages
    ensures TablesMissing(t, r, v) < |t.free| <==> Needed(m, r, pages + {v}) <= |m.free|
  {
    TablesForNext(m, t, r, pages, |pages|, v);
    assert |pages + {v}| == |pages| + 1;
  }

  lemma TablesForNext<T>(m: Mem<T>, t: Mem<T>, r: nat, pages: set<nat>, k: int, v: nat)
    requires Took(m, t, Missing(m, r, pages), k) && InTree(m, Root(r)) && v < PAGES
    ensures |Missing(m, r, pages + {v})| == |Missing(m, r, pages)| + TablesMissing(t, r, v)
    ensures TablesMissing(t, r, v) <= |t.free| <==> |Missing(m, r, pages + {v})| + k <= |m.free|
  {
    hide WayMissing, Missing;
    WayAfter(m, t, r, pages, k, v);
    MissingMore(m, r, pages, v);
    var was, way := Missing(m, r, pages), WayMissing(t, r, v);
    assert was !! way && Missing(m, r, pages + {v}) == was + way;
  }

  lemma SubsetSize<T>(a: set<T>, b: set<T>)
    requires a <= b
    ensures |a| <= |b|
  {
    assert b == a + (b - a);
  }

  lemma NeededGrows<T>(m: Mem<T>, r: nat, some: set<nat>, all: set<nat>)
    requires some <= all
    ensures |Missing(m, r, some)| <= |Missing(m, r, all)| && Needed(m, r, some) <= Needed(m, r, all)
  {
    hide WayMissing;
    SubsetSize(some, all);
    SubsetSize(Missing(m, r, some), Missing(m, r, all));
  }
}
