/** Lists of extents in ascending order, merged wherever they touch: which blocks they hold,
    how many, and what replacing a few extents does to both. */
module ExtentLists {
  /** Blocks first .. last. */
  datatype Extent = Extent(first: int, last: int)

  function Size(e: Extent): int {
    e.last - e.first + 1
  }

  predicate Has(e: Extent, b: int) {
    e.first <= b <= e.last
  }

  /** Block b is on the list. */
  predicate Free(list: seq<Extent>, b: int) {
    exists i :: 0 <= i < |list| && Has(list[i], b)
  }

  /** No empty extents, in ascending order, and never two that could be one. */
  ghost predicate Canonical(list: seq<Extent>) {
    && (forall i :: 0 <= i < |list| ==> list[i].first <= list[i].last)
    && (forall i, j :: 0 <= i < j < |list| ==> list[i].last + 1 < list[j].first)
  }

  function Total(list: seq<Extent>): int {
    if list == [] then 0 else Size(list[0]) + Total(list[1..])
  }

  // ----- lists in pieces

  lemma FreeOfSum(a: seq<Extent>, c: seq<Extent>, b: int)
    ensures Free(a + c, b) <==> Free(a, b) || Free(c, b)
  {
    if i :| 0 <= i < |a| && Has(a[i], b) {
      assert Has((a + c)[i], b);
    }
    if i :| 0 <= i < |c| && Has(c[i], b) {
      assert Has((a + c)[|a| + i], b);
    }
  }

  lemma {:induction false} TotalOfSum(a: seq<Extent>, c: seq<Extent>)
    ensures Total(a + c) == Total(a) + Total(c)
    decreases |a|
  {
    if a == [] {
      assert a + c == c;
    } else {
      assert (a + c)[1..] == a[1..] + c;
      TotalOfSum(a[1..], c);
    }
  }

  lemma FreeOfOne(e: Extent, b: int)
    ensures Free([e], b) <==> Has(e, b)
  {
    assert [e][0] == e;
  }

  /** A list in three pieces. */
  lemma Around(list: seq<Extent>, i: int, j: int)
    requires 0 <= i <= j <= |list|
    ensures Total(list) == Total(list[..i]) + Total(list[i..j]) + Total(list[j..])
    ensures forall b :: Free(list, b) <==> Free(list[..i], b) || Free(list[i..j], b) || Free(list[j..], b)
  {
    hide Free, Total;
    assert list == list[..i] + list[i..j] + list[j..];
    Pieces(list, list[..i], list[i..j], list[j..]);
  }

  lemma Pieces(list: seq<Extent>, a: seq<Extent>, mid: seq<Extent>, c: seq<Extent>)
    requires list == a + mid + c
    ensures Total(list) == Total(a) + Total(mid) + Total(c)
    ensures forall b :: Free(list, b) <==> Free(a, b) || Free(mid, b) || Free(c, b)
  {
    hide Free, Total;
    TotalOfSum(a + mid, c);
    TotalOfSum(a, mid);
    forall b
      ensures Free(list, b) <==> Free(a, b) || Free(mid, b) || Free(c, b)
    {
      FreeOfSum(a + mid, c, b);
      FreeOfSum(a, mid, b);
    }
  }

  /** The list with the extents i .. j-1 replaced. */
  function Replaced(list: seq<Extent>, i: int, j: int, mid: seq<Extent>): seq<Extent>
    requires 0 <= i <= j <= |list|
  {
    list[..i] + mid + list[j..]
  }

  lemma ReplacedFree(list: seq<Extent>, i: int, j: int, mid: seq<Extent>)
    requires 0 <= i <= j <= |list|
    ensures Total(Replaced(list, i, j, mid)) == Total(list) - Total(list[i..j]) + Total(mid)
    ensures forall b :: Free(Replaced(list, i, j, mid), b) <==> Free(list[..i], b) || Free(mid, b) || Free(list[j..], b)
  {
    hide Free, Total;
    Around(list, i, j);
    Pieces(Replaced(list, i, j, mid), list[..i], mid, list[j..]);
  }

  /** Replacing keeps a list canonical when the new extents are, and fit the gap. */
  lemma ReplacedCanonical(list: seq<Extent>, i: int, j: int, mid: seq<Extent>)
    requires Canonical(list) && 0 <= i <= j <= |list| && Canonical(mid)
    requires mid != [] && i > 0 ==> list[i - 1].last + 1 < mid[0].first
    requires mid != [] && j < |list| ==> mid[|mid| - 1].last + 1 < list[j].first
    ensures Canonical(Replaced(list, i, j, mid))
  {
    hide Canonical, Replaced;
    var r := Replaced(list, i, j, mid);
    forall k | 0 <= k < |r|
      ensures r[k].first <= r[k].last && (k > 0 ==> r[k - 1].last + 1 < r[k].first)
    {
      ReplacedStep(list, i, j, mid, k);
    }
    Ascending(r);
  }

  lemma ReplacedStep(list: seq<Extent>, i: int, j: int, mid: seq<Extent>, k: int)
    requires Canonical(list) && 0 <= i <= j <= |list| && Canonical(mid) && 0 <= k < |Replaced(list, i, j, mid)|
    requires mid != [] && i > 0 ==> list[i - 1].last + 1 < mid[0].first
    requires mid != [] && j < |list| ==> mid[|mid| - 1].last + 1 < list[j].first
    ensures var r := Replaced(list, i, j, mid); r[k].first <= r[k].last && (k > 0 ==> r[k - 1].last + 1 < r[k].first)
  {
    var r := Replaced(list, i, j, mid);
    assert k < i ==> r[k] == list[k];
    assert i <= k < i + |mid| ==> r[k] == mid[k - i];
    assert k >= i + |mid| ==> r[k] == list[k - i - |mid| + j];
    if k > 0 {
      assert k - 1 < i ==> r[k - 1] == list[k - 1];
      assert i <= k - 1 < i + |mid| ==> r[k - 1] == mid[k - 1 - i];
      assert k - 1 >= i + |mid| ==> r[k - 1] == list[k - 1 - i - |mid| + j];
    }
  }

  lemma Ascending(r: seq<Extent>)
    requires forall k :: 0 <= k < |r| ==> r[k].first <= r[k].last && (k > 0 ==> r[k - 1].last + 1 < r[k].first)
    ensures Canonical(r)
  {
    forall i, j | 0 <= i < j < |r|
      ensures r[i].last + 1 < r[j].first
    {
      AscendingFrom(r, i, j);
    }
  }

  lemma {:induction false} AscendingFrom(r: seq<Extent>, i: int, j: int)
    requires forall k :: 0 <= k < |r| ==> r[k].first <= r[k].last && (k > 0 ==> r[k - 1].last + 1 < r[k].first)
    requires 0 <= i < j < |r|
    ensures r[i].last + 1 < r[j].first
    decreases j
  {
    if i < j - 1 {
      AscendingFrom(r, i, j - 1);
    }
  }

  // ----- one list for one set of blocks

  /** The same free blocks make the same list. */
  lemma {:induction false} CanonicalUnique(a: seq<Extent>, c: seq<Extent>)
    requires Canonical(a) && Canonical(c) && forall b :: Free(a, b) <==> Free(c, b)
    ensures a == c
    decreases |a|
  {
    HeadFree(a);
    HeadFree(c);
    if a != [] && c != [] {
      SameHead(a, c);
      forall b
        ensures Free(a[1..], b) <==> Free(c[1..], b)
      {
        SameTail(a, b);
        SameTail(c, b);
      }
      CanonicalUnique(a[1..], c[1..]);
    }
  }

  lemma HeadFree(a: seq<Extent>)
    requires Canonical(a)
    ensures a != [] ==> Free(a, a[0].first) && Free(a, a[0].last) && !Free(a, a[0].last + 1)
    ensures forall b :: Free(a, b) ==> a != [] && a[0].first <= b
  {
    assert a != [] ==> Has(a[0], a[0].first) && Has(a[0], a[0].last);
  }

  lemma SameHead(a: seq<Extent>, c: seq<Extent>)
    requires Canonical(a) && Canonical(c) && a != [] && c != [] && forall b :: Free(a, b) <==> Free(c, b)
    ensures a[0] == c[0]
  {
    HeadFree(a);
    HeadFree(c);
    var x, y := a[0].last + 1, c[0].last + 1;
    assert (Has(a[0], y) ==> Free(a, y)) && (Has(c[0], x) ==> Free(c, x));
  }

  lemma SameTail(a: seq<Extent>, b: int)
    requires Canonical(a) && a != []
    ensures Free(a[1..], b) <==> Free(a, b) && !Has(a[0], b)
  {
    assert a == [a[0]] + a[1..];
    FreeOfSum([a[0]], a[1..], b);
    FreeOfOne(a[0], b);
    if i :| 0 <= i < |a[1..]| && Has(a[1..][i], b) {
      assert a[0].last + 1 < a[i + 1].first;
    }
  }

  // ----- lists changed in one place

  predicate Bounded(list: seq<Extent>, lo: int, hi: int) {
    forall i :: 0 <= i < |list| ==> lo <= list[i].first && list[i].last < hi
  }

  lemma ReplacedBounded(list: seq<Extent>, i: int, j: int, mid: seq<Extent>, lo: int, hi: int)
    requires 0 <= i <= j <= |list| && Bounded(list, lo, hi) && Bounded(mid, lo, hi)
    ensures Bounded(Replaced(list, i, j, mid), lo, hi)
  {
    var r := Replaced(list, i, j, mid);
    forall k | 0 <= k < |r|
      ensures lo <= r[k].first && r[k].last < hi
    {
      assert k >= i + |mid| ==> r[k] == list[k - i - |mid| + j];
    }
  }

  /** Blocks on either side of position i. */
  lemma Sides(list: seq<Extent>, i: int, b: int)
    requires Canonical(list) && 0 <= i <= |list|
    ensures Free(list[..i], b) && i < |list| ==> b + 1 < list[i].first
    ensures Free(list[i..], b) && i > 0 ==> list[i - 1].last + 1 < b
    ensures Free(list[..i], b) ==> Free(list, b)
    ensures Free(list[i..], b) ==> Free(list, b)
  {
    assert list == list[..i] + list[i..];
    FreeOfSum(list[..i], list[i..], b);
    if k :| 0 <= k < |list[..i]| && Has(list[..i][k], b) {
      assert list[k].last >= b;
    }
    if k :| 0 <= k < |list[i..]| && Has(list[i..][k], b) {
      assert list[i + k].first <= b;
    }
  }

  /** Lists of at most two extents. */
  lemma Short(l: seq<Extent>)
    requires |l| <= 2
    ensures Total(l) == (if |l| > 0 then Size(l[0]) else 0) + (if |l| > 1 then Size(l[1]) else 0)
    ensures forall b :: Free(l, b) <==> (|l| > 0 && Has(l[0], b)) || (|l| > 1 && Has(l[1], b))
  {
    if |l| > 1 {
      assert l[1..] == [l[1]] && [l[1]][1..] == [];
    } else if |l| == 1 {
      assert l[1..] == [];
    }
  }

  /** What taking a range leaves of an extent: all of it, nothing, its end, its start, or both. */
  function Left(e: Extent, start: int, end: int): seq<Extent> {
    if e.last < start || e.first > end then [e]
    else if start <= e.first && end >= e.last then []
    else if start <= e.first then [Extent(end + 1, e.last)]
    else if end >= e.last then [Extent(e.first, start - 1)]
    else [Extent(e.first, start - 1), Extent(end + 1, e.last)]
  }

  lemma LeftOf(e: Extent, start: int, end: int)
    requires start <= end && e.first <= e.last
    ensures var l := Left(e, start, end); Canonical(l) && |l| <= 2
    ensures forall b :: Free(Left(e, start, end), b) <==> Has(e, b) && !(start <= b <= end)
    ensures e.first <= start && end <= e.last ==> Total(Left(e, start, end)) == Size(e) - (end - start + 1)
  {
    Short(Left(e, start, end));
  }

  /** Taking a range out of the one extent that holds it. */
  lemma Taken(list: seq<Extent>, i: int, start: int, end: int, lo: int, hi: int)
    requires Canonical(list) && Bounded(list, lo, hi) && 0 <= i < |list|
             && list[i].first <= start <= end <= list[i].last
    ensures Canonical(Replaced(list, i, i + 1, Left(list[i], start, end)))
    ensures Bounded(Replaced(list, i, i + 1, Left(list[i], start, end)), lo, hi)
    ensures Total(Replaced(list, i, i + 1, Left(list[i], start, end))) == Total(list) - (end - start + 1)
    ensures forall b :: Free(Replaced(list, i, i + 1, Left(list[i], start, end)), b) <==>
            Free(list, b) && !(start <= b <= end)
    ensures forall b :: start <= b <= end ==> Free(list, b)
  {
    hide Free, Total;
    var e, left := list[i], Left(list[i], start, end);
    LeftOf(e, start, end);
    ReplacedCanonical(list, i, i + 1, left);
    ReplacedBounded(list, i, i + 1, left, lo, hi);
    ReplacedFree(list, i, i + 1, left);
    Around(list, i, i + 1);
    assert list[i..i + 1] == [e];
    Short([e]);
    forall b
      ensures Free(Replaced(list, i, i + 1, left), b) <==> Free(list, b) && !(start <= b <= end)
    {
      Sides(list, i, b);
      Sides(list, i + 1, b);
    }
  }

  lemma Gap(list: seq<Extent>, i: int)
    requires Canonical(list) && 0 <= i < |list|
    ensures !Free(list, list[i].last + 1)
  {
    forall j | 0 <= j < |list|
      ensures !Has(list[j], list[i].last + 1)
    {
      assert j < i ==> list[j].last + 1 < list[i].first;
    }
  }

  /** A range that is wholly free lies in one extent. */
  lemma Within(list: seq<Extent>, start: int, end: int) returns (i: int)
    requires Canonical(list) && start <= end && forall b :: start <= b <= end ==> Free(list, b)
    ensures 0 <= i < |list| && list[i].first <= start && end <= list[i].last
  {
    assert Free(list, start);
    i :| 0 <= i < |list| && Has(list[i], start);
    Gap(list, i);
  }

  /** e is mid and the range in one: mid has the extents that the range touches. */
  predicate Joins(mid: seq<Extent>, start: int, end: int, e: Extent) {
    match |mid|
    case 0 => e == Extent(start, end)
    case 1 =>
      || (mid[0].last + 1 == start && e == Extent(mid[0].first, end))
      || (end + 1 == mid[0].first && e == Extent(start, mid[0].last))
    case 2 => mid[0].last + 1 == start && end + 1 == mid[1].first && e == Extent(mid[0].first, mid[1].last)
    case _ => false
  }

  /** List t is the list with the range start .. end added. */
  ghost predicate Added(t: seq<Extent>, list: seq<Extent>, start: int, end: int, lo: int, hi: int) {
    && Canonical(t) && Bounded(t, lo, hi) && Total(t) == Total(list) + (end - start + 1)
    && forall b :: Free(t, b) <==> Free(list, b) || start <= b <= end
  }

  lemma Joined(list: seq<Extent>, i: int, j: int, start: int, end: int, e: Extent, lo: int, hi: int)
    requires Canonical(list) && Bounded(list, lo, hi) && 0 <= i <= j <= |list| && start <= end && lo <= start
             && end < hi
    requires Joins(list[i..j], start, end, e)
    requires i > 0 ==> list[i - 1].last + 1 < e.first
    requires j < |list| ==> e.last + 1 < list[j].first
    ensures Added(Replaced(list, i, j, [e]), list, start, end, lo, hi)
  {
    hide Free, Total, Joins;
    JoinsAll(list[i..j], start, end, e, lo, hi);
    ReplacedCanonical(list, i, j, [e]);
    ReplacedBounded(list, i, j, [e], lo, hi);
    ReplacedFree(list, i, j, [e]);
    Around(list, i, j);
  }

  lemma JoinsAll(mid: seq<Extent>, start: int, end: int, e: Extent, lo: int, hi: int)
    requires Joins(mid, start, end, e) && start <= end && lo <= start && end < hi && Bounded(mid, lo, hi)
    requires forall k :: 0 <= k < |mid| ==> mid[k].first <= mid[k].last
    ensures Canonical([e]) && Bounded([e], lo, hi) && Total([e]) == Total(mid) + (end - start + 1)
    ensures forall b :: Free([e], b) <==> Free(mid, b) || start <= b <= end
  {
    hide Free, Total;
    Short(mid);
    Short([e]);
  }

  /** Where a range that is not free lies in the list. */
  lemma Clear(list: seq<Extent>, i: int, start: int, end: int)
    requires Canonical(list) && 0 <= i <= |list| && start <= end
    requires (forall j :: 0 <= j < i ==> list[j].first < start) && (i < |list| ==> list[i].first >= start)
    requires forall b :: start <= b <= end ==> !Free(list, b)
    ensures i > 0 ==> list[i - 1].last < start
    ensures i < |list| ==> end < list[i].first
  {
    assert i > 0 && Has(list[i - 1], start) ==> Free(list, start);
    assert i < |list| ==> Has(list[i], list[i].first) && Free(list, list[i].first);
  }

  // ----- blocks taken and returned

  /** The changed list lost, or gained, the blocks start .. start+count-1. */
  ghost predicate Lost(list: seq<Extent>, was: seq<Extent>, start: int, count: int) {
    && (forall b :: Free(list, b) <==> Free(was, b) && !(start <= b < start + count))
    && (forall b :: start <= b < start + count ==> Free(was, b))
  }

  ghost predicate Gained(list: seq<Extent>, was: seq<Extent>, start: int, count: int) {
    forall b :: Free(list, b) <==> Free(was, b) || start <= b < start + count
  }

  lemma Neighbours(list: seq<Extent>, i: int)
    requires Canonical(list)
    ensures 0 <= i < |list| ==> list[i].first <= list[i].last
    ensures 0 < i < |list| ==> list[i - 1].last + 1 < list[i].first
    ensures 0 <= i < |list| - 1 ==> list[i].last + 1 < list[i + 1].first
  {
  }

  /** The list after the range start .. end went back at position i: merged with the extent
      before, the one after, both, or neither. */
  function PutBack(list: seq<Extent>, i: int, start: int, end: int): seq<Extent>
    requires 0 <= i <= |list|
  {
    var prev, next := i > 0 && list[i - 1].last + 1 == start, i < |list| && end + 1 == list[i].first;
    list[..if prev then i - 1 else i]
    + [Extent(if prev then list[i - 1].first else start, if next then list[i].last else end)]
    + list[if next then i + 1 else i..]
  }

  lemma Returned(list: seq<Extent>, i: int, start: int, end: int, lo: int, hi: int, t: seq<Extent>)
    requires Canonical(list) && Bounded(list, lo, hi) && 0 <= i <= |list| && start <= end && lo <= start && end < hi
    requires (i > 0 ==> list[i - 1].last < start) && (i < |list| ==> end < list[i].first)
             && t == PutBack(list, i, start, end)
    ensures Canonical(t) && Bounded(t, lo, hi) && Total(t) == Total(list) + (end - start + 1)
    ensures Gained(t, list, start, end - start + 1)
  {
    hide Free, Total, Bounded, Canonical;
    AddedBack(list, i, start, end, lo, hi);
  }

  lemma AddedBack(list: seq<Extent>, i: int, start: int, end: int, lo: int, hi: int)
    requires Canonical(list) && Bounded(list, lo, hi) && 0 <= i <= |list| && start <= end && lo <= start && end < hi
    requires (i > 0 ==> list[i - 1].last < start) && (i < |list| ==> end < list[i].first)
    ensures Added(PutBack(list, i, start, end), list, start, end, lo, hi)
  {
    hide Bounded, Canonical, Added, Joins, Replaced, PutBack, PutBackOne;
    var a := if i > 0 && list[i - 1].last + 1 == start then i - 1 else i;
    var b := if i < |list| && end + 1 == list[i].first then i + 1 else i;
    var e := PutBackOne(list, i, start, end);
    PutBackIs(list, i, start, end, a, b);
    PutBackFits(list, i, start, end, a, b);
    Joined(list, a, b, start, end, e, lo, hi);
  }

  /** The one extent that PutBack puts in. */
  function PutBackOne(list: seq<Extent>, i: int, start: int, end: int): Extent
    requires 0 <= i <= |list|
  {
    var prev, next := i > 0 && list[i - 1].last + 1 == start, i < |list| && end + 1 == list[i].first;
    Extent(if prev then list[i - 1].first else start, if next then list[i].last else end)
  }

  lemma PutBackIs(list: seq<Extent>, i: int, start: int, end: int, a: int, b: int)
    requires 0 <= i <= |list|
    requires a == (if i > 0 && list[i - 1].last + 1 == start then i - 1 else i)
    requires b == (if i < |list| && end + 1 == list[i].first then i + 1 else i)
    ensures PutBack(list, i, start, end) == Replaced(list, a, b, [PutBackOne(list, i, start, end)])
    ensures Joins(list[a..b], start, end, PutBackOne(list, i, start, end))
  {
  }

  lemma PutBackFits(list: seq<Extent>, i: int, start: int, end: int, a: int, b: int)
    requires Canonical(list) && 0 <= i <= |list| && start <= end
    requires (i > 0 ==> list[i - 1].last < start) && (i < |list| ==> end < list[i].first)
    requires a == (if i > 0 && list[i - 1].last + 1 == start then i - 1 else i)
    requires b == (if i < |list| && end + 1 == list[i].first then i + 1 else i)
    ensures a > 0 ==> list[a - 1].last + 1 < PutBackOne(list, i, start, end).first
    ensures b < |list| ==> PutBackOne(list, i, start, end).last + 1 < list[b].first
  {
    hide Canonical;
    Neighbours(list, i - 1);
    Neighbours(list, i);
  }
}
