/** The free list of filesystem.c: extents of free blocks in ascending order, taken from
    first fit, merged with their neighbours on return, and rebuilt from the file table. */
module Extents {
  import opened ExtentLists

  // ----- the file table

  /** A file table entry's part in it: startBlock is -1 for a file without blocks. */
  datatype File = File(isUsed: bool, startBlock: int, blockCount: int)

  predicate Claims(f: File, b: int) {
    f.isUsed && f.startBlock != -1 && f.startBlock <= b < f.startBlock + f.blockCount
  }

  /** The block counts of the files that have blocks, whether or not these overlap. */
  function BlockSum(files: seq<File>): int {
    if files == [] then 0
    else
      var f := files[|files| - 1];
      BlockSum(files[..|files| - 1]) + if f.isUsed && f.startBlock != -1 && f.blockCount > 0 then f.blockCount else 0
  }

  lemma BlockSumNext(files: seq<File>, i: int)
    requires 0 <= i < |files|
    ensures var f := files[i];
            BlockSum(files[..i + 1])
            == BlockSum(files[..i]) + if f.isUsed && f.startBlock != -1 && f.blockCount > 0 then f.blockCount else 0
  {
    assert files[..i + 1][..i] == files[..i];
  }

  predicate Claimed(files: seq<File>, b: int) {
    exists i :: 0 <= i < |files| && Claims(files[i], b)
  }

  /** No two files claim one block. */
  ghost predicate Disjoint(files: seq<File>) {
    forall i, j, b :: 0 <= i < j < |files| && Claims(files[i], b) ==> !Claims(files[j], b)
  }

  ghost predicate Inside(files: seq<File>, lo: int, hi: int) {
    forall i, b :: 0 <= i < |files| && Claims(files[i], b) ==> lo <= b < hi
  }

  /** The free blocks are those of the disk that no file claims. */
  ghost predicate Complement(list: seq<Extent>, files: seq<File>, lo: int, hi: int) {
    forall b :: Free(list, b) <==> lo <= b < hi && !Claimed(files, b)
  }

  /** The list, the claims and the disk fit: a block is free or claimed by one file. */
  ghost predicate Fits(list: seq<Extent>, files: seq<File>, lo: int, hi: int) {
    Canonical(list) && Complement(list, files, lo, hi) && Disjoint(files) && Inside(files, lo, hi)
  }

  /** For one set of claims there is one list, whatever the order of the entries. */
  lemma OneList(a: seq<Extent>, files: seq<File>, c: seq<Extent>, others: seq<File>, lo: int, hi: int)
    requires Canonical(a) && Complement(a, files, lo, hi)
    requires Canonical(c) && Complement(c, others, lo, hi)
    requires multiset(files) == multiset(others)
    ensures a == c
  {
    hide Free, Canonical;
    forall b
      ensures Free(a, b) <==> Free(c, b)
    {
      Reordered(files, others, b);
      Reordered(others, files, b);
    }
    CanonicalUnique(a, c);
  }

  lemma Reordered(files: seq<File>, others: seq<File>, b: int)
    requires multiset(files) == multiset(others)
    ensures Claimed(files, b) ==> Claimed(others, b)
  {
    if i :| 0 <= i < |files| && Claims(files[i], b) {
      assert files[i] in multiset(files);
      assert files[i] in others;
    }
  }

  /** One entry changed. */
  lemma ClaimedWith(files: seq<File>, k: int, f: File, b: int)
    requires 0 <= k < |files|
    ensures Claimed(files[k := f], b) ==> Claims(f, b) || Claimed(files, b)
    ensures Claims(f, b) ==> Claimed(files[k := f], b)
    ensures Claimed(files, b) && !Claims(files[k], b) ==> Claimed(files[k := f], b)
    ensures Disjoint(files) && Claims(files[k], b) && !Claims(f, b) ==> !Claimed(files[k := f], b)
  {
    var new' := files[k := f];
    if i :| 0 <= i < |new'| && Claims(new'[i], b) {
      assert i != k ==> Claims(files[i], b);
    }
    if i :| 0 <= i < |files| && Claims(files[i], b) {
      assert i != k ==> Claims(new'[i], b);
    }
    assert Claims(new'[k], b) <==> Claims(f, b);
  }

  // ----- what the operations do to the fit

  /** The first extent with room for count blocks. */
  predicate FirstFit(list: seq<Extent>, i: int, count: int) {
    0 <= i < |list| && Size(list[i]) >= count && forall j :: 0 <= j < i ==> Size(list[j]) < count
  }

  /** A file without blocks gets the allocated ones. */
  lemma FirstBlocksFit(was: seq<Extent>, list: seq<Extent>, files: seq<File>, k: int, start: int, count: int, lo: int,
                       hi: int)
    requires Fits(was, files, lo, hi) && Canonical(list) && Lost(list, was, start, count)
    requires 0 <= k < |files| && files[k].isUsed && files[k].startBlock == -1 && start != -1
    ensures Fits(list, files[k := File(true, start, count)], lo, hi)
  {
    hide Free, Canonical;
    var f := File(true, start, count);
    forall b
      ensures Free(list, b) <==> lo <= b < hi && !Claimed(files[k := f], b)
    {
      ClaimedWith(files, k, f, b);
    }
    NewClaims(was, files, k, f, lo, hi);
  }

  /** Claims that only grow by free blocks stay disjoint and inside the disk. */
  lemma NewClaims(was: seq<Extent>, files: seq<File>, k: int, f: File, lo: int, hi: int)
    requires Complement(was, files, lo, hi) && Disjoint(files) && Inside(files, lo, hi) && 0 <= k < |files|
    requires forall b :: Claims(f, b) && !Claims(files[k], b) ==> Free(was, b)
    ensures Disjoint(files[k := f]) && Inside(files[k := f], lo, hi)
  {
    hide Free;
    var g := files[k := f];
    forall i, j, b | 0 <= i < j < |g| && Claims(g[i], b)
      ensures !Claims(g[j], b)
    {
      OneClaim(was, files, k, f, if i == k then j else i, b, lo, hi);
    }
    forall i, b | 0 <= i < |g| && Claims(g[i], b)
      ensures lo <= b < hi
    {
      assert i != k ==> Claims(files[i], b);
    }
  }

  lemma OneClaim(was: seq<Extent>, files: seq<File>, k: int, f: File, i: int, b: int, lo: int, hi: int)
    requires Complement(was, files, lo, hi) && Disjoint(files) && 0 <= k < |files| && 0 <= i < |files| && i != k
    requires Claims(f, b) && !Claims(files[k], b) ==> Free(was, b)
    ensures !(Claims(f, b) && Claims(files[i], b))
  {
    assert Claims(files[i], b) ==> Claimed(files, b);
  }

  /** First fit would take count blocks from block at on. */
  ghost predicate AllocatesAt(list: seq<Extent>, count: int, at: int) {
    exists i :: FirstFit(list, i, count) && list[i].first == at
  }

  lemma OneFirstFit(list: seq<Extent>, i: int, count: int, at: int)
    requires FirstFit(list, i, count)
    ensures AllocatesAt(list, count, at) <==> list[i].first == at
  {
    if j :| FirstFit(list, j, count) && list[j].first == at {
      assert i < j || j < i || i == j;
    }
  }

  /** A growing file fits afterwards exactly when first fit, asked for the missing blocks,
      starts behind the file's last one: nothing in fs_write makes it, and only the count is
      recorded. (A count below zero, which a write or shrink with a negative size leaves, adds
      blocks that no one will claim.) */
  lemma GrownFits(was: seq<Extent>, i: int, list: seq<Extent>, files: seq<File>, k: int, more: int, lo: int, hi: int)
    requires Fits(was, files, lo, hi) && FirstFit(was, i, more) && more > 0 && 0 <= k < |files|
    requires Canonical(list) && Lost(list, was, was[i].first, more)
    requires files[k].isUsed && files[k].startBlock != -1
    ensures Fits(list, files[k := files[k].(blockCount := files[k].blockCount + more)], lo, hi) <==>
            files[k].blockCount >= 0 && AllocatesAt(was, more, files[k].startBlock + files[k].blockCount)
  {
    hide Fits, AllocatesAt, Lost, Canonical;
    GrownAt(was, list, files, k, was[i].first, more, lo, hi);
    OneFirstFit(was, i, more, files[k].startBlock + files[k].blockCount);
  }

  lemma GrownAt(was: seq<Extent>, list: seq<Extent>, files: seq<File>, k: int, start: int, more: int, lo: int, hi: int)
    requires Fits(was, files, lo, hi) && Canonical(list) && Lost(list, was, start, more) && more > 0 && 0 <= k < |files|
    requires files[k].isUsed && files[k].startBlock != -1
    ensures Fits(list, files[k := files[k].(blockCount := files[k].blockCount + more)], lo, hi) <==>
            files[k].blockCount >= 0 && start == files[k].startBlock + files[k].blockCount
  {
    hide Free, Canonical;
    var f := files[k].(blockCount := files[k].blockCount + more);
    var end := files[k].startBlock + files[k].blockCount;
    forall b
      ensures start == end && files[k].blockCount >= 0 ==>
                (Free(list, b) <==> lo <= b < hi && !Claimed(files[k := f], b))
    {
      ClaimedWith(files, k, f, b);
    }
    if start == end && files[k].blockCount >= 0 {
      NewClaims(was, files, k, f, lo, hi);
    } else {
      Misplaced(was, list, files, k, start, more, lo, hi);
    }
  }

  /** Such a growth: block 4 is allocated to file 0, which then claims block 3 of file 1. */
  lemma GrowthCanOverlap()
    ensures var was, files := [Extent(4, 9)], [File(true, 2, 1), File(true, 3, 1)];
            && Fits(was, files, 2, 10) && FirstFit(was, 0, 1) && was[0].first == 4 && !AllocatesAt(was, 1, 3)
            && !Fits([Extent(5, 9)], files[0 := File(true, 2, 2)], 2, 10)
  {
    var was, files := [Extent(4, 9)], [File(true, 2, 1), File(true, 3, 1)];
    forall b
      ensures Free(was, b) <==> 2 <= b < 10 && !Claimed(files, b)
    {
      FreeOfOne(was[0], b);
      assert Claims(files[0], b) || Claims(files[1], b) ==> Claimed(files, b);
    }
    var grown := files[0 := File(true, 2, 2)];
    assert Claims(grown[0], 3) && Claims(grown[1], 3);
  }

  lemma Misplaced(was: seq<Extent>, list: seq<Extent>, files: seq<File>, k: int, start: int, more: int, lo: int,
                  hi: int)
    requires Fits(was, files, lo, hi) && Lost(list, was, start, more) && more > 0 && 0 <= k < |files|
    requires files[k].isUsed && files[k].startBlock != -1
    requires start != files[k].startBlock + files[k].blockCount || files[k].blockCount < 0
    ensures !Fits(list, files[k := files[k].(blockCount := files[k].blockCount + more)], lo, hi)
  {
    hide Free, Canonical;
    var f := files[k].(blockCount := files[k].blockCount + more);
    var end := files[k].startBlock + files[k].blockCount;
    var g := files[k := f];
    var at := if files[k].blockCount < 0 then files[k].startBlock else end;
    var b := if start < at then start else start + more - 1;  // allocated, but not recorded
    ClaimedWith(files, k, f, b);
    assert Free(was, b) && !Claimed(files, b) && !Free(list, b) && !Claimed(g, b);
  }

  /** Blocks at the end of a file given back. */
  lemma ShrunkFits(was: seq<Extent>, list: seq<Extent>, files: seq<File>, k: int, keep: int, f: File, lo: int, hi: int)
    requires Fits(was, files, lo, hi) && 0 <= k < |files|
    requires files[k].isUsed && files[k].startBlock != -1 && 0 <= keep <= files[k].blockCount
    requires Gained(list, was, files[k].startBlock + keep, files[k].blockCount - keep)
    requires f == files[k].(blockCount := keep) || (keep == 0 && f == files[k].(isUsed := false))
    ensures Complement(list, files[k := f], lo, hi) && (Fits(list, files[k := f], lo, hi) <==> Canonical(list))
  {
    hide Free, Canonical;
    forall b
      ensures Free(list, b) <==> lo <= b < hi && !Claimed(files[k := f], b)
    {
      ClaimedWith(files, k, f, b);
      assert Claims(files[k], b) ==> Claimed(files, b);
    }
    NewClaims(was, files, k, f, lo, hi);
  }

  predicate Asks(file: File, needed: int) {
    file.startBlock == -1 || needed > file.blockCount
  }

  /** How many blocks fs_write asks the allocator for. */
  function Missing(file: File, needed: int): int {
    if file.startBlock == -1 then needed else if needed > file.blockCount then needed - file.blockCount else 0
  }

  /** Where free_blocks puts an extent that begins with this block. */
  predicate Position(list: seq<Extent>, start: int, i: int) {
    && 0 <= i <= |list| && (forall j :: 0 <= j < i ==> list[j].first < start)
    && (i < |list| ==> list[i].first >= start)
  }

  ghost predicate IsPutBack(t: seq<Extent>, list: seq<Extent>, start: int, end: int) {
    exists i :: Position(list, start, i) && t == PutBack(list, i, start, end)
  }

  /** Blocks of the disk that are not free. */
  ghost predicate CanReturn(list: seq<Extent>, start: int, count: int, lo: int, hi: int) {
    && count >= 0 && (count > 0 ==> lo <= start && start + count <= hi)
    && forall b :: start <= b < start + count ==> !Free(list, b)
  }

  /** An extent ends just before the block or begins with it. */
  predicate Touched(list: seq<Extent>, start: int) {
    exists j :: 0 <= j < |list| && (list[j].last + 1 == start || list[j].first == start)
  }

  // ----- sizes below zero

  /** The blocks for a size in bytes; C's division truncates towards zero. */
  function BlocksFor(size: int): int {
    if size + 511 >= 0 then (size + 511) / 512 else -((-(size + 511)) / 512)
  }

  /** cli.c passes any number on; most negative ones still round up to no blocks. */
  lemma BelowZero(size: int)
    ensures BlocksFor(size) < 0 <==> size <= -1023
    ensures size >= 0 ==> (BlocksFor(size) - 1) * 512 < size <= BlocksFor(size) * 512
  {
  }

  /** Allocating a negative number of blocks moves the start of the first extent backwards,
      over a block that is not free: that fits no table with a file of that many blocks. */
  lemma NegativeFirst(was: seq<Extent>, list: seq<Extent>, files: seq<File>, k: int, count: int, lo: int, hi: int)
    requires Fits(was, files, lo, hi) && was != [] && count < 0 && list == FrontLeft(was, 0, count)
    requires 0 <= k < |files| && files[k].isUsed && files[k].startBlock == -1
    ensures !Fits(list, files[k := File(true, was[0].first, count)], lo, hi)
  {
    var b := was[0].first - 1;
    ClaimedWith(files, k, File(true, was[0].first, count), b);
    FirstFree(was, b);
    assert Has(list[0], b) && Free(list, b);
    assert Has(was[0], b + 1) && Free(was, b + 1);
    assert lo <= b ==> Claimed(files, b);
  }

  /** Nothing before the first extent is free. */
  lemma FirstFree(list: seq<Extent>, b: int)
    requires Canonical(list) && list != [] && b < list[0].first
    ensures !Free(list, b)
  {
  }

  /** Giving back a block that is free already leaves two extents that overlap. */
  lemma FreedTwice(list: seq<Extent>, i: int, start: int, end: int, b: int)
    requires Canonical(list) && Position(list, start, i) && start <= b <= end && Free(list, b)
    ensures !Canonical(PutBack(list, i, start, end))
  {
    hide PutBack;
    var j :| 0 <= j < |list| && Has(list[j], b);
    var prev, next := i > 0 && list[i - 1].last + 1 == start, i < |list| && end + 1 == list[i].first;
    var n := if prev then i - 1 else i;
    PutBackHas(list, i, start, end, b);
    var at := if j < i then j else j + (if next then 0 else 1) - (if prev then 1 else 0);
    PutBackKeeps(list, i, start, end, j, at);
    Overlap(PutBack(list, i, start, end), n, at, b);
  }

  lemma PutBackHas(list: seq<Extent>, i: int, start: int, end: int, b: int)
    requires Canonical(list) && Position(list, start, i) && start <= b <= end
    ensures var n := if i > 0 && list[i - 1].last + 1 == start then i - 1 else i;
            n < |PutBack(list, i, start, end)| && Has(PutBack(list, i, start, end)[n], b)
  {
  }

  /** An extent that does not merge with the range is still there. */
  lemma PutBackKeeps(list: seq<Extent>, i: int, start: int, end: int, j: int, at: int)
    requires 0 <= i <= |list| && 0 <= j < |list|
    requires var prev, next := i > 0 && list[i - 1].last + 1 == start, i < |list| && end + 1 == list[i].first;
             && !(prev && j == i - 1) && !(next && j == i)
             && at == if j < i then j else j + (if next then 0 else 1) - (if prev then 1 else 0)
    ensures 0 <= at < |PutBack(list, i, start, end)| && PutBack(list, i, start, end)[at] == list[j]
  {
  }

  lemma Overlap(t: seq<Extent>, n: int, m: int, b: int)
    requires 0 <= n < |t| && 0 <= m < |t| && n != m && Has(t[n], b) && Has(t[m], b)
    ensures !Canonical(t)
  {
    assert n < m || m < n;
  }

  /** A file shrunk below zero blocks gives back blocks in front of it. */
  lemma NegativeShrunk(was: seq<Extent>, list: seq<Extent>, files: seq<File>, k: int, blocks: int, lo: int, hi: int)
    requires Fits(was, files, lo, hi) && 0 <= k < |files| && files[k].isUsed && files[k].startBlock != -1
    requires blocks < 0 && blocks < files[k].blockCount
    requires IsPutBack(list, was, files[k].startBlock + blocks, files[k].startBlock + files[k].blockCount - 1)
    ensures !Fits(list, files[k := files[k].(blockCount := blocks)], lo, hi)
  {
    hide PutBack, Canonical, Free;
    var start, end := files[k].startBlock + blocks, files[k].startBlock + files[k].blockCount - 1;
    var i :| Position(was, start, i) && list == PutBack(was, i, start, end);
    if Free(was, start) {
      FreedTwice(was, i, start, end, start);
    } else {
      PutBackThere(was, i, start, end);
      ClaimedWith(files, k, files[k].(blockCount := blocks), start);
    }
  }

  lemma PutBackThere(list: seq<Extent>, i: int, start: int, end: int)
    requires Canonical(list) && Position(list, start, i) && start <= end
    ensures Free(PutBack(list, i, start, end), start)
  {
    var t := PutBack(list, i, start, end);
    var n := if i > 0 && list[i - 1].last + 1 == start then i - 1 else i;
    assert Has(t[n], start);
  }

  /** A file with a count below zero, deleted: its entry takes blocks off the list. */
  lemma NegativeDeleted(was: seq<Extent>, list: seq<Extent>, files: seq<File>, k: int, lo: int, hi: int)
    requires Fits(was, files, lo, hi) && 0 <= k < |files| && files[k].isUsed && files[k].startBlock != -1
             && files[k].blockCount < 0
    requires IsPutBack(list, was, files[k].startBlock, files[k].startBlock + files[k].blockCount - 1)
    ensures !Fits(list, files[k := files[k].(isUsed := false)], lo, hi)
  {
    hide PutBack, Canonical, Free, Claimed;
    var start, end := files[k].startBlock, files[k].startBlock + files[k].blockCount - 1;
    var i :| Position(was, start, i) && list == PutBack(was, i, start, end);
    NegativeBack(was, i, start, end);
    ClaimedWith(files, k, files[k].(isUsed := false), start - 1);
  }

  /** A negative number of blocks put back: an empty extent, or the end of the extent before
      cut off. */
  lemma NegativeBack(list: seq<Extent>, i: int, start: int, end: int)
    requires Canonical(list) && Position(list, start, i) && end + 1 < start
    ensures var t := PutBack(list, i, start, end); !Canonical(t) || (Free(list, start - 1) && !Free(t, start - 1))
  {
    var t := PutBack(list, i, start, end);
    if i > 0 && list[i - 1].last + 1 == start {
      CutBack(list, i, start, end);
      assert Has(list[i - 1], start - 1);
      NotInList(list, i - 1, end, start - 1);
    } else {
      assert t[i] == Extent(start, end);
    }
  }

  lemma CutBack(list: seq<Extent>, i: int, start: int, end: int)
    requires Position(list, start, i) && end + 1 < start && i > 0 && list[i - 1].last + 1 == start
    ensures PutBack(list, i, start, end) == list[i - 1 := Extent(list[i - 1].first, end)]
  {
  }

  /** The end of an extent cut off is on no other extent. */
  lemma NotInList(list: seq<Extent>, j: int, end: int, b: int)
    requires Canonical(list) && 0 <= j < |list| && Has(list[j], b) && end < b
    ensures !Free(list[j := Extent(list[j].first, end)], b)
  {
  }

  /** `shrink` to minus one block: block 2 of file 0 becomes free. */
  lemma ShrinkBelowZero()
    ensures var was, files := [Extent(4, 9)], [File(true, 2, 1), File(true, 3, 1)];
            && Fits(was, files, 2, 10) && PutBack(was, 0, 3 + -1, 3) == [Extent(2, 9)] && BlocksFor(-1023) == -1
            && !Fits([Extent(2, 9)], files[1 := File(true, 3, -1)], 2, 10)
  {
    GrowthCanOverlap();
    assert Position([Extent(4, 9)], 2, 0) && PutBack([Extent(4, 9)], 0, 2, 3) == [Extent(2, 9)];
    NegativeShrunk([Extent(4, 9)], [Extent(2, 9)], [File(true, 2, 1), File(true, 3, 1)], 1, -1, 2, 10);
  }

  // ----- the disk

  class Disk {
    const total: int
    const meta: int  // get_meta_blocks()
    var list: seq<Extent>
    var used: int
    var files: seq<File>

    /** A newly formatted disk. */
    constructor (total: int, meta: int, maxFiles: nat)
      requires 0 <= meta < total
      ensures this.total == total && this.meta == meta && Valid() && Fits(list, files, meta, total)
      ensures |files| == maxFiles && used == meta
    {
      this.total, this.meta := total, meta;
      list, used := [Extent(meta, total - 1)], meta;
      files := seq(maxFiles, _ => File(false, 0, 0));
      new;
      Whole(list, meta, total);
      NoClaims(files);
    }

    /** The list is canonical, inside the disk, and used_blocks counts the rest. */
    ghost predicate Valid()
      reads this
    {
      0 <= meta < total && Canonical(list) && Bounded(list, meta, total) && used + Total(list) == total
    }

    /** allocate_blocks: from the first extent that is large enough, or -1. */
    method Allocate(count: int) returns (r: int)
      requires Valid()
      modifies this`list, this`used
      ensures Valid() <==> count >= 0 || r == -1 || meta <= r + count
      ensures r == -1 ==>
                list == old(list) && used == old(used) && forall i :: 0 <= i < |list| ==> Size(list[i]) < count
      ensures r != -1 ==> used == old(used) + count && (count >= 0 ==> Lost(list, old(list), r, count))
      ensures r != -1 ==> meta <= r
      ensures r != -1 ==>
                exists i ::
                  FirstFit(old(list), i, count) && old(list)[i].first == r && list == FrontLeft(old(list), i, count)
    {
      hide Free, Total, Canonical;
      var i := 0;
      while i < |list|
        invariant 0 <= i <= |list| && forall j :: 0 <= j < i ==> Size(list[j]) < count
      {
        var available := Size(list[i]);
        if available >= count {
          r := list[i].first;
          assert FirstFit(list, i, count);
          FrontTaken(list, i, count, meta, total);
          FrontMoved(list, i, count, meta, total);
          if available == count {
            list := list[..i] + list[i + 1..];
          } else {
            list := list[i := Extent(list[i].first + count, list[i].last)];
          }
          assert list == FrontLeft(old(list), i, count);
          used := used + count;
          return;
        }
        i := i + 1;
      }
      r := -1;
    }

    /** The second half of free_blocks: the new extent between extents i-1 and i. */
    method Merge(i: int, start: int, end: int)
      requires 0 <= i <= |list|
      modifies this`list
      ensures list == PutBack(old(list), i, start, end)
    {
      var mergedWithPrev := i > 0 && list[i - 1].last + 1 == start;
      if mergedWithPrev {
        list := list[i - 1 := Extent(list[i - 1].first, end)];
      }
      if i < |list| && end + 1 == list[i].first {
        if mergedWithPrev {
          list := list[i - 1 := Extent(list[i - 1].first, list[i].last)];
          list := list[..i] + list[i + 1..];
        } else {
          list := list[i := Extent(start, list[i].last)];
        }
      } else if !mergedWithPrev {
        list := list[..i] + [Extent(start, end)] + list[i..];
      }
    }

    /** free_blocks: the new extent merges with the one before, the one after, both, or
        neither. For blocks that can be given back the list gains them. For no blocks it gains
        an empty extent, unless an extent ends just before or begins at the start. */
    method FreeBlocks(start: int, count: int)
      requires Valid()
      modifies this`list, this`used
      ensures used == old(used) - count
      ensures IsPutBack(list, old(list), start, start + count - 1)
      ensures CanReturn(old(list), start, count, meta, total) ==> Gained(list, old(list), start, count)
      ensures CanReturn(old(list), start, count, meta, total) ==> (Valid() <==> count > 0 || Touched(old(list), start))
      ensures CanReturn(old(list), start, count, meta, total) && !Valid() ==> !Canonical(list)
    {
      hide Free, Total, Bounded, Canonical;
      var end := start + count - 1;
      var i := 0;
      while i < |list| && list[i].first < start
        invariant 0 <= i <= |list| && forall j :: 0 <= j < i ==> list[j].first < start
      {
        i := i + 1;
      }
      Ordered(list, start, i);
      Merge(i, start, end);
      if CanReturn(old(list), start, count, meta, total) {
        if count > 0 {
          Clear(old(list), i, start, end);
          Returned(old(list), i, start, end, meta, total, list);
        } else {
          EmptyBack(old(list), i, start, list);
        }
      }
      used := used - count;
    }

    /** The body of remove_range_from_freelist's loop: the range leaves extent i, and the
        result is the index of the extent after what is left of it. */
    method Cut(i: int, start: int, end: int) returns (next: int)
      requires 0 <= i < |list|
      modifies this`list
      ensures list == Replaced(old(list), i, i + 1, Left(old(list)[i], start, end))
      ensures next == i + |Left(old(list)[i], start, end)|
    {
      var e := list[i];
      next := i + 1;
      if e.last >= start && e.first <= end {
        if start <= e.first && end >= e.last {
          list := list[..i] + list[i + 1..];
          next := i;
        } else if start <= e.first {
          list := list[i := Extent(end + 1, e.last)];
        } else if end >= e.last {
          list := list[i := Extent(e.first, start - 1)];
        } else {
          list := list[i := Extent(e.first, start - 1)];
          list := list[..i + 1] + [Extent(end + 1, e.last)] + list[i + 1..];
          next := i + 2;
        }
      }
    }

    /** remove_range_from_freelist: whatever of the range is on the list. */
    method RemoveRange(start: int, count: int)
      requires 0 <= meta < total && Canonical(list) && Bounded(list, meta, total) && count > 0
      modifies this`list
      ensures Canonical(list) && Bounded(list, meta, total)
      ensures forall b :: Free(list, b) <==> Free(old(list), b) && !(start <= b < start + count)
      ensures (forall b :: start <= b < start + count ==> Free(old(list), b)) ==>
                Total(list) == Total(old(list)) - count
    {
      hide Free, Total, Canonical, Bounded, Left, Replaced;
      var end := start + count - 1;
      var i := 0;
      ghost var orig, k := list, 0;  // list[i..] is orig[k..], and list[..i] what is left of orig[..k]
      NoneFree(list[..0]);
      while i < |list|
        invariant 0 <= i <= |list| && 0 <= k <= |orig| && list[i..] == orig[k..]
        invariant Canonical(list) && Bounded(list, meta, total)
        invariant forall b :: Free(list[..i], b) <==> Free(orig[..k], b) && !(start <= b <= end)
        decreases |orig| - k
      {
        RemoveTurn(list, orig, i, k, start, end, meta, total);
        i := Cut(i, start, end);
        k := k + 1;
      }
      assert list[..i] == list && orig[..k] == orig;
      Removed(orig, list, start, end, meta, total);
    }

    /** The part of load_metadata that follows the reads: the list and the count are built
        again from the file table, and they fit it. */
    method LoadMetadata()
      requires 0 <= meta < total
      modifies this`list, this`used
      ensures Canonical(list) && Complement(list, files, meta, total)
      ensures Disjoint(files) && Inside(files, meta, total) ==> Valid()
      ensures used == meta + BlockSum(files)
    {
      hide Free, Total, Canonical, Bounded, Claimed, Disjoint, Inside;
      list, used := [Extent(meta, total - 1)], meta;
      Whole(list, meta, total);
      var i := 0;
      NoneClaimed(files[..0]);
      while i < |files|
        invariant 0 <= i <= |files|
        invariant Canonical(list) && Bounded(list, meta, total)
        invariant forall b :: Free(list, b) <==> meta <= b < total && !Claimed(files[..i], b)
        invariant Disjoint(files) && Inside(files, meta, total) ==> used + Total(list) == total
        invariant used == meta + BlockSum(files[..i])
      {
        BlockSumNext(files, i);
        NextClaims(files, i, files[..i], files[..i + 1], meta, total);
        var file := files[i];
        if file.isUsed && file.startBlock != -1 && file.blockCount > 0 {
          assert forall b :: Claims(file, b) <==> file.startBlock <= b < file.startBlock + file.blockCount;
          StillFree(list, files, i, files[..i], meta, total);
          used := used + file.blockCount;
          RemoveRange(file.startBlock, file.blockCount);
        } else {
          assert forall b :: !Claims(file, b);
        }
        i := i + 1;
      }
      assert files[..i] == files;
    }

    /** The blocks that fs_write needs for file k. Table and list fit afterwards, but for a
        growth that first fit does not start right behind the file, and for first blocks of a
        negative number. */
    method Write(k: int, needed: int) returns (ok: bool)
      requires Valid() && Fits(list, files, meta, total)
      requires 0 <= k < |files| && files[k].isUsed
      modifies this`list, this`used, this`files
      ensures |files| == |old(files)| && (needed >= 0 || old(files[k]).startBlock != -1 ==> Valid())
      ensures !ok <==>
              Asks(old(files[k]), needed) && forall i :: 0 <= i < |old(list)| ==>
                Size(old(list)[i]) < Missing(old(files[k]), needed)
      ensures !ok ==> list == old(list) && used == old(used) && files == old(files)
      ensures ok ==> used == old(used) + Missing(old(files[k]), needed)
      ensures ok && old(files[k]).startBlock == -1 ==> (Fits(list, files, meta, total) <==> needed >= 0)
      ensures ok && old(files[k]).startBlock == -1 ==>
                exists i ::
                  FirstFit(old(list), i, needed) && files == old(files)[k := File(true, old(list)[i].first, needed)]
      ensures ok && old(files[k]).startBlock != -1 && needed <= old(files[k]).blockCount ==>
                list == old(list) && files == old(files)
      ensures ok && old(files[k]).startBlock != -1 && needed > old(files[k]).blockCount ==>
                files == old(files)[k := old(files[k]).(blockCount := needed)]
      ensures ok && old(files[k]).startBlock != -1 && needed > old(files[k]).blockCount ==>
                (Fits(list, files, meta, total) <==>
                 && old(files[k]).blockCount >= 0
                 && AllocatesAt(old(list), needed - old(files[k]).blockCount,
                                old(files[k]).startBlock + old(files[k]).blockCount))
    {
      hide Free, Total, Bounded, Claimed, Disjoint, Inside, Lost, AllocatesAt;
      var file := files[k];
      if file.startBlock == -1 {
        var start := Allocate(needed);
        if start == -1 {
          return false;
        }
        if needed >= 0 {
          FirstBlocksFit(old(list), list, files, k, start, needed, meta, total);
        } else {
          ghost var i :| FirstFit(old(list), i, needed) && old(list)[i].first == start
                      && list == FrontLeft(old(list), i, needed);
          NegativeFit(old(list), i, needed);
          NegativeFirst(old(list), list, files, k, needed, meta, total);
        }
        files := files[k := File(true, start, needed)];
      } else if needed > file.blockCount {
        var start := Allocate(needed - file.blockCount);
        if start == -1 {
          return false;
        }
        ghost var i :| FirstFit(old(list), i, needed - file.blockCount) && old(list)[i].first == start;
        GrownFits(old(list), i, list, files, k, needed - file.blockCount, meta, total);
        files := files[k := file.(blockCount := needed)];
      }
      ok := true;
    }

    /** The blocks that fs_shrink gives back, for a new size in blocks. Table and list fit
        afterwards exactly when that is not negative, or nothing is given back. */
    method Shrink(k: int, blocks: int)
      requires Valid() && Fits(list, files, meta, total)
      requires 0 <= k < |files| && files[k].isUsed && files[k].startBlock != -1
      modifies this`list, this`used, this`files
      ensures Valid() && Fits(list, files, meta, total) <==> blocks >= 0 || blocks >= old(files[k].blockCount)
      ensures var kept := if blocks < old(files[k].blockCount) then blocks else old(files[k].blockCount);
              files == old(files)[k := old(files[k]).(blockCount := kept)]
              && used == old(used) - (old(files[k].blockCount) - kept)
    {
      hide Free, Total, Bounded, Gained, Canonical, Fits, CanReturn, IsPutBack;
      var file := files[k];
      var freed := file.blockCount - blocks;
      if freed > 0 {
        TailClaimed(list, files, k, blocks, meta, total);
        FreeBlocks(file.startBlock + blocks, freed);
        if blocks >= 0 {
          ShrunkFits(old(list), list, files, k, blocks, file.(blockCount := blocks), meta, total);
        } else {
          NegativeShrunk(old(list), list, files, k, blocks, meta, total);
        }
        files := files[k := file.(blockCount := blocks)];
      }
    }

    /** The blocks and the entry that fs_delete gives back. A file that was shrunk to no
        blocks puts an empty extent on the list, unless its place touches a free one. */
    method Delete(k: int)
      requires Valid() && Fits(list, files, meta, total) && 0 <= k < |files| && files[k].isUsed
      modifies this`list, this`used, this`files
      ensures files == old(files)[k := old(files[k]).(isUsed := false)]
      ensures old(files[k]).startBlock == -1 || old(files[k]).blockCount >= 0 ==> Complement(list, files, meta, total)
      ensures used == old(used) - (if old(files[k]).startBlock == -1 then 0 else old(files[k]).blockCount)
      ensures Valid() && Fits(list, files, meta, total) <==>
              || old(files[k]).startBlock == -1 || old(files[k]).blockCount > 0
              || (old(files[k]).blockCount == 0 && Touched(old(list), old(files[k]).startBlock))
    {
      hide Free, Total, Bounded, Gained, Touched, Canonical, Fits, CanReturn, IsPutBack, Complement;
      var file := files[k];
      if file.startBlock != -1 {
        TailClaimed(list, files, k, 0, meta, total);
        FreeBlocks(file.startBlock, file.blockCount);
        if file.blockCount >= 0 {
          ShrunkFits(old(list), list, files, k, 0, file.(isUsed := false), meta, total);
        } else {
          NegativeDeleted(old(list), list, files, k, meta, total);
        }
      } else {
        NothingClaimed(list, files, k, file.(isUsed := false), meta, total);
      }
      files := files[k := file.(isUsed := false)];
    }
  }

  // ----- steps of the methods

  lemma Whole(list: seq<Extent>, meta: int, total: int)
    requires meta < total && list == [Extent(meta, total - 1)]
    ensures Canonical(list) && Bounded(list, meta, total) && Total(list) == total - meta
    ensures forall b :: Free(list, b) <==> meta <= b < total
  {
    Short(list);
  }

  lemma NoneFree(list: seq<Extent>)
    requires list == []
    ensures forall b :: !Free(list, b)
  {
  }

  lemma NoClaims(files: seq<File>)
    requires forall i :: 0 <= i < |files| ==> !files[i].isUsed
    ensures Disjoint(files) && forall b :: !Claimed(files, b)
  {
  }

  lemma NoneClaimed(files: seq<File>)
    requires files == []
    ensures forall b :: !Claimed(files, b)
  {
  }

  function FrontLeft(list: seq<Extent>, i: int, count: int): seq<Extent>
    requires 0 <= i < |list|
  {
    list[..i] + (if Size(list[i]) == count then [] else [Extent(list[i].first + count, list[i].last)]) + list[i + 1..]
  }

  /** A negative number of blocks fits the first extent. */
  lemma NegativeFit(list: seq<Extent>, i: int, count: int)
    requires Canonical(list) && FirstFit(list, i, count) && count < 0
    ensures i == 0
  {
    assert Size(list[0]) >= 1;
  }

  lemma FrontMoved(list: seq<Extent>, i: int, count: int, lo: int, hi: int)
    requires Canonical(list) && Bounded(list, lo, hi) && FirstFit(list, i, count)
    ensures lo <= list[i].first && Total(FrontLeft(list, i, count)) == Total(list) - count
    ensures count < 0 ==> Canonical(FrontLeft(list, i, count))
    ensures count < 0 ==> (Bounded(FrontLeft(list, i, count), lo, hi) <==> lo <= list[i].first + count)
  {
    hide Canonical, Bounded, FrontLeft, Total;
    if count < 0 {
      NegativeFit(list, i, count);
      MovedIs(list, count);
      MovedBack(list, list[0 := Extent(list[0].first + count, list[0].last)], count, lo, hi);
    } else {
      FrontTaken(list, i, count, lo, hi);
    }
  }

  lemma MovedIs(list: seq<Extent>, count: int)
    requires list != [] && Canonical(list) && count < 0
    ensures FrontLeft(list, 0, count) == list[0 := Extent(list[0].first + count, list[0].last)]
  {
    hide Canonical;
    Neighbours(list, 0);
  }

  lemma MovedBack(list: seq<Extent>, t: seq<Extent>, count: int, lo: int, hi: int)
    requires list != [] && count < 0 && t == list[0 := Extent(list[0].first + count, list[0].last)]
    ensures Canonical(list) ==> Canonical(t)
    ensures Canonical(list) && Bounded(list, lo, hi) ==>
              lo <= list[0].first && (Bounded(t, lo, hi) <==> lo <= list[0].first + count)
    ensures Total(t) == Total(list) - count
  {
    assert t[1..] == list[1..];
    hide Total;
    assert forall j :: 1 <= j < |t| ==> t[j] == list[j];
    assert Total(t) == Size(t[0]) + Total(t[1..]) && Total(list) == Size(list[0]) + Total(list[1..]) by {
      TotalHead(t);
      TotalHead(list);
    }
    assert Bounded(t, lo, hi) ==> lo <= t[0].first;
  }

  lemma TotalHead(list: seq<Extent>)
    requires list != []
    ensures Total(list) == Size(list[0]) + Total(list[1..])
  {
  }

  lemma FrontTaken(list: seq<Extent>, i: int, count: int, lo: int, hi: int)
    requires Canonical(list) && Bounded(list, lo, hi) && 0 <= i < |list| && count <= Size(list[i])
    ensures count >= 0 ==> Canonical(FrontLeft(list, i, count)) && Bounded(FrontLeft(list, i, count), lo, hi)
    ensures count >= 0 ==> Total(FrontLeft(list, i, count)) == Total(list) - count
    ensures count >= 0 ==> Lost(FrontLeft(list, i, count), list, list[i].first, count) && lo <= list[i].first
  {
    hide Free, Total, Left, FrontLeft, Lost, Replaced;
    LostNone(list, list[i].first);
    if count >= 0 {
      FrontIs(list, i, count);
    }
    if count > 0 {
      var start, end, t := list[i].first, list[i].first + count - 1, FrontLeft(list, i, count);
      Taken(list, i, start, end, lo, hi);
      assert t == Replaced(list, i, i + 1, Left(list[i], start, end));
      LostUpTo(t, list, start, end);
    }
  }

  lemma LostNone(list: seq<Extent>, start: int)
    ensures Lost(list, list, start, 0)
  {
  }

  lemma LostUpTo(t: seq<Extent>, list: seq<Extent>, start: int, end: int)
    requires forall b :: Free(t, b) <==> Free(list, b) && !(start <= b <= end)
    requires forall b :: start <= b <= end ==> Free(list, b)
    ensures Lost(t, list, start, end - start + 1)
  {
    hide Free;
  }

  lemma FrontIs(list: seq<Extent>, i: int, count: int)
    requires Canonical(list) && 0 <= i < |list| && 0 <= count <= Size(list[i])
    ensures count == 0 ==> FrontLeft(list, i, count) == list
    ensures count > 0 ==>
              FrontLeft(list, i, count)
              == Replaced(list, i, i + 1, Left(list[i], list[i].first, list[i].first + count - 1))
  {
    var e := list[i];
    assert e.first <= e.last;
    assert list == list[..i] + [e] + list[i + 1..];
  }

  /** One turn of remove_range's loop, at extent k of the original list: t is the list after it. */
  lemma RemovedOne(list: seq<Extent>, orig: seq<Extent>, i: int, k: int, start: int, end: int, lo: int, hi: int,
                   t: seq<Extent>, n: int)
    requires Canonical(list) && Bounded(list, lo, hi) && 0 <= i < |list| && 0 <= k < |orig| && list[i..] == orig[k..]
             && start <= end
    requires forall b :: Free(list[..i], b) <==> Free(orig[..k], b) && !(start <= b <= end)
    requires t == Replaced(list, i, i + 1, Left(list[i], start, end)) && n == i + |Left(list[i], start, end)|
    ensures Canonical(t) && Bounded(t, lo, hi) && n <= |t| && t[n..] == orig[k + 1..]
    ensures forall b :: Free(t[..n], b) <==> Free(orig[..k + 1], b) && !(start <= b <= end)
  {
    hide Free;
    var e, left := list[i], Left(list[i], start, end);
    LeftOf(e, start, end);
    ReplacedCanonical(list, i, i + 1, left);
    ReplacedBounded(list, i, i + 1, left, lo, hi);
    assert e == orig[k..][0] == orig[k] && list[i + 1..] == list[i..][1..] && orig[k + 1..] == orig[k..][1..];
    assert t[n..] == list[i + 1..] && t[..n] == list[..i] + left && orig[..k + 1] == orig[..k] + [e];
    forall b
      ensures Free(t[..n], b) <==> Free(orig[..k + 1], b) && !(start <= b <= end)
    {
      FreeOfSum(list[..i], left, b);
      FreeOfSum(orig[..k], [e], b);
      FreeOfOne(e, b);
    }
  }

  lemma Ordered(list: seq<Extent>, start: int, i: int)
    requires Canonical(list) && 0 <= i <= |list| && forall j :: 0 <= j < i ==> list[j].first < start
    requires i < |list| ==> list[i].first >= start
    ensures Position(list, start, i)
  {
  }

  /** What free_blocks makes of no blocks. */
  lemma EmptyBack(list: seq<Extent>, i: int, start: int, t: seq<Extent>)
    requires Canonical(list) && 0 <= i <= |list| && t == PutBack(list, i, start, start - 1)
    requires (forall j :: 0 <= j < i ==> list[j].first < start) && (i < |list| ==> list[i].first >= start)
    ensures Touched(list, start) ==> t == list
    ensures !Touched(list, start) ==> !Canonical(t)
    ensures Gained(t, list, start, 0)
  {
    hide Free, Gained;
    TouchedThere(list, i, start);
    if Touched(list, start) {
      assert t == list;
      NothingGained(list, start);
    } else {
      assert t == list[..i] + [Extent(start, start - 1)] + list[i..];
      assert t[i] == Extent(start, start - 1);
      EmptyAdded(list, i, Extent(start, start - 1), start);
    }
  }

  lemma TouchedThere(list: seq<Extent>, i: int, start: int)
    requires Canonical(list) && 0 <= i <= |list|
    requires (forall j :: 0 <= j < i ==> list[j].first < start) && (i < |list| ==> list[i].first >= start)
    ensures Touched(list, start) <==> (i > 0 && list[i - 1].last + 1 == start) || (i < |list| && list[i].first == start)
  {
    forall j | 0 <= j < |list| && j != i - 1 && j != i
      ensures list[j].last + 1 != start && list[j].first != start
    {
      assert if j < i then list[j].last + 1 < list[i - 1].first else list[i].first <= list[i].last < list[j].first;
    }
  }

  lemma NothingGained(list: seq<Extent>, start: int)
    ensures Gained(list, list, start, 0)
  {
  }

  lemma EmptyAdded(list: seq<Extent>, i: int, e: Extent, start: int)
    requires 0 <= i <= |list| && e.last < e.first
    ensures Gained(list[..i] + [e] + list[i..], list, start, 0)
  {
    hide Free;
    forall b
      ensures Free(list[..i] + [e] + list[i..], b) <==> Free(list, b)
    {
      assert list == list[..i] + list[i..];
      FreeOfSum(list[..i] + [e], list[i..], b);
      FreeOfSum(list[..i], [e], b);
      FreeOfSum(list[..i], list[i..], b);
      FreeOfOne(e, b);
    }
  }

  lemma RemoveTurn(list: seq<Extent>, orig: seq<Extent>, i: int, k: int, start: int, end: int, lo: int, hi: int)
    requires Canonical(list) && Bounded(list, lo, hi) && 0 <= i < |list| && 0 <= k <= |orig| && list[i..] == orig[k..]
             && start <= end
    requires forall b :: Free(list[..i], b) <==> Free(orig[..k], b) && !(start <= b <= end)
    ensures k < |orig|
    ensures var t, n := Replaced(list, i, i + 1, Left(list[i], start, end)), i + |Left(list[i], start, end)|;
            && Canonical(t) && Bounded(t, lo, hi) && n <= |t| && t[n..] == orig[k + 1..]
            && forall b :: Free(t[..n], b) <==> Free(orig[..k + 1], b) && !(start <= b <= end)
  {
    assert |list[i..]| == |orig[k..]|;
    RemovedOne(list, orig, i, k, start, end, lo, hi,
               Replaced(list, i, i + 1, Left(list[i], start, end)), i + |Left(list[i], start, end)|);
  }

  /** When all of the range was free, its blocks are what the list lost: by uniqueness. */
  lemma Removed(orig: seq<Extent>, list: seq<Extent>, start: int, end: int, lo: int, hi: int)
    requires Canonical(orig) && Bounded(orig, lo, hi) && Canonical(list) && start <= end
    requires forall b :: Free(list, b) <==> Free(orig, b) && !(start <= b <= end)
    ensures (forall b :: start <= b <= end ==> Free(orig, b)) ==> Total(list) == Total(orig) - (end - start + 1)
  {
    hide Free, Total, Canonical, Bounded;
    if forall b :: start <= b <= end ==> Free(orig, b) {
      var i := Within(orig, start, end);
      Taken(orig, i, start, end, lo, hi);
      CanonicalUnique(list, Replaced(orig, i, i + 1, Left(orig[i], start, end)));
    }
  }

  /** The claims of the first i files and of the next one. */
  lemma NextClaims(files: seq<File>, i: int, was: seq<File>, now: seq<File>, lo: int, hi: int)
    requires 0 <= i < |files| && was == files[..i] && now == files[..i + 1]
    ensures forall b :: Claimed(now, b) <==> Claimed(was, b) || Claims(files[i], b)
    ensures Disjoint(files) ==> forall b :: Claims(files[i], b) ==> !Claimed(was, b)
    ensures Inside(files, lo, hi) ==> forall b :: Claims(files[i], b) ==> lo <= b < hi
  {
    forall b
      ensures Claimed(now, b) <==> Claimed(was, b) || Claims(files[i], b)
      ensures Disjoint(files) && Claims(files[i], b) ==> !Claimed(was, b)
    {
      if j :| 0 <= j < |now| && Claims(now[j], b) {
        assert j < i ==> Claims(was[j], b);
      }
      if j :| 0 <= j < |was| && Claims(was[j], b) {
        assert Claims(now[j], b) && Claims(files[j], b);
      }
      assert now[i] == files[i];
    }
  }

  /** The next file's blocks are all on the list, when no two files overlap. */
  lemma StillFree(list: seq<Extent>, files: seq<File>, i: int, was: seq<File>, lo: int, hi: int)
    requires 0 <= i < |files| && was == files[..i] && files[i].isUsed && files[i].startBlock != -1
    requires forall b :: Free(list, b) <==> lo <= b < hi && !Claimed(was, b)
    ensures Disjoint(files) && Inside(files, lo, hi) ==>
              forall b :: files[i].startBlock <= b < files[i].startBlock + files[i].blockCount ==> Free(list, b)
  {
    hide Free;
    NextClaims(files, i, was, files[..i + 1], lo, hi);
    forall b | files[i].startBlock <= b < files[i].startBlock + files[i].blockCount
      ensures Disjoint(files) && Inside(files, lo, hi) ==> Free(list, b)
    {
      assert Claims(files[i], b);
    }
  }

  lemma TailClaimed(list: seq<Extent>, files: seq<File>, k: int, keep: int, lo: int, hi: int)
    requires Fits(list, files, lo, hi) && 0 <= k < |files| && files[k].isUsed && files[k].startBlock != -1
    ensures 0 <= keep <= files[k].blockCount ==>
              CanReturn(list, files[k].startBlock + keep, files[k].blockCount - keep, lo, hi)
  {
    hide Free, Canonical;
    var first, last := files[k].startBlock, files[k].startBlock + files[k].blockCount - 1;
    assert files[k].blockCount > 0 ==> Claims(files[k], first) && Claims(files[k], last);
    forall b | keep >= 0 && first + keep <= b <= last
      ensures !Free(list, b)
    {
      assert Claims(files[k], b);
    }
  }

  lemma NothingClaimed(list: seq<Extent>, files: seq<File>, k: int, f: File, lo: int, hi: int)
    requires Fits(list, files, lo, hi) && 0 <= k < |files| && files[k].startBlock == -1 && f.startBlock == -1
    ensures Fits(list, files[k := f], lo, hi) && Complement(list, files[k := f], lo, hi)
  {
    hide Free, Canonical;
    forall b
      ensures Claimed(files[k := f], b) <==> Claimed(files, b)
    {
      ClaimedWith(files, k, f, b);
    }
    NewClaims(list, files, k, f, lo, hi);
  }
}
