/** Which blocks a write logs, exactly: a bitmap block and the block itself for each
    allocation, the indirect table for each entry stored in it, the data blocks and the
    inode block. And what allocation otherwise leaves alone. */
module Accounting {
  import opened Blocks
  import opened Inodes
  import opened Ownership

  /** The slot that holds the number of the file's n-th block. */
  function SlotOf(n: nat): (k: nat)
    requires n < MAXFILE
    ensures k < NSLOTS && k != NDIRECT
  {
    if n < NDIRECT then n else n + 1
  }

  function Table(s: FsState, i: nat): Word
    requires IsSlot(s.inodes, i, NDIRECT)
  {
    s.inodes[i].addrs[NDIRECT]
  }

  // ----- what goes through the log

  /** From disk d to disk e only blocks in m changed; those that are not in l already have
      been logged since, and lie behind the log. */
  ghost predicate LogWritten(sb: Super, d: seq<Block>, l: set<nat>, e: seq<Block>, m: set<nat>) {
    && |e| == |d| && l <= m && (forall b :: b in m && b !in l ==> sb.inodestart <= b < |d|)
    && forall b: nat :: b !in m ==> At(e, b) == At(d, b)
  }

  lemma NothingWritten(sb: Super, d: seq<Block>, l: set<nat>)
    ensures LogWritten(sb, d, l, d, l)
  {
  }

  lemma LogWrittenOne(sb: Super, d: seq<Block>, l: set<nat>, b: nat, data: Block)
    requires sb.inodestart <= b < |d|
    ensures LogWritten(sb, d, l, d[b := data], l + {b})
  {
  }

  lemma LogWrittenOn(sb: Super, d: seq<Block>, l: set<nat>, e: seq<Block>, m: set<nat>, f: seq<Block>, n: set<nat>)
    requires LogWritten(sb, d, l, e, m) && LogWritten(sb, e, m, f, n)
    ensures LogWritten(sb, d, l, f, n)
  {
  }

  /** A logged change, and one more block logged after it. */
  lemma LogWrittenMore(sb: Super, d: seq<Block>, l: set<nat>, e: seq<Block>, m: set<nat>, b: nat, data: Block)
    requires LogWritten(sb, d, l, e, m) && sb.inodestart <= b < |e|
    ensures LogWritten(sb, d, l, e[b := data], m + {b})
  {
    hide LogWritten;
    LogWrittenOne(sb, e, m, b, data);
    LogWrittenOn(sb, d, l, e, m, e[b := data], m + {b});
  }

  /** What a slot points to can be logged. */
  lemma SlotBehindLog(sb: Super, s: FsState, gone: Gone, i: nat, k: nat)
    requires Consistent(sb, s, gone) && IsSlot(s.inodes, i, k) && !IsGone(gone, i, k) && Val(s, i, k) != 0
    ensures sb.inodestart <= Val(s, i, k) < |s.disk|
  {
    hide Val, Bits;
    BehindLog(sb, Val(s, i, k));
  }

  /** Bitmap blocks and data blocks lie behind the log. */
  lemma BehindLog(sb: Super, b: nat)
    requires Layout(sb, sb.size) && b < sb.size
    ensures sb.inodestart <= BBlock(sb, b) < sb.nmeta <= sb.size && (b >= sb.nmeta ==> sb.inodestart <= b)
  {
    BitmapBlocks(sb, b);
  }

  lemma AllocLogWritten(sb: Super, s: FsState, b: nat, l: set<nat>)
    requires Layout(sb, |s.disk|) && sb.nmeta <= b < sb.size
    ensures LogWritten(sb, s.disk, l, Allocated(sb, s, b).disk, l + {BBlock(sb, b), b})
  {
    BehindLog(sb, b);
  }

  lemma FreedLogWritten(sb: Super, s: FsState, b: nat, l: set<nat>)
    requires Layout(sb, |s.disk|) && b < sb.size
    ensures LogWritten(sb, s.disk, l, Freed(sb, s, b).disk, l + {BBlock(sb, b)})
  {
    BehindLog(sb, b);
  }

  // ----- what allocation leaves alone

  /** Blocks before the bitmap, and with them the inode blocks. */
  ghost predicate SameHead(sb: Super, s: FsState, t: FsState) {
    |t.disk| == |s.disk| && forall b :: 0 <= b < sb.bmapstart ==> At(t.disk, b) == At(s.disk, b)
  }

  /** No block that was in use is given up, and the blocks taken are the first free ones. */
  ghost predicate FirstFree(sb: Super, s: FsState, t: FsState) {
    && s.owner.Keys <= t.owner.Keys
    && forall b, c :: b in t.owner && b !in s.owner && sb.nmeta <= c < b ==> c in t.owner
  }

  /** Slot m holds no block of the file among the k from block `first` on, and no table. */
  predicate Beside(m: nat, first: nat, k: nat) {
    m != NDIRECT && !(first <= (if m < NDIRECT then m else m - 1) < first + k)
  }

  /** Slots that hold what they did: those of other inodes, and those beside k blocks. */
  ghost predicate SlotsBeside(s: FsState, t: FsState, i: nat, first: nat, k: nat) {
    forall j: nat, m: nat :: IsSlot(s.inodes, j, m) && (j != i || Beside(m, first, k)) ==>
      IsSlot(t.inodes, j, m) && Val(t, j, m) == Val(s, j, m)
  }

  /** Slots that were set hold what they did. */
  ghost predicate SlotsSet(s: FsState, t: FsState, i: nat) {
    forall m: nat :: IsSlot(s.inodes, i, m) && Val(s, i, m) != 0 ==>
      IsSlot(t.inodes, i, m) && Val(t, i, m) == Val(s, i, m)
  }

  /** Blocks for at most k blocks of file i, from block `first` on, and for its table. */
  ghost predicate Allotted(sb: Super, s: FsState, t: FsState, i: nat, first: nat, k: nat) {
    FirstFree(sb, s, t) && SlotsBeside(s, t, i, first, k) && SlotsSet(s, t, i)
  }

  ghost predicate Since(sb: Super, s: FsState, t: FsState, i: nat, first: nat, k: nat) {
    SameHead(sb, s, t) && Allotted(sb, s, t, i, first, k)
  }

  lemma SinceNone(sb: Super, s: FsState, i: nat, first: nat)
    ensures Since(sb, s, s, i, first, 0)
  {
    hide Val;
  }

  lemma SinceOn(sb: Super, s: FsState, t: FsState, u: FsState, i: nat, first: nat, k: nat, bn: nat, m: nat)
    requires Since(sb, s, t, i, first, k) && Since(sb, t, u, i, bn, m) && (m == 0 || (bn == first + k && m == 1))
    ensures Since(sb, s, u, i, first, k + m)
  {
    hide Val;
    forall j: nat, x: nat | IsSlot(s.inodes, j, x) && (j != i || Beside(x, first, k + m))
      ensures IsSlot(u.inodes, j, x) && Val(u, j, x) == Val(s, j, x)
    {
      assert j != i || Beside(x, first, k);
      assert j != i || Beside(x, bn, m);
    }
  }

  lemma AllocSince(sb: Super, s: FsState, b: nat, i: nat, first: nat)
    requires Consistent(sb, s, Nothing) && sb.nmeta <= b < sb.size && !Bit(sb, s.disk, b)
    requires forall c: nat :: c < b ==> Bit(sb, s.disk, c)
    ensures Since(sb, s, Allocated(sb, s, b), i, first, 0)
    ensures forall j: nat, m: nat :: IsSlot(s.inodes, j, m) ==> Val(Allocated(sb, s, b), j, m) == Val(s, j, m)
  {
    hide Val, Bit;
    var t := Allocated(sb, s, b);
    AllocKeepsTables(sb, s, b);
    SlotsKept(s, t);
    BitmapBlocks(sb, b);
    forall c | sb.nmeta <= c < b
      ensures c in s.owner
    {
      assert Bit(sb, s.disk, c);
    }
  }

  /** For no blocks it does not matter where. */
  lemma SinceAnywhere(sb: Super, s: FsState, t: FsState, i: nat, first: nat, other: nat)
    requires Since(sb, s, t, i, first, 0)
    ensures Since(sb, s, t, i, other, 0)
  {
    hide Val;
    assert forall m: nat :: Beside(m, other, 0) ==> Beside(m, first, 0);
  }

  /** The store of a fresh block's number in a pointer of the inode. */
  lemma LinkSince(sb: Super, s: FsState, i: nat, k: nat, b: Word)
    requires IsSlot(s.inodes, i, k) && k <= NDIRECT && Val(s, i, k) == 0
             && (k == NDIRECT ==> At(s.disk, b) == ZERO_BLOCK) && b in s.owner
    ensures Since(sb, s, Linked(s, i, k, b), i, k, if k == NDIRECT then 0 else 1)
  {
    LinkSlots(s, i, k, b);
    hide Val;
  }

  /** And in an entry of the table. */
  lemma EntryLinkSince(sb: Super, s: FsState, i: nat, e: nat, b: Word)
    requires Consistent(sb, s, Nothing) && IsSlot(s.inodes, i, NDIRECT) && e < NINDIRECT && b in s.owner
    requires s.inodes[i].addrs[NDIRECT] != 0 && Val(s, i, NDIRECT + 1 + e) == 0
    ensures s.inodes[i].addrs[NDIRECT] < |s.disk|
    ensures Since(sb, s, EntryLinked(s, i, e, b), i, NDIRECT + e, 1)
  {
    hide Val, GetWord, PutWord;
    EntryLinkKeepsSlots(sb, s, i, e, b);
    TableBlocks(sb, s, Nothing, i);
    HeadBelow(sb, s);
  }

  lemma HeadBelow(sb: Super, s: FsState)
    requires Shape(sb, s)
    ensures sb.bmapstart < sb.nmeta
    ensures forall i: nat :: i < |s.inodes| ==> IBlock(sb, i) < sb.bmapstart
  {
  }

  /** A write to a data block that changes no slot. */
  lemma DataSince(sb: Super, s: FsState, t: FsState, i: nat, first: nat, v: nat, data: Block)
    requires Shape(sb, s) && sb.nmeta <= v < |s.disk| && t == s.(disk := s.disk[v := data])
    requires forall j: nat, m: nat :: IsSlot(s.inodes, j, m) ==> Val(t, j, m) == Val(s, j, m)
    ensures Since(sb, s, t, i, first, 0)
  {
    hide Val;
    HeadBelow(sb, s);
  }

  /** What bmap logs for block bn: the allocation of the table and of the block, if they were
      missing, and the store of an entry. */
  function AllocLog(sb: Super, b: nat): set<nat> {
    if b == 0 then {} else {BBlock(sb, b), b}
  }

  function NewLog(sb: Super, t: FsState, i: nat, bn: nat): set<nat>
    requires IsSlot(t.inodes, i, NDIRECT) && bn < MAXFILE
  {
    var v := Val(t, i, SlotOf(bn));
    if v == 0 then {} else AllocLog(sb, v) + if bn < NDIRECT then {} else {Table(t, i)}
  }

  function MapLog(sb: Super, s: FsState, t: FsState, i: nat, bn: nat): set<nat>
    requires IsSlot(s.inodes, i, NDIRECT) && IsSlot(t.inodes, i, NDIRECT) && bn < MAXFILE
  {
    (if bn >= NDIRECT && Table(s, i) == 0 then AllocLog(sb, Table(t, i)) else {})
    + (if Val(s, i, SlotOf(bn)) == 0 then NewLog(sb, t, i, bn) else {})
  }

  lemma MapLogKept(sb: Super, s: FsState, t: FsState, u: FsState, i: nat, bn: nat)
    requires IsSlot(s.inodes, i, NDIRECT) && IsSlot(t.inodes, i, NDIRECT) && bn < MAXFILE && u.inodes == t.inodes
    requires Val(u, i, SlotOf(bn)) == Val(t, i, SlotOf(bn))
    ensures MapLog(sb, s, u, i, bn) == MapLog(sb, s, t, i, bn)
  {
    hide Val;
  }

  // ----- what writei logs

  /** One turn of writei's loop, for a block that was missing in s or not and is there in t. */
  function Fetched(sb: Super, s: FsState, t: FsState, i: nat, bn: nat): set<nat>
    requires IsSlot(s.inodes, i, NDIRECT) && IsSlot(t.inodes, i, NDIRECT) && bn < MAXFILE
  {
    {Val(t, i, SlotOf(bn))} + if Val(s, i, SlotOf(bn)) == 0 then NewLog(sb, t, i, bn) else {}
  }

  function TurnsLog(sb: Super, s: FsState, t: FsState, i: nat, first: nat, k: nat): set<nat>
    requires IsSlot(s.inodes, i, NDIRECT) && IsSlot(t.inodes, i, NDIRECT) && first + k <= MAXFILE
  {
    if k == 0 then {} else TurnsLog(sb, s, t, i, first, k - 1) + Fetched(sb, s, t, i, first + k - 1)
  }

  function TableLog(sb: Super, s: FsState, t: FsState, i: nat): set<nat>
    requires IsSlot(s.inodes, i, NDIRECT) && IsSlot(t.inodes, i, NDIRECT)
  {
    if Table(s, i) == 0 then AllocLog(sb, Table(t, i)) else {}
  }

  /** A write of k blocks from block `first` on that began in state s and left state t. */
  function WriteLog(sb: Super, s: FsState, t: FsState, i: nat, first: nat, k: nat): set<nat>
    requires IsSlot(s.inodes, i, NDIRECT) && IsSlot(t.inodes, i, NDIRECT) && first + k <= MAXFILE
  {
    TableLog(sb, s, t, i) + TurnsLog(sb, s, t, i, first, k)
  }

  /** The k blocks are there. */
  ghost predicate Present(t: FsState, i: nat, first: nat, k: nat)
    requires IsSlot(t.inodes, i, NDIRECT) && first + k <= MAXFILE
  {
    forall bn :: first <= bn < first + k ==> Val(t, i, SlotOf(bn)) != 0
  }

  lemma EntryNeedsTable(s: FsState, i: nat, bn: nat)
    requires IsSlot(s.inodes, i, NDIRECT) && bn < MAXFILE
    ensures bn >= NDIRECT && Val(s, i, SlotOf(bn)) != 0 ==> Table(s, i) != 0
    ensures Val(s, i, NDIRECT) == Table(s, i)
  {
  }

  /** Later steps change nothing in what earlier turns logged. */
  lemma {:induction false} TurnsKept(sb: Super, s: FsState, t: FsState, u: FsState, i: nat, first: nat, k: nat)
    requires IsSlot(s.inodes, i, NDIRECT) && IsSlot(t.inodes, i, NDIRECT) && IsSlot(u.inodes, i, NDIRECT)
             && first + k <= MAXFILE
    requires Present(t, i, first, k) && SlotsSet(t, u, i)
    ensures TurnsLog(sb, s, u, i, first, k) == TurnsLog(sb, s, t, i, first, k) && Present(u, i, first, k)
    decreases k
  {
    hide Val;
    if k > 0 {
      var bn := first + k - 1;
      TurnsKept(sb, s, t, u, i, first, k - 1);
      EntryNeedsTable(t, i, bn);
      EntryNeedsTable(u, i, bn);
      assert Val(u, i, SlotOf(bn)) == Val(t, i, SlotOf(bn)) != 0;
    }
  }

  /** One more turn, from s1 through bmap to t: the block is there and was written, or it is
      not, and the loop ends. */
  lemma LoggedMore(sb: Super, s: FsState, s1: FsState, t: FsState, i: nat, first: nat, k: nat, l0: set<nat>,
                   l1: set<nat>)
    requires IsSlot(s.inodes, i, NDIRECT) && IsSlot(s1.inodes, i, NDIRECT) && IsSlot(t.inodes, i, NDIRECT)
             && first + k < MAXFILE
    requires Since(sb, s, s1, i, first, k) && Since(sb, s1, t, i, first + k, 1) && Present(s1, i, first, k)
    requires first + k < NDIRECT ==> Table(t, i) == Table(s1, i)
    requires l1 == l0 + WriteLog(sb, s, s1, i, first, k)
    ensures Val(t, i, SlotOf(first + k)) != 0 ==>
              Present(t, i, first, k + 1)
              && l1 + MapLog(sb, s1, t, i, first + k) + {Val(t, i, SlotOf(first + k))}
                 == l0 + WriteLog(sb, s, t, i, first, k + 1)
    ensures Val(t, i, SlotOf(first + k)) == 0 ==>
              Present(t, i, first, k) && l1 + MapLog(sb, s1, t, i, first + k) == l0 + WriteLog(sb, s, t, i, first, k)
  {
    hide Val, AllocLog, SameHead, FirstFree;
    var bn := first + k;
    TurnsKept(sb, s, s1, t, i, first, k);
    EntryNeedsTable(s, i, bn);
    EntryNeedsTable(s1, i, bn);
    EntryNeedsTable(t, i, bn);
    NoAllocLog(sb);
    assert Beside(SlotOf(bn), first, k);
    assert Val(s1, i, SlotOf(bn)) == Val(s, i, SlotOf(bn));
    hide SlotsBeside, SlotsSet;
    TablesLogged(sb, s, s1, t, i, bn);
  }

  lemma NoAllocLog(sb: Super)
    ensures AllocLog(sb, 0) == {}
  {
  }

  lemma TablesLogged(sb: Super, s: FsState, s1: FsState, t: FsState, i: nat, bn: nat)
    requires IsSlot(s.inodes, i, NDIRECT) && IsSlot(s1.inodes, i, NDIRECT) && IsSlot(t.inodes, i, NDIRECT)
    requires Table(s, i) != 0 ==> Table(s1, i) == Table(s, i)
    requires Table(s1, i) != 0 || bn < NDIRECT ==> Table(t, i) == Table(s1, i)
    ensures TableLog(sb, s, t, i)
         == TableLog(sb, s, s1, i) + if bn >= NDIRECT && Table(s1, i) == 0 then AllocLog(sb, Table(t, i)) else {}
  {
  }

  // ----- how many blocks that is

  /** The data blocks, and the bitmap blocks of the allocated ones. */
  function DataLog(t: FsState, i: nat, first: nat, k: nat): set<nat>
    requires IsSlot(t.inodes, i, NDIRECT) && first + k <= MAXFILE
  {
    if k == 0 then {} else DataLog(t, i, first, k - 1) + {Val(t, i, SlotOf(first + k - 1))}
  }

  function BitsLog(sb: Super, s: FsState, t: FsState, i: nat, first: nat, k: nat): set<nat>
    requires IsSlot(s.inodes, i, NDIRECT) && IsSlot(t.inodes, i, NDIRECT) && first + k <= MAXFILE
  {
    if k == 0 then {}
    else
      BitsLog(sb, s, t, i, first, k - 1)
      + if Val(s, i, SlotOf(first + k - 1)) == 0 then {BBlock(sb, Val(t, i, SlotOf(first + k - 1)))} else {}
  }

  function NonZero(b: nat): set<nat> {
    if b == 0 then {} else {b}
  }

  lemma {:induction false} TurnsParts(sb: Super, s: FsState, t: FsState, i: nat, first: nat, k: nat)
    requires IsSlot(s.inodes, i, NDIRECT) && IsSlot(t.inodes, i, NDIRECT) && first + k <= MAXFILE
             && Present(t, i, first, k)
    ensures TurnsLog(sb, s, t, i, first, k)
         <= DataLog(t, i, first, k) + BitsLog(sb, s, t, i, first, k) + NonZero(Table(t, i))
    decreases k
  {
    hide Val, BBlock;
    if k > 0 {
      TurnsParts(sb, s, t, i, first, k - 1);
      EntryNeedsTable(t, i, first + k - 1);
      assert Val(t, i, SlotOf(first + k - 1)) != 0;
    }
  }

  lemma {:induction false} DataCount(t: FsState, i: nat, first: nat, k: nat)
    requires IsSlot(t.inodes, i, NDIRECT) && first + k <= MAXFILE
    ensures |DataLog(t, i, first, k)| <= k
    decreases k
  {
    hide Val;
    if k > 0 {
      DataCount(t, i, first, k - 1);
      UnionSize(DataLog(t, i, first, k - 1), {Val(t, i, SlotOf(first + k - 1))});
    }
  }

  lemma {:induction false} BitsCount(sb: Super, s: FsState, t: FsState, i: nat, first: nat, k: nat)
    requires IsSlot(s.inodes, i, NDIRECT) && IsSlot(t.inodes, i, NDIRECT) && first + k <= MAXFILE
    ensures |BitsLog(sb, s, t, i, first, k)| <= if k > 0 && Val(s, i, SlotOf(first)) != 0 then k - 1 else k
    decreases k
  {
    hide Val, BBlock;
    if k > 0 {
      BitsCount(sb, s, t, i, first, k - 1);
      var b := BBlock(sb, Val(t, i, SlotOf(first + k - 1)));
      UnionSize(BitsLog(sb, s, t, i, first, k - 1), {b});
    }
  }

  lemma UnionSize(a: set<nat>, b: set<nat>)
    ensures |a + b| <= |a| + |b|
  {
    assert |a + b| + |a * b| == |a| + |b|;
  }

  predicate AtBoundary(o: nat) {
    o % BSIZE == 0
  }

  /** The blocks that n bytes from offset off on touch. */
  function Touched(off: nat, n: nat): nat {
    if n == 0 then 0 else (off + n - 1) / BSIZE - off / BSIZE + 1
  }

  /** Twice the data blocks, but a first block entered in the middle is there already, and the
      indirect table, its bitmap block and the inode block. */
  function ChunkBlocks(off: nat, n: nat): nat {
    2 * Touched(off, n) + if n == 0 || AtBoundary(off) then 3 else 2
  }

  /** A write and its iupdate log no more than that. */
  lemma WriteFits(sb: Super, s: FsState, t: FsState, i: nat, off: nat, n: nat, inodeBlock: nat)
    requires IsSlot(s.inodes, i, NDIRECT) && IsSlot(t.inodes, i, NDIRECT) && off / BSIZE + Touched(off, n) <= MAXFILE
    requires Present(t, i, off / BSIZE, Touched(off, n))
    requires n > 0 && !AtBoundary(off) ==> off / BSIZE < MAXFILE && Val(s, i, SlotOf(off / BSIZE)) != 0
    ensures |WriteLog(sb, s, t, i, off / BSIZE, Touched(off, n)) + {inodeBlock}| <= ChunkBlocks(off, n)
  {
    hide Val, BBlock, DataLog, BitsLog, TurnsLog, Touched, Present, TableLog;
    var first, k := off / BSIZE, Touched(off, n);
    TurnsParts(sb, s, t, i, first, k);
    DataCount(t, i, first, k);
    BitsCount(sb, s, t, i, first, k);
    TouchedSome(off, n);
    var data, maps, extra := DataLog(t, i, first, k), BitsLog(sb, s, t, i, first, k), BesidesData(sb, t, i, inodeBlock);
    UnionSize(data, maps);
    UnionSize(data + maps, extra);
    ExtraFits(sb, s, t, i, inodeBlock);
    SubsetSize(WriteLog(sb, s, t, i, first, k) + {inodeBlock}, data + maps + extra);
  }

  function BesidesData(sb: Super, t: FsState, i: nat, inodeBlock: nat): set<nat>
    requires IsSlot(t.inodes, i, NDIRECT)
  {
    if Table(t, i) == 0 then {inodeBlock} else {BBlock(sb, Table(t, i)), Table(t, i), inodeBlock}
  }

  lemma ExtraFits(sb: Super, s: FsState, t: FsState, i: nat, inodeBlock: nat)
    requires IsSlot(s.inodes, i, NDIRECT) && IsSlot(t.inodes, i, NDIRECT)
    ensures TableLog(sb, s, t, i) + NonZero(Table(t, i)) + {inodeBlock} <= BesidesData(sb, t, i, inodeBlock)
    ensures |BesidesData(sb, t, i, inodeBlock)| <= 3
  {
    ExtraBlocks(BesidesData(sb, t, i, inodeBlock), BBlock(sb, Table(t, i)), Table(t, i), inodeBlock);
  }

  lemma ExtraBlocks(extra: set<nat>, x: nat, y: nat, z: nat)
    requires extra == {z} || extra == {x, y, z}
    ensures |extra| <= 3
  {
    UnionSize({x}, {y});
    UnionSize({x} + {y}, {z});
    assert {x, y, z} == {x} + {y} + {z};
  }

  lemma TouchedSome(off: nat, n: nat)
    ensures Touched(off, n) > 0 <==> n > 0
  {
  }

  lemma SubsetSize(a: set<nat>, b: set<nat>)
    requires a <= b
    ensures |a| <= |b|
  {
    if a != {} {
      var x :| x in a;
      SubsetSize(a - {x}, b - {x});
    }
  }
}
