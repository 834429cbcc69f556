/** MAXOPBLOCKS is tight: states in which one chunk of filewrite logs as many blocks as an
    operation may, and one such state. */
module Quota {
  import opened Blocks
  import opened DiskWrites
  import opened Inodes
  import opened Ownership
  import opened Accounting
  import opened Fs
  import opened File

  /** The last byte of the last direct block. */
  const LAST_DIRECT: nat := NDIRECT * BSIZE - 1

  /** The next four blocks that balloc finds. */
  ghost predicate NextFree(sb: Super, disk: seq<Block>, f: seq<nat>) {
    && |f| == 4 && sb.nmeta <= f[0] < f[1] < f[2] < f[3] < sb.size
    && forall c: nat :: c <= f[3] ==> (!Bit(sb, disk, c) <==> c in f)
  }

  /** The next four free blocks lie in four bitmap blocks, and a write from the last byte of
      the last direct block on finds no indirect table. */
  ghost predicate WorstCase(sb: Super, s: FsState, i: nat, f: seq<nat>) {
    && Good(sb, s) && i < |s.inodes| && LAST_DIRECT <= s.inodes[i].size
    && |s.inodes[i].addrs| == NDIRECT + 1 && s.inodes[i].addrs[NDIRECT] == 0
    && NextFree(sb, s.disk, f) && forall a, b :: 0 <= a < b < 4 ==> BBlock(sb, f[a]) != BBlock(sb, f[b])
  }

  /** State t is what a write of k blocks from the last direct block on left of state s. */
  ghost predicate Grown(sb: Super, s: FsState, t: FsState, i: nat, k: nat) {
    && Good(sb, s) && Good(sb, t) && IsSlot(s.inodes, i, NDIRECT) && IsSlot(t.inodes, i, NDIRECT)
    && |t.inodes| == |s.inodes|
    && Table(s, i) == 0 && Val(s, i, NDIRECT - 1) != 0 && k <= 4
    && Allotted(sb, s, t, i, NDIRECT - 1, k) && Present(t, i, NDIRECT - 1, k)
  }

  /** The slots that such a write sets: the table, and an entry for each block behind the first. */
  predicate NewSlot(m: nat, k: nat) {
    m == NDIRECT || NDIRECT < m < NDIRECT + k
  }

  /** A block that was free and is not any more is what one of them holds. */
  lemma NewOwner(sb: Super, s: FsState, t: FsState, i: nat, k: nat, b: nat) returns (m: nat)
    requires Grown(sb, s, t, i, k) && b in t.owner && b !in s.owner
    ensures NewSlot(m, k) && m < NSLOTS && Val(t, i, m) == b
  {
    hide Val, FileOk, Bits;
    var p := t.owner[b];
    assert Owns(t, Nothing, p, b);
    m := p.k;
    OldSlot(sb, s, t, i, k, p.inum, m);
  }

  /** Every other slot holds what it did. */
  lemma OldSlot(sb: Super, s: FsState, t: FsState, i: nat, k: nat, j: nat, m: nat)
    requires Grown(sb, s, t, i, k) && IsSlot(t.inodes, j, m)
    ensures IsSlot(s.inodes, j, m) && (j != i || !NewSlot(m, k) ==> Val(t, j, m) == Val(s, j, m))
    ensures Val(t, j, m) != 0 && Val(t, j, m) == Val(s, j, m) ==> Val(t, j, m) in s.owner
  {
    hide Val, FileOk, Bits;
    assert m == NDIRECT - 1 || j != i || NewSlot(m, k) || Beside(m, NDIRECT - 1, k);
  }

  /** What was owned still is, by the slot that held it. */
  lemma StillOwned(sb: Super, s: FsState, t: FsState, i: nat, k: nat, v: nat)
    requires Grown(sb, s, t, i, k) && v in s.owner
    ensures s.owner[v].Ptr? && Owns(s, Nothing, s.owner[v], v) && v in t.owner && t.owner[v] == s.owner[v] && v != 0
  {
    hide Val, FileOk, Bits;
    var p := s.owner[v];
    assert Owns(s, Nothing, p, v);
    assert p.inum == i || Beside(p.k, NDIRECT - 1, k) || !Beside(p.k, NDIRECT - 1, k);
    assert Val(t, p.inum, p.k) == v;
  }

  /** And what such a slot holds was free. */
  lemma NewValue(sb: Super, s: FsState, t: FsState, i: nat, k: nat, m: nat)
    requires Grown(sb, s, t, i, k) && NewSlot(m, k) && m < NSLOTS && Val(t, i, m) != 0
    ensures Val(t, i, m) in t.owner && Val(t, i, m) !in s.owner && sb.nmeta <= Val(t, i, m) < sb.size
            && !Bit(sb, s.disk, Val(t, i, m))
  {
    NoEntries(s, i, m);
    hide Val, FileOk, Bit;
    var v := Val(t, i, m);
    assert v in t.owner && t.owner[v] == Ptr(i, m);
    forall u | u in s.owner
      ensures t.owner[u] == s.owner[u] && Owns(s, Nothing, s.owner[u], u)
    {
      StillOwned(sb, s, t, i, k, u);
    }
  }

  lemma NoEntries(s: FsState, i: nat, m: nat)
    requires IsSlot(s.inodes, i, NDIRECT) && Table(s, i) == 0 && NDIRECT <= m < NSLOTS
    ensures Val(s, i, m) == 0
  {
  }

  /** Four blocks that were free and are not any more need four such slots. */
  lemma FourTaken(sb: Super, s: FsState, t: FsState, i: nat, k: nat, f: seq<nat>)
    requires Grown(sb, s, t, i, k) && NextFree(sb, s.disk, f) && forall a :: 0 <= a < 4 ==> f[a] in t.owner
    ensures k == 4 && forall m: nat :: NewSlot(m, k) && m < NSLOTS ==> Val(t, i, m) in f
  {
    hide Val, Good, Allotted, Present;
    FreeThen(sb, s, f);
    var m0 := NewOwner(sb, s, t, i, k, f[0]);
    var m1 := NewOwner(sb, s, t, i, k, f[1]);
    var m2 := NewOwner(sb, s, t, i, k, f[2]);
    var m3 := NewOwner(sb, s, t, i, k, f[3]);
    assert m0 != m1 && m0 != m2 && m0 != m3 && m1 != m2 && m1 != m3 && m2 != m3;
    assert forall m: nat :: NewSlot(m, k) ==> m in [m0, m1, m2, m3];
  }

  lemma FreeThen(sb: Super, s: FsState, f: seq<nat>)
    requires Good(sb, s) && NextFree(sb, s.disk, f)
    ensures forall a :: 0 <= a < 4 ==> f[a] !in s.owner
  {
    hide Bit, FileOk, Owned, Pointers;
    forall a | 0 <= a < 4
      ensures f[a] !in s.owner
    {
      assert f[a] in f;
      assert Bit(sb, s.disk, f[a]) <==> f[a] < sb.nmeta || f[a] in s.owner;
    }
  }

  lemma FullThen(sb: Super, s: FsState, t: FsState, f: seq<nat>)
    requires Good(sb, t) && NextFree(sb, s.disk, f) && DiskFull(sb, t.disk)
    ensures forall a :: 0 <= a < 4 ==> f[a] in t.owner
  {
    hide Bit, FileOk, Owned, Pointers;
  }

  /** The write takes the next four free blocks. */
  lemma TakesNext(sb: Super, s: FsState, t: FsState, i: nat, f: seq<nat>)
    requires Grown(sb, s, t, i, 4) && NextFree(sb, s.disk, f)
    ensures NoRepeat(NewBlocks(t, i)) && forall a :: 0 <= a < 4 ==>
              NewBlocks(t, i)[a] in f && NewBlocks(t, i)[a] !in s.owner
  {
    hide Val, Grown, NextFree;
    AllSet(sb, s, t, i);
    TakesOne(sb, s, t, i, f, NDIRECT);
    TakesOne(sb, s, t, i, f, NDIRECT + 1);
    TakesOne(sb, s, t, i, f, NDIRECT + 2);
    TakesOne(sb, s, t, i, f, NDIRECT + 3);
    Distinct(sb, s, t, i);
  }

  lemma TakesOne(sb: Super, s: FsState, t: FsState, i: nat, f: seq<nat>, m: nat)
    requires Grown(sb, s, t, i, 4) && NextFree(sb, s.disk, f) && NDIRECT <= m < NDIRECT + 4 && Val(t, i, m) != 0
    ensures Val(t, i, m) in f && Val(t, i, m) !in s.owner
  {
    hide Val, Good, Present, Allotted;
    NewValue(sb, s, t, i, 4, m);
    if Val(t, i, m) > f[3] {
      Passed(sb, s, t, i, 4, f, Val(t, i, m));
      FourTaken(sb, s, t, i, 4, f);
    }
  }

  lemma AllSet(sb: Super, s: FsState, t: FsState, i: nat)
    requires Grown(sb, s, t, i, 4)
    ensures forall m: nat :: NDIRECT <= m < NDIRECT + 4 ==> Val(t, i, m) != 0
  {
    hide Val;
    EntryNeedsTable(t, i, NDIRECT);
    forall m: nat | NDIRECT <= m < NDIRECT + 4
      ensures Val(t, i, m) != 0
    {
      assert SlotOf(NDIRECT) == NDIRECT + 1 && (m > NDIRECT ==> SlotOf(m - 1) == m);
    }
  }

  /** Blocks are taken from the first free one on. */
  lemma Passed(sb: Super, s: FsState, t: FsState, i: nat, k: nat, f: seq<nat>, v: nat)
    requires Grown(sb, s, t, i, k) && NextFree(sb, s.disk, f) && v > f[3] && v in t.owner && v !in s.owner
    ensures forall a :: 0 <= a < 4 ==> f[a] in t.owner
  {
    hide Val, Good, Bit;
  }

  lemma Distinct(sb: Super, s: FsState, t: FsState, i: nat)
    requires Grown(sb, s, t, i, 4)
    ensures forall m: nat, n: nat :: m < n < NSLOTS && Val(t, i, m) != 0 ==> Val(t, i, m) != Val(t, i, n)
  {
    hide Val, FileOk, Bits;
  }

  lemma Steps(tot: nat)
    requires tot <= MAX_CHUNK && (tot == MAX_CHUNK || tot == 0 || AtBoundary(LAST_DIRECT + tot))
    ensures LAST_DIRECT / BSIZE == NDIRECT - 1 && Touched(LAST_DIRECT, tot) <= 4
    ensures Touched(LAST_DIRECT, tot) == 4 <==> tot == MAX_CHUNK
  {
  }

  /** There are blocks enough for all bytes. */
  lemma WroteAll(sb: Super, s: FsState, t: FsState, i: nat, src: seq<Byte>, tot: int, before: set<nat>,
                 after: set<nat>, f: seq<nat>)
    requires WorstCase(sb, s, i, f) && |src| == MAX_CHUNK && Good(sb, t)
    requires Wrote(sb, s, t, i, LAST_DIRECT, src, tot) && Accounts(sb, s, t, i, LAST_DIRECT, tot, before, after)
    ensures tot == |src| && Grown(sb, s, t, i, 4) && after == before + WriteLog(sb, s, t, i, NDIRECT - 1, 4)
  {
    hide Val, Present, Allotted, WriteLog, Touched, Consistent, FileBytes, Splice, DiskFull, AtBoundary;
    Steps(tot);
    GoodFacts(sb, s, i);
    FirstBlock(sb, s, i, LAST_DIRECT);
    NotAligned();
    var k := Touched(LAST_DIRECT, tot);
    assert Grown(sb, s, t, i, k);
    if tot < |src| {
      FullThen(sb, s, t, f);
      FourTaken(sb, s, t, i, k, f);
    }
  }

  lemma NotAligned()
    ensures !AtBoundary(LAST_DIRECT) && SlotOf(LAST_DIRECT / BSIZE) == NDIRECT - 1
  {
  }

  /** The table and the three blocks behind the direct ones. */
  function NewBlocks(t: FsState, i: nat): (v: seq<nat>)
    requires IsSlot(t.inodes, i, NDIRECT)
    ensures |v| == 4
  {
    [Val(t, i, NDIRECT), Val(t, i, NDIRECT + 1), Val(t, i, NDIRECT + 2), Val(t, i, NDIRECT + 3)]
  }

  function Maps(sb: Super, v: seq<nat>): (m: seq<nat>)
    ensures |m| == |v|
  {
    seq(|v|, a requires 0 <= a < |v| => BBlock(sb, v[a]))
  }

  function Elements(q: seq<nat>): set<nat> {
    set x | x in q
  }

  lemma FourTurns(sb: Super, s: FsState, t: FsState, i: nat)
    requires IsSlot(s.inodes, i, NDIRECT) && IsSlot(t.inodes, i, NDIRECT)
    ensures TurnsLog(sb, s, t, i, NDIRECT - 1, 4)
         == Fetched(sb, s, t, i, NDIRECT - 1) + Fetched(sb, s, t, i, NDIRECT) + Fetched(sb, s, t, i, NDIRECT + 1)
           + Fetched(sb, s, t, i, NDIRECT + 2)
  {
    hide Fetched;
    var first := NDIRECT - 1;
    assert TurnsLog(sb, s, t, i, first, 0) == {};
    assert TurnsLog(sb, s, t, i, first, 1) == TurnsLog(sb, s, t, i, first, 0) + Fetched(sb, s, t, i, first + 0);
    assert TurnsLog(sb, s, t, i, first, 2) == TurnsLog(sb, s, t, i, first, 1) + Fetched(sb, s, t, i, first + 1);
    assert TurnsLog(sb, s, t, i, first, 3) == TurnsLog(sb, s, t, i, first, 2) + Fetched(sb, s, t, i, first + 2);
    assert TurnsLog(sb, s, t, i, first, 4) == TurnsLog(sb, s, t, i, first, 3) + Fetched(sb, s, t, i, first + 3);
  }

  lemma EntryFetched(sb: Super, s: FsState, t: FsState, i: nat, bn: nat)
    requires IsSlot(s.inodes, i, NDIRECT) && IsSlot(t.inodes, i, NDIRECT) && NDIRECT <= bn < MAXFILE && Table(s, i) == 0
             && Val(t, i, bn + 1) != 0
    ensures Fetched(sb, s, t, i, bn) == {Val(t, i, bn + 1), BBlock(sb, Val(t, i, bn + 1)), Val(t, i, NDIRECT)}
  {
    NoEntries(s, i, bn + 1);
    AddrVal(t, i, NDIRECT);
    hide Val, BBlock;
  }

  lemma LogIs(sb: Super, s: FsState, t: FsState, i: nat)
    requires Grown(sb, s, t, i, 4)
    ensures WriteLog(sb, s, t, i, NDIRECT - 1, 4)
         == {Val(t, i, NDIRECT - 1)} + Elements(NewBlocks(t, i)) + Elements(Maps(sb, NewBlocks(t, i)))
  {
    hide Val, BBlock, Good, Allotted, Present, Fetched, TurnsLog;
    AllSet(sb, s, t, i);
    FourTurns(sb, s, t, i);
    EntryFetched(sb, s, t, i, NDIRECT);
    EntryFetched(sb, s, t, i, NDIRECT + 1);
    EntryFetched(sb, s, t, i, NDIRECT + 2);
    FirstFetched(sb, s, t, i);
    TableLogged(sb, s, t, i);
    var v := NewBlocks(t, i);
    Union(WriteLog(sb, s, t, i, NDIRECT - 1, 4), Val(t, i, NDIRECT - 1), v, Maps(sb, v));
  }

  lemma FirstFetched(sb: Super, s: FsState, t: FsState, i: nat)
    requires IsSlot(s.inodes, i, NDIRECT) && IsSlot(t.inodes, i, NDIRECT) && Val(s, i, NDIRECT - 1) != 0
    ensures Fetched(sb, s, t, i, NDIRECT - 1) == {Val(t, i, NDIRECT - 1)}
  {
    hide Val;
  }

  lemma TableLogged(sb: Super, s: FsState, t: FsState, i: nat)
    requires IsSlot(s.inodes, i, NDIRECT) && IsSlot(t.inodes, i, NDIRECT) && Table(s, i) == 0 && Val(t, i, NDIRECT) != 0
    ensures TableLog(sb, s, t, i) == {BBlock(sb, Val(t, i, NDIRECT)), Val(t, i, NDIRECT)}
  {
    AddrVal(t, i, NDIRECT);
    hide Val, BBlock;
  }

  lemma Union(log: set<nat>, x: nat, v: seq<nat>, m: seq<nat>)
    requires |v| == 4 && |m| == 4
    requires log == {m[0], v[0]} + ({x} + {v[1], m[1], v[0]} + {v[2], m[2], v[0]} + {v[3], m[3], v[0]})
    ensures log == {x} + Elements(v) + Elements(m)
  {
    assert v == [v[0], v[1], v[2], v[3]] && m == [m[0], m[1], m[2], m[3]];
    assert forall y :: y in log <==> y == x || y in v || y in m;
  }

  ghost predicate NoRepeat(q: seq<nat>) {
    forall a, b :: 0 <= a < b < |q| ==> q[a] != q[b]
  }

  lemma {:induction false} Distinctly(q: seq<nat>)
    requires NoRepeat(q)
    ensures |Elements(q)| == |q|
  {
    if q != [] {
      var k := |q| - 1;
      Distinctly(q[..k]);
      assert q == q[..k] + [q[k]];
      assert Elements(q) == Elements(q[..k]) + {q[k]};
    }
  }

  /** Four blocks in different bitmap blocks, these, another block and an inode block. */
  lemma Ten(sb: Super, x: nat, v: seq<nat>, f: seq<nat>, y: nat)
    requires |v| == 4 && NoRepeat(v) && x !in v && x >= sb.nmeta && forall a :: 0 <= a < 4 ==> v[a] in f
    requires |f| == 4 && forall a, b :: 0 <= a < b < 4 ==> BBlock(sb, f[a]) != BBlock(sb, f[b])
    requires forall a :: 0 <= a < 4 ==> BBlock(sb, f[a]) < sb.nmeta <= f[a]
    requires y < sb.bmapstart < sb.nmeta
    ensures |{x} + Elements(v) + Elements(Maps(sb, v)) + {y}| == 10
  {
    hide NoRepeat;
    var m := Maps(sb, v);
    forall a | 0 <= a < 4
      ensures sb.bmapstart <= m[a] < sb.nmeta <= v[a]
    {
      assert v[a] in f;
    }
    MapsDiffer(sb, v, f);
    Parts(x, v, m, y, sb.bmapstart, sb.nmeta);
  }

  lemma Parts(x: nat, v: seq<nat>, m: seq<nat>, y: nat, low: nat, high: nat)
    requires |v| == 4 && |m| == 4 && NoRepeat(v) && NoRepeat(m) && x !in v && y < low <= high <= x
    requires forall a :: 0 <= a < 4 ==> low <= m[a] < high <= v[a]
    ensures |{x} + Elements(v) + Elements(m) + {y}| == 10
  {
    hide NoRepeat;
    Distinctly(v);
    Distinctly(m);
    assert forall e :: e in Elements(m) ==> low <= e < high;
    assert forall e :: e in Elements(v) ==> high <= e && e != x;
    hide Elements;
    Apart({x}, Elements(v));
    Apart({x} + Elements(v), Elements(m));
    Apart({x} + Elements(v) + Elements(m), {y});
  }

  lemma Apart(a: set<nat>, b: set<nat>)
    requires a !! b
    ensures |a + b| == |a| + |b|
  {
    assert |a + b| + |a * b| == |a| + |b|;
  }

  lemma MapsDiffer(sb: Super, v: seq<nat>, f: seq<nat>)
    requires |v| == 4 && NoRepeat(v) && forall a :: 0 <= a < 4 ==> v[a] in f
    requires |f| == 4 && forall a, b :: 0 <= a < b < 4 ==> BBlock(sb, f[a]) != BBlock(sb, f[b])
    ensures NoRepeat(Maps(sb, v))
  {
    hide BBlock;
    forall a, b | 0 <= a < b < 4
      ensures Maps(sb, v)[a] != Maps(sb, v)[b]
    {
      assert v[a] in f && v[b] in f && v[a] != v[b];
    }
  }

  lemma FirstOwned(sb: Super, s: FsState, t: FsState, i: nat)
    requires Grown(sb, s, t, i, 4)
    ensures Val(t, i, NDIRECT - 1) in s.owner && Val(t, i, NDIRECT - 1) >= sb.nmeta
  {
    hide Val, Bits;
  }

  lemma MapsBelow(sb: Super, s: FsState, i: nat, f: seq<nat>)
    requires WorstCase(sb, s, i, f)
    ensures IBlock(sb, i) < sb.bmapstart < sb.nmeta && |f| == 4
    ensures forall a :: 0 <= a < 4 ==> BBlock(sb, f[a]) < sb.nmeta <= f[a]
    ensures forall a, b :: 0 <= a < b < 4 ==> BBlock(sb, f[a]) != BBlock(sb, f[b])
    ensures NextFree(sb, s.disk, f)
  {
    GoodFacts(sb, s, i);
    InodeBlockThere(sb, s, i);
    forall a | 0 <= a < 4
      ensures BBlock(sb, f[a]) < sb.nmeta <= f[a]
    {
      hide Bit;
      BitmapBlocks(sb, f[a]);
    }
  }

  /** The bound is reached: such a write logs MAXOPBLOCKS blocks, and stores all its bytes. */
  lemma QuotaReached(sb: Super, s: FsState, t: FsState, i: nat, src: seq<Byte>, tot: int, after: set<nat>, f: seq<nat>)
    requires WorstCase(sb, s, i, f) && |src| == MAX_CHUNK && Good(sb, t)
    requires Wrote(sb, s, t, i, LAST_DIRECT, src, tot)
             && Accounts(sb, s, t, i, LAST_DIRECT, tot, {IBlock(sb, i)}, after)
    ensures tot == |src| && |after| == MAXOPBLOCKS
  {
    hide WorstCase, Wrote, Accounts, BBlock, IBlock, Maps, WriteLog, NoRepeat, NextFree, Good, Allotted, Present, Val;
    hide Table;
    WroteAll(sb, s, t, i, src, tot, {IBlock(sb, i)}, after, f);
    LogIs(sb, s, t, i);
    FirstOwned(sb, s, t, i);
    MapsBelow(sb, s, i, f);
    TakesNext(sb, s, t, i, f);
    var v := NewBlocks(t, i);
    Ten(sb, Val(t, i, NDIRECT - 1), v, f, IBlock(sb, i));
    assert after == {Val(t, i, NDIRECT - 1)} + Elements(v) + Elements(Maps(sb, v)) + {IBlock(sb, i)};
  }

  /** writei in such a state. */
  method WriteWorst(fs: FileSystem, i: nat, src: seq<Byte>, ghost f: seq<nat>) returns (tot: int)
    requires WorstCase(fs.sb, fs.State(), i, f) && |src| == MAX_CHUNK && fs.logged == {}
    modifies fs`disk, fs`inodes, fs`owner, fs`logged
    ensures tot == |src| && |fs.logged| == MAXOPBLOCKS
    ensures Good(fs.sb, fs.State()) && Wrote(fs.sb, old(fs.State()), fs.State(), i, LAST_DIRECT, src, tot)
  {
    hide Good, Wrote, Accounts, NextFree;
    ghost var s := fs.State();
    tot := fs.Writei(i, LAST_DIRECT, src);
    assert {} + {IBlock(fs.sb, i)} == {IBlock(fs.sb, i)};
    QuotaReached(fs.sb, s, fs.State(), i, src, tot, fs.logged, f);
  }
}
