/** The block and inode layer of fs.c over the logged blocks of one file system. A
    bread, a change, a log_write and a brelse of a block is one LogWrite here; module
    Bio shows that bread returns the newest contents, module Log that they last, and module
    CrashFs what a crash leaves of them. */
module Fs {
  import opened Blocks
  import opened Bitmap
  import opened Inodes
  import opened Ownership
  import opened Accounting

  const MAXBYTES: nat := MAXFILE * BSIZE

  // ----- file contents

  function ByteAt(s: FsState, i: nat, p: nat): Byte
    requires IsSlot(s.inodes, i, 0) && p < MAXBYTES
  {
    At(s.disk, Val(s, i, SlotOf(p / BSIZE)))[p % BSIZE]
  }

  /** The first n bytes of a file, whatever its size field says. */
  function Content(s: FsState, i: nat, n: nat): (c: seq<Byte>)
    requires IsSlot(s.inodes, i, 0) && n <= MAXBYTES
    ensures |c| == n
  {
    seq(n, p requires 0 <= p < n => ByteAt(s, i, p))
  }

  function FileBytes(s: FsState, i: nat): seq<Byte>
    requires IsSlot(s.inodes, i, 0) && s.inodes[i].size <= MAXBYTES
  {
    Content(s, i, s.inodes[i].size)
  }

  /** Blocks below the n-th byte are all there. */
  ghost predicate HoleFree(s: FsState, i: nat, n: nat)
    requires IsSlot(s.inodes, i, 0) && n <= MAXBYTES
  {
    forall bn: nat :: bn * BSIZE < n ==> Val(s, i, SlotOf(bn)) != 0
  }

  ghost predicate FileOk(s: FsState, i: nat) {
    IsSlot(s.inodes, i, 0) && s.inodes[i].size <= MAXBYTES && HoleFree(s, i, s.inodes[i].size)
  }

  /** Nothing is allocated that no slot points to. */
  ghost predicate Settled(owner: map<nat, Slot>) {
    forall b :: b in owner ==> owner[b].Ptr?
  }

  ghost predicate Good(sb: Super, s: FsState) {
    Consistent(sb, s, Nothing) && Settled(s.owner) && forall i :: 0 <= i < |s.inodes| ==> FileOk(s, i)
  }

  function Splice(base: seq<Byte>, at: nat, data: seq<Byte>): (r: seq<Byte>)
    requires at <= |base|
    ensures |r| == Max(|base|, at + |data|)
  {
    base[..at] + data + (if at + |data| < |base| then base[at + |data|..] else [])
  }

  function Max(a: nat, b: nat): nat {
    if a < b then b else a
  }

  lemma SpliceTwice(base: seq<Byte>, at: nat, data: seq<Byte>, tot: nat, m: nat)
    requires at <= |base| && tot + m <= |data|
    ensures Splice(Splice(base, at, data[..tot]), at + tot, data[tot..tot + m]) == Splice(base, at, data[..tot + m])
  {
    assert data[..tot] + data[tot..tot + m] == data[..tot + m];
  }

  /** Keeping the slots of an inode keeps the bytes of its blocks. */
  lemma KeptBytes(s: FsState, t: FsState, but: int, i: nat, n: nat)
    requires Keeps(s, t, but) && i != but && IsSlot(s.inodes, i, 0) && IsSlot(t.inodes, i, 0) && n <= MAXBYTES
             && HoleFree(s, i, n)
    ensures HoleFree(t, i, n) && Content(t, i, n) == Content(s, i, n)
  {
    forall bn: nat | bn * BSIZE < n
      ensures Val(t, i, SlotOf(bn)) == Val(s, i, SlotOf(bn)) != 0
      ensures At(t.disk, Val(t, i, SlotOf(bn))) == At(s.disk, Val(s, i, SlotOf(bn)))
    {
      assert IsSlot(s.inodes, i, SlotOf(bn));
    }
    forall p: nat | p < n
      ensures ByteAt(t, i, p) == ByteAt(s, i, p)
    {
      assert p / BSIZE * BSIZE < n;
    }
  }

  // ----- one block of a write

  /** Writing m bytes of a block that is there, at offset o of the file. */
  function Patched(s: FsState, i: nat, o: nat, piece: seq<Byte>): FsState
    requires IsSlot(s.inodes, i, 0) && o % BSIZE + |piece| <= BSIZE && o < MAXBYTES
    requires Val(s, i, SlotOf(o / BSIZE)) < |s.disk|
  {
    var v := Val(s, i, SlotOf(o / BSIZE));
    s.(disk := s.disk[v := Splice(s.disk[v], o % BSIZE, piece)])
  }

  lemma SameBlock(o: nat, p: nat, len: nat)
    requires o % BSIZE + len <= BSIZE
    ensures o <= p < o + len ==> p / BSIZE == o / BSIZE
    ensures p / BSIZE == o / BSIZE ==> p - o == p % BSIZE - o % BSIZE
  {
  }

  lemma PatchByte(sb: Super, s: FsState, i: nat, o: nat, piece: seq<Byte>, j: nat, p: nat)
    requires Consistent(sb, s, Nothing) && IsSlot(s.inodes, i, 0) && o % BSIZE + |piece| <= BSIZE && o < MAXBYTES
    requires 0 < Val(s, i, SlotOf(o / BSIZE)) < |s.disk|
    requires IsSlot(s.inodes, j, 0) && p < MAXBYTES && Val(s, j, SlotOf(p / BSIZE)) != 0
    ensures ByteAt(Patched(s, i, o, piece), j, p)
         == if j == i && o <= p < o + |piece| then piece[p - o] else ByteAt(s, j, p)
    ensures Val(Patched(s, i, o, piece), j, SlotOf(p / BSIZE)) == Val(s, j, SlotOf(p / BSIZE))
  {
    hide Val, Consistent, Splice;
    var v, k, m := Val(s, i, SlotOf(o / BSIZE)), SlotOf(o / BSIZE), SlotOf(p / BSIZE);
    PatchBlock(s.disk[v], o % BSIZE, piece, p % BSIZE);
    DataWriteKeeps(sb, s, i, k, Splice(s.disk[v], o % BSIZE, piece));
    assert IsSlot(s.inodes, j, m);
    SameBlock(o, p, |piece|);
    assert k == m ==> o / BSIZE == p / BSIZE;
  }

  lemma PatchBlock(b: Block, at: nat, piece: seq<Byte>, x: nat)
    requires at + |piece| <= BSIZE && x < BSIZE
    ensures |Splice(b, at, piece)| == BSIZE
    ensures Splice(b, at, piece)[x] == if at <= x < at + |piece| then piece[x - at] else b[x]
  {
  }

  lemma PatchContent(sb: Super, s: FsState, i: nat, o: nat, piece: seq<Byte>, n: nat)
    requires Consistent(sb, s, Nothing) && IsSlot(s.inodes, i, 0) && o % BSIZE + |piece| <= BSIZE && o < MAXBYTES
    requires 0 < Val(s, i, SlotOf(o / BSIZE)) < |s.disk|
    requires o <= n <= MAXBYTES && o + |piece| <= MAXBYTES && HoleFree(s, i, Max(n, o + |piece|))
    ensures HoleFree(Patched(s, i, o, piece), i, Max(n, o + |piece|))
    ensures Content(Patched(s, i, o, piece), i, Max(n, o + |piece|)) == Splice(Content(s, i, n), o, piece)
  {
    hide Consistent, Val, ByteAt;
    var t, len := Patched(s, i, o, piece), Max(n, o + |piece|);
    forall bn: nat | bn * BSIZE < len
      ensures Val(t, i, SlotOf(bn)) != 0
    {
      assert bn * BSIZE / BSIZE == bn;
      PatchByte(sb, s, i, o, piece, i, bn * BSIZE);
    }
    forall p: nat | p < len
      ensures ByteAt(t, i, p) == Splice(Content(s, i, n), o, piece)[p]
    {
      assert p / BSIZE * BSIZE < len;
      PatchByte(sb, s, i, o, piece, i, p);
    }
  }

  lemma PatchElsewhere(sb: Super, s: FsState, i: nat, o: nat, piece: seq<Byte>, j: nat, n: nat)
    requires Consistent(sb, s, Nothing) && IsSlot(s.inodes, i, 0) && o % BSIZE + |piece| <= BSIZE && o < MAXBYTES
    requires 0 < Val(s, i, SlotOf(o / BSIZE)) < |s.disk|
    requires j != i && IsSlot(s.inodes, j, 0) && n <= MAXBYTES && HoleFree(s, j, n)
    ensures HoleFree(Patched(s, i, o, piece), j, n) && Content(Patched(s, i, o, piece), j, n) == Content(s, j, n)
  {
    hide Consistent, Val, ByteAt, Splice;
    var t := Patched(s, i, o, piece);
    forall bn: nat | bn * BSIZE < n
      ensures Val(t, j, SlotOf(bn)) != 0
    {
      assert bn * BSIZE / BSIZE == bn;
      PatchByte(sb, s, i, o, piece, j, bn * BSIZE);
    }
    forall p: nat | p < n
      ensures ByteAt(t, j, p) == ByteAt(s, j, p)
    {
      assert p / BSIZE * BSIZE < n;
      PatchByte(sb, s, i, o, piece, j, p);
    }
  }

  // ----- the loop of writei

  /** Inode i may have gained pointers; nothing else of any inode changed. */
  predicate OnlyPointers(s: FsState, t: FsState, i: nat) {
    i < |s.inodes| == |t.inodes| && t.inodes == s.inodes[i := s.inodes[i].(addrs := t.inodes[i].addrs)]
  }

  /** After `tot` bytes: file i reads as if they had been stored over it, and every
      other file is what it was. */
  ghost predicate Writing(sb: Super, s0: FsState, s: FsState, i: nat, off: nat, data: seq<Byte>, tot: nat) {
    && Consistent(sb, s, Nothing) && Settled(s.owner) && OnlyPointers(s0, s, i)
    && FileOk(s0, i) && IsSlot(s.inodes, i, 0) && off <= s0.inodes[i].size && tot <= |data| && off + tot <= MAXBYTES
    && HoleFree(s, i, Max(s0.inodes[i].size, off + tot))
    && Content(s, i, Max(s0.inodes[i].size, off + tot)) == Splice(FileBytes(s0, i), off, data[..tot])
    && OthersKept(s0, s, i)
  }

  ghost predicate OthersKept(s0: FsState, s: FsState, i: nat) {
    |s.inodes| == |s0.inodes| && forall j: nat :: j < |s.inodes| && j != i ==> OtherKept(s0, s, j)
  }

  ghost predicate OtherKept(s0: FsState, s: FsState, j: nat) {
    FileOk(s0, j) && FileOk(s, j) && FileBytes(s, j) == FileBytes(s0, j)
  }

  lemma StartWriting(sb: Super, s: FsState, i: nat, off: nat, data: seq<Byte>)
    requires Good(sb, s) && i < |s.inodes| && off <= s.inodes[i].size
    ensures Writing(sb, s, s, i, off, data, 0)
  {
    assert FileOk(s, i);
    assert data[..0] == [];
    assert Splice(FileBytes(s, i), off, []) == FileBytes(s, i);
  }

  /** bmap keeps what was written so far. */
  lemma MappedMore(sb: Super, s0: FsState, s: FsState, t: FsState, i: nat, off: nat, data: seq<Byte>, tot: nat)
    requires Writing(sb, s0, s, i, off, data, tot)
    requires Consistent(sb, t, Nothing) && Settled(t.owner) && OnlyPointers(s, t, i) && Keeps(s, t, -1)
    ensures Writing(sb, s0, t, i, off, data, tot)
  {
    hide Consistent, Val, Content, Keeps, HoleFree, Splice, Settled;
    ShapeOf(sb, t, i);
    KeptBytes(s, t, -1, i, Max(s0.inodes[i].size, off + tot));
    forall j: nat | j < |t.inodes| && j != i
      ensures OtherKept(s0, t, j)
    {
      assert OtherKept(s0, s, j);
      KeptBytes(s, t, -1, j, s.inodes[j].size);
    }
  }

  lemma ShapeOf(sb: Super, s: FsState, i: nat)
    requires Consistent(sb, s, Nothing) && i < |s.inodes|
    ensures IsSlot(s.inodes, i, 0)
  {
  }

  /** One turn stores the next m bytes in a block that is there. */
  lemma WroteMore(sb: Super, s0: FsState, s: FsState, i: nat, off: nat, data: seq<Byte>, tot: nat, m: nat)
    requires Writing(sb, s0, s, i, off, data, tot) && tot + m <= |data| && 0 < m
    requires (off + tot) % BSIZE + m <= BSIZE && off + tot + m <= MAXBYTES
    requires 0 < Val(s, i, SlotOf((off + tot) / BSIZE)) < |s.disk|
    ensures Writing(sb, s0, Patched(s, i, off + tot, data[tot..tot + m]), i, off, data, tot + m)
  {
    hide Val, Content, HoleFree, Splice, Consistent;
    var t, size0 := Patched(s, i, off + tot, data[tot..tot + m]), s0.inodes[i].size;
    MoreThere(s, i, Max(size0, off + tot), off + tot, m);
    PatchContent(sb, s, i, off + tot, data[tot..tot + m], Max(size0, off + tot));
    SpliceTwice(FileBytes(s0, i), off, data, tot, m);
    PatchKeeps(sb, s, i, off + tot, data[tot..tot + m]);
    assert Max(Max(size0, off + tot), off + tot + m) == Max(size0, off + (tot + m));
    forall j: nat | j < |t.inodes| && j != i
      ensures OtherKept(s0, t, j)
    {
      assert OtherKept(s0, s, j);
      PatchElsewhere(sb, s, i, off + tot, data[tot..tot + m], j, s.inodes[j].size);
    }
  }

  lemma MoreThere(s: FsState, i: nat, n: nat, o: nat, m: nat)
    requires IsSlot(s.inodes, i, 0) && o <= n <= MAXBYTES && 0 < m && o % BSIZE + m <= BSIZE && o + m <= MAXBYTES
    requires HoleFree(s, i, n) && Val(s, i, SlotOf(o / BSIZE)) != 0
    ensures HoleFree(s, i, Max(n, o + m))
  {
    hide Val;
    forall bn: nat | bn * BSIZE < Max(n, o + m)
      ensures Val(s, i, SlotOf(bn)) != 0
    {
      assert bn * BSIZE < n || bn == o / BSIZE;
    }
  }

  lemma PatchKeeps(sb: Super, s: FsState, i: nat, o: nat, piece: seq<Byte>)
    requires Consistent(sb, s, Nothing) && IsSlot(s.inodes, i, 0) && o % BSIZE + |piece| <= BSIZE && o < MAXBYTES
    requires 0 < Val(s, i, SlotOf(o / BSIZE)) < |s.disk|
    ensures Consistent(sb, Patched(s, i, o, piece), Nothing)
  {
    var v := Val(s, i, SlotOf(o / BSIZE));
    DataWriteKeeps(sb, s, i, SlotOf(o / BSIZE), Splice(s.disk[v], o % BSIZE, piece));
  }

  function Resized(s: FsState, i: nat, n: Word): FsState
    requires i < |s.inodes|
  {
    s.(inodes := s.inodes[i := s.inodes[i].(size := n)])
  }

  lemma ResizedSlots(s: FsState, i: nat, n: Word)
    requires i < |s.inodes|
    ensures forall j: nat, k: nat :: IsSlot(s.inodes, j, k) ==>
              IsSlot(Resized(s, i, n).inodes, j, k) && Val(Resized(s, i, n), j, k) == Val(s, j, k)
  {
  }

  /** The size field of an inode plays no part in who owns what. */
  lemma ResizeKeeps(sb: Super, s: FsState, i: nat, n: Word)
    requires Consistent(sb, s, Nothing) && i < |s.inodes|
    ensures Consistent(sb, Resized(s, i, n), Nothing)
    ensures forall j: nat, k: nat :: IsSlot(s.inodes, j, k) ==>
              IsSlot(Resized(s, i, n).inodes, j, k) && Val(Resized(s, i, n), j, k) == Val(s, j, k)
  {
    var t := Resized(s, i, n);
    forall c: nat | c < sb.size
      ensures Bit(sb, t.disk, c) <==> c < sb.nmeta || c in t.owner
    {
      hide Marked;
      assert Bit(sb, s.disk, c) <==> c < sb.nmeta || c in s.owner;
    }
  }

  lemma ResizedBytes(sb: Super, s: FsState, i: nat, n: Word, j: nat)
    requires Consistent(sb, s, Nothing) && i < |s.inodes| && j < |s.inodes|
             && Resized(s, i, n).inodes[j].size <= MAXBYTES
    requires IsSlot(s.inodes, j, 0) && HoleFree(s, j, Resized(s, i, n).inodes[j].size)
    ensures FileOk(Resized(s, i, n), j)
    ensures FileBytes(Resized(s, i, n), j) == Content(s, j, Resized(s, i, n).inodes[j].size)
  {
    hide Val, Consistent;
    ResizeKeeps(sb, s, i, n);
  }

  lemma FinishWriting(sb: Super, s0: FsState, s: FsState, i: nat, off: nat, data: seq<Byte>, tot: nat)
    requires Writing(sb, s0, s, i, off, data, tot)
    ensures MAXBYTES < 0x1_0000_0000
    ensures Good(sb, Resized(s, i, Max(s.inodes[i].size, off + tot)))
    ensures FileBytes(Resized(s, i, Max(s.inodes[i].size, off + tot)), i) == Splice(FileBytes(s0, i), off, data[..tot])
    ensures OthersKept(s0, Resized(s, i, Max(s.inodes[i].size, off + tot)), i)
  {
    hide Val, Splice, Consistent;
    assert s.inodes[i].size == s0.inodes[i].size;
    var t := Resized(s, i, Max(s.inodes[i].size, off + tot));
    ResizeKeeps(sb, s, i, t.inodes[i].size);
    forall j: nat | j < |t.inodes|
      ensures FileOk(t, j) && FileBytes(t, j) == Content(s, j, t.inodes[j].size)
    {
      assert j != i ==> OtherKept(s0, s, j);
      ResizedBytes(sb, s, i, t.inodes[i].size, j);
    }
    forall j: nat | j < |s.inodes| && j != i
      ensures OtherKept(s0, t, j)
    {
      assert OtherKept(s0, s, j);
    }
  }

  /** What was written is what a read of the same range finds. */
  lemma ReadBack(base: seq<Byte>, at: nat, data: seq<Byte>)
    requires at <= |base|
    ensures at + |data| <= |Splice(base, at, data)| && Splice(base, at, data)[at..at + |data|] == data
    ensures forall p :: 0 <= p < |base| && !(at <= p < at + |data|) ==> Splice(base, at, data)[p] == base[p]
  {
  }

  // ----- the state and its operations

  /** Bits of one bitmap block; a clear one is that of a data block. */
  lemma FreeIsData(sb: Super, s: FsState, base: nat, bi: nat)
    requires Layout(sb, |s.disk|) && Bits(sb, s) && base % BPB == 0 && bi < BPB && base + bi < sb.size
    ensures BBlock(sb, base + bi) == BBlock(sb, base) < |s.disk| && (base + bi) % BPB == bi
    ensures Bit(sb, s.disk, base + bi) <==> Marked(s.disk[BBlock(sb, base)], bi)
    ensures !Bit(sb, s.disk, base + bi) ==> base + bi >= sb.nmeta
  {
    BitmapBlocks(sb, base + bi);
  }

  predicate DiskFull(sb: Super, disk: seq<Block>) {
    forall c: nat :: c < sb.size ==> Bit(sb, disk, c)
  }

  /** What bmap keeps, whether or not it allocates. */
  ghost predicate Mapped(sb: Super, s: FsState, t: FsState, i: nat) {
    Consistent(sb, t, Nothing) && Settled(t.owner) && OnlyPointers(s, t, i) && Keeps(s, t, -1)
  }

  lemma MappedNothing(sb: Super, s: FsState, i: nat)
    requires Consistent(sb, s, Nothing) && Settled(s.owner) && i < |s.inodes|
    ensures Mapped(sb, s, s, i)
  {
  }

  lemma KeepsOn(s: FsState, t: FsState, u: FsState)
    requires Keeps(s, t, -1) && Keeps(t, u, -1)
    ensures Keeps(s, u, -1)
  {
    hide Val;
  }

  lemma EntryVal(s: FsState, i: nat, e: nat)
    requires IsSlot(s.inodes, i, NDIRECT) && e < NINDIRECT
    ensures s.inodes[i].addrs[NDIRECT] == 0 ==> Val(s, i, NDIRECT + 1 + e) == 0
    ensures 0 < s.inodes[i].addrs[NDIRECT] < |s.disk| ==>
              Val(s, i, NDIRECT + 1 + e) == GetWord(s.disk[s.inodes[i].addrs[NDIRECT]], e)
  {
  }

  lemma FreshEntry(sb: Super, s: FsState, i: nat, e: nat)
    requires Consistent(sb, s, Nothing) && IsSlot(s.inodes, i, NDIRECT) && e < NINDIRECT
             && s.inodes[i].addrs[NDIRECT] != 0
    ensures At(s.disk, s.inodes[i].addrs[NDIRECT]) == ZERO_BLOCK ==> Val(s, i, NDIRECT + 1 + e) == 0
  {
    ZeroBlockWords(e);
  }

  lemma WritingFacts(sb: Super, s0: FsState, s: FsState, i: nat, off: nat, data: seq<Byte>, tot: nat)
    requires Writing(sb, s0, s, i, off, data, tot)
    ensures Consistent(sb, s, Nothing) && Settled(s.owner) && i < |s.inodes| == |s0.inodes|
            && IsSlot(s.inodes, i, NDIRECT)
  {
  }

  lemma SlotInRange(sb: Super, s: FsState, i: nat, k: nat)
    requires Consistent(sb, s, Nothing) && IsSlot(s.inodes, i, k)
    ensures Val(s, i, k) < |s.disk|
  {
  }

  function Min(a: int, b: int): int {
    if a < b then a else b
  }

  /** min(n - tot, BSIZE - off % BSIZE) */
  function Piece(o: nat, rest: nat): (m: nat)
    requires rest > 0
    ensures 0 < m <= rest && o % BSIZE + m <= BSIZE && (m == rest || AtBoundary(o + m))
  {
    Min(rest, BSIZE - o % BSIZE)
  }

  lemma TouchedNext(off: nat, tot: nat, rest: nat)
    requires 0 < rest && (tot == 0 || AtBoundary(off + tot))
    ensures Touched(off, tot + Piece(off + tot, rest)) == Touched(off, tot) + 1
    ensures (off + tot) / BSIZE == off / BSIZE + Touched(off, tot)
    ensures 0 < Piece(off + tot, rest) <= rest
            && (Piece(off + tot, rest) == rest || AtBoundary(off + tot + Piece(off + tot, rest)))
  {
    var o, m := off + tot, Piece(off + tot, rest);
    LastOfPiece(o, m);
    if tot > 0 {
      BeforeBoundary(o);
    }
  }

  lemma LastOfPiece(o: nat, m: nat)
    requires 0 < m && o % BSIZE + m <= BSIZE
    ensures (o + m - 1) / BSIZE == o / BSIZE
  {
  }

  lemma BeforeBoundary(o: nat)
    requires 0 < o && o % BSIZE == 0
    ensures (o - 1) / BSIZE == o / BSIZE - 1
  {
  }

  /** A write that starts inside a block starts in a block of the file. */
  lemma FirstBlock(sb: Super, s: FsState, i: nat, off: nat)
    requires FileOk(s, i) && off <= s.inodes[i].size && off < MAXBYTES
    ensures !AtBoundary(off) ==> Val(s, i, SlotOf(off / BSIZE)) != 0
  {
    hide Val;
    assert off % BSIZE != 0 ==> off / BSIZE * BSIZE < off;
  }

  /** The accounts of a write of tot bytes: which blocks it took, and what it logged. */
  ghost predicate Accounts(sb: Super, s0: FsState, s: FsState, i: nat, off: nat, tot: int, before: set<nat>,
                           after: set<nat>) {
    && IsSlot(s0.inodes, i, NDIRECT) && IsSlot(s.inodes, i, NDIRECT) && 0 <= tot
    && off / BSIZE + Touched(off, tot) <= MAXFILE
    && Allotted(sb, s0, s, i, off / BSIZE, Touched(off, tot)) && Present(s, i, off / BSIZE, Touched(off, tot))
    && after == before + WriteLog(sb, s0, s, i, off / BSIZE, Touched(off, tot))
  }

  lemma NoneMore(sb: Super, s: FsState, i: nat, first: nat)
    ensures Since(sb, s, s, i, first, 0) && Since(sb, s, s, i, first, 1)
  {
    hide Val;
  }

  lemma NothingLogged(sb: Super, s: FsState, i: nat, off: nat)
    requires IsSlot(s.inodes, i, NDIRECT) && off <= MAXBYTES
    ensures Touched(off, 0) == 0 && off / BSIZE <= MAXFILE
    ensures Present(s, i, off / BSIZE, 0) && WriteLog(sb, s, s, i, off / BSIZE, 0) == {}
  {
  }

  lemma TurnTaken(sb: Super, s0: FsState, s1: FsState, t: FsState, i: nat, first: nat, k: nat, m: nat, l0: set<nat>,
                  l1: set<nat>, l2: set<nat>)
    requires IsSlot(s0.inodes, i, NDIRECT) && IsSlot(s1.inodes, i, NDIRECT) && IsSlot(t.inodes, i, NDIRECT)
             && first + k < MAXFILE
    requires Since(sb, s0, s1, i, first, k) && Since(sb, s1, t, i, first + k, 1) && Present(s1, i, first, k)
    requires first + k < NDIRECT ==> Table(t, i) == Table(s1, i)
    requires l1 == l0 + WriteLog(sb, s0, s1, i, first, k) && (m == 0 <==> Val(t, i, SlotOf(first + k)) == 0)
    requires l2 == l1 + MapLog(sb, s1, t, i, first + k) + if m == 0 then {} else {Val(t, i, SlotOf(first + k))}
    ensures m != 0 ==>
              Since(sb, s0, t, i, first, k + 1) && Present(t, i, first, k + 1)
              && l2 == l0 + WriteLog(sb, s0, t, i, first, k + 1)
    ensures m == 0 ==>
              Since(sb, s0, t, i, first, k) && Present(t, i, first, k) && l2 == l0 + WriteLog(sb, s0, t, i, first, k)
  {
    hide Val, MapLog, WriteLog, Since, Present;
    SinceOn(sb, s0, s1, t, i, first, k, first + k, 1);
    LoggedMore(sb, s0, s1, t, i, first, k, l0, l1);
    NotTaken(sb, s0, t, i, first, k);
  }

  /** A block that was there before stays, so a slot that is empty afterwards always was. */
  lemma NotTaken(sb: Super, s: FsState, t: FsState, i: nat, first: nat, k: nat)
    requires Since(sb, s, t, i, first, k + 1) && IsSlot(s.inodes, i, NDIRECT) && IsSlot(t.inodes, i, NDIRECT)
             && first + k < MAXFILE
    ensures Val(t, i, SlotOf(first + k)) == 0 ==> Since(sb, s, t, i, first, k)
  {
    hide Val;
    if Val(t, i, SlotOf(first + k)) == 0 {
      forall j: nat, m: nat | IsSlot(s.inodes, j, m) && (j != i || Beside(m, first, k))
        ensures IsSlot(t.inodes, j, m) && Val(t, j, m) == Val(s, j, m)
      {
        assert j != i || Beside(m, first, k + 1) || m == SlotOf(first + k);
      }
    }
  }

  /** What writei promises when it stored `tot` bytes. */
  ghost predicate Wrote(sb: Super, s0: FsState, s: FsState, i: nat, off: nat, src: seq<Byte>, tot: int) {
    && FileOk(s0, i) && FileOk(s, i) && 0 <= tot <= |src| && off <= s0.inodes[i].size
    && FileBytes(s, i) == Splice(FileBytes(s0, i), off, src[..tot])
    && OthersKept(s0, s, i)
    && i < |s.inodes| == |s0.inodes|
    && s.inodes == s0.inodes[i := s0.inodes[i].(size := Max(s0.inodes[i].size, off + tot), addrs := s.inodes[i].addrs)]
    && (tot < |src| ==> DiskFull(sb, s.disk) && (tot == 0 || AtBoundary(off + tot)))
  }

  lemma WritingInodes(sb: Super, s0: FsState, s: FsState, i: nat, off: nat, data: seq<Byte>, tot: nat)
    requires Writing(sb, s0, s, i, off, data, tot)
    ensures i < |s.inodes| == |s0.inodes| && s.inodes == s0.inodes[i := s0.inodes[i].(addrs := s.inodes[i].addrs)]
  {
  }

  /** Data written to a block that is there takes nothing and moves nothing. */
  lemma PatchSince(sb: Super, s: FsState, t: FsState, i: nat, o: nat, piece: seq<Byte>, bn: nat)
    requires Consistent(sb, t, Nothing) && IsSlot(t.inodes, i, NDIRECT) && IsSlot(s.inodes, i, NDIRECT)
             && o % BSIZE + |piece| <= BSIZE && o < MAXBYTES
    requires 0 < Val(t, i, SlotOf(o / BSIZE)) < |t.disk| && bn == o / BSIZE && Since(sb, s, t, i, bn, 1)
    ensures Since(sb, s, Patched(t, i, o, piece), i, bn, 1)
    ensures Val(Patched(t, i, o, piece), i, SlotOf(bn)) == Val(t, i, SlotOf(bn))
    ensures MapLog(sb, s, Patched(t, i, o, piece), i, bn) == MapLog(sb, s, t, i, bn)
  {
    hide Val, Since, MapLog, Splice;
    var v, u := Val(t, i, SlotOf(bn)), Patched(t, i, o, piece);
    assert v >= sb.nmeta && v in t.owner;
    DataWriteKeeps(sb, t, i, SlotOf(bn), u.disk[v]);
    DataSince(sb, t, u, i, bn, v, u.disk[v]);
    SinceOn(sb, s, t, u, i, bn, 1, bn, 0);
    MapLogKept(sb, s, t, u, i, bn);
  }

  /** Later steps leave the accounts as they are. */
  lemma WrittenOn(sb: Super, s0: FsState, s: FsState, t: FsState, i: nat, off: nat, tot: int, l0: set<nat>,
                  l1: set<nat>)
    requires Accounts(sb, s0, s, i, off, tot, l0, l1)
    requires t.owner == s.owner && IsSlot(t.inodes, i, NDIRECT) && Table(t, i) == Table(s, i)
    requires forall j: nat, m: nat :: IsSlot(s.inodes, j, m) ==> IsSlot(t.inodes, j, m) && Val(t, j, m) == Val(s, j, m)
    ensures Accounts(sb, s0, t, i, off, tot, l0, l1)
  {
    hide Val, WriteLog, Present;
    LogKept(sb, s0, s, t, i, off / BSIZE, Touched(off, tot));
  }

  lemma AlsoLogged(sb: Super, s0: FsState, s: FsState, i: nat, off: nat, tot: int, l0: set<nat>, l1: set<nat>, b: nat)
    requires Accounts(sb, s0, s, i, off, tot, l0, l1)
    ensures Accounts(sb, s0, s, i, off, tot, l0 + {b}, l1 + {b})
  {
  }

  /** After the loop: a new size, and the inode's block. */
  lemma WrittenToTheEnd(sb: Super, s0: FsState, s1: FsState, s2: FsState, s: FsState, i: nat, off: nat, tot: int,
                        l0: set<nat>, l1: set<nat>, b: nat)
    requires Accounts(sb, s0, s1, i, off, tot, l0, l1) && i < |s1.inodes| == |s2.inodes|
             && s2 == Resized(s1, i, s2.inodes[i].size)
    requires s.inodes == s2.inodes && s.owner == s2.owner && IsSlot(s2.inodes, i, NDIRECT)
    requires forall j: nat, m: nat :: IsSlot(s2.inodes, j, m) ==> Val(s, j, m) == Val(s2, j, m)
    ensures Accounts(sb, s0, s, i, off, tot, l0 + {b}, l1 + {b})
  {
    hide Val, Accounts;
    ResizedSlots(s1, i, s2.inodes[i].size);
    WrittenOn(sb, s0, s1, s2, i, off, tot, l0, l1);
    WrittenOn(sb, s0, s2, s, i, off, tot, l0, l1);
    AlsoLogged(sb, s0, s, i, off, tot, l0, l1, b);
  }

  lemma LogKept(sb: Super, s0: FsState, s: FsState, t: FsState, i: nat, first: nat, k: nat)
    requires IsSlot(s0.inodes, i, NDIRECT) && IsSlot(s.inodes, i, NDIRECT) && IsSlot(t.inodes, i, NDIRECT)
             && first + k <= MAXFILE
    requires Present(s, i, first, k) && Table(t, i) == Table(s, i)
    requires forall j: nat, m: nat :: IsSlot(s.inodes, j, m) ==> IsSlot(t.inodes, j, m) && Val(t, j, m) == Val(s, j, m)
    ensures Present(t, i, first, k) && WriteLog(sb, s0, t, i, first, k) == WriteLog(sb, s0, s, i, first, k)
  {
    hide Val, TurnsLog;
    TurnsKept(sb, s0, s, t, i, first, k);
  }

  lemma WrittenIs(sb: Super, s0: FsState, s: FsState, i: nat, off: nat, tot: int, l0: set<nat>, l1: set<nat>)
    requires IsSlot(s0.inodes, i, NDIRECT) && IsSlot(s.inodes, i, NDIRECT) && 0 <= tot
             && off / BSIZE + Touched(off, tot) <= MAXFILE
    requires Since(sb, s0, s, i, off / BSIZE, Touched(off, tot)) && Present(s, i, off / BSIZE, Touched(off, tot))
    requires l1 == l0 + WriteLog(sb, s0, s, i, off / BSIZE, Touched(off, tot))
    ensures SameHead(sb, s0, s) && Accounts(sb, s0, s, i, off, tot, l0, l1)
  {
    hide Val, WriteLog, Present;
  }

  // ----- the inode blocks

  lemma InodeBlockThere(sb: Super, s: FsState, i: nat)
    requires Consistent(sb, s, Nothing) && i < |s.inodes|
    ensures IBlock(sb, i) < sb.bmapstart < sb.nmeta <= sb.size <= |s.disk|
  {
    HeadBelow(sb, s);
  }

  /** A store in the inode blocks changes no file, no pointer and no bit. */
  lemma InodeStored(sb: Super, s0: FsState, s: FsState, t: FsState, i: nat)
    requires Good(sb, s) && i < |s.inodes| && IBlock(sb, i) < |s.disk| == |t.disk|
    requires t == s.(disk := s.disk[IBlock(sb, i) := t.disk[IBlock(sb, i)]])
    ensures Good(sb, t) && forall j: nat :: j < |s.inodes| ==> FileOk(t, j) && FileBytes(t, j) == FileBytes(s, j)
    ensures OthersKept(s0, s, i) ==> OthersKept(s0, t, i)
    ensures DiskFull(sb, s.disk) ==> DiskFull(sb, t.disk)
    ensures FreedExactly(sb, s0, s, i) ==> FreedExactly(sb, s0, t, i)
    ensures forall j: nat, m: nat :: IsSlot(s.inodes, j, m) ==> Val(t, j, m) == Val(s, j, m)
  {
    hide Val, Consistent, FileBytes, HoleFree, Bit;
    GoodFacts(sb, s, i);
    InodeStoreKeeps(sb, s, t, i);
    forall j: nat | j < |s.inodes|
      ensures FileOk(t, j) && FileBytes(t, j) == FileBytes(s, j)
    {
      assert FileOk(s, j);
      SameFile(s, t, j);
    }
    forall j: nat | OthersKept(s0, s, i) && j < |t.inodes| && j != i
      ensures OtherKept(s0, t, j)
    {
      assert OtherKept(s0, s, j);
    }
  }

  lemma SameFile(s: FsState, t: FsState, j: nat)
    requires FileOk(s, j) && t.inodes == s.inodes && Keeps(s, t, -1)
    ensures FileOk(t, j) && FileBytes(t, j) == FileBytes(s, j)
  {
    hide Val, Content;
    KeptBytes(s, t, -1, j, s.inodes[j].size);
  }

  lemma InodeStoreKeeps(sb: Super, s: FsState, t: FsState, i: nat)
    requires Consistent(sb, s, Nothing) && i < |s.inodes| && IBlock(sb, i) < |s.disk| == |t.disk|
    requires t == s.(disk := s.disk[IBlock(sb, i) := t.disk[IBlock(sb, i)]])
    ensures Consistent(sb, t, Nothing) && Keeps(s, t, -1)
    ensures forall j: nat, m: nat :: IsSlot(s.inodes, j, m) ==> Val(t, j, m) == Val(s, j, m)
    ensures forall c: nat :: Bit(sb, t.disk, c) <==> Bit(sb, s.disk, c)
  {
    hide Bit, Bits;
    HeadBelow(sb, s);
    InodeStoreBits(sb, s, t, i);
    forall j | 0 <= j < |s.inodes| && s.inodes[j].addrs[NDIRECT] != 0
      ensures s.inodes[j].addrs[NDIRECT] >= sb.nmeta
    {
      TableBlocks(sb, s, Nothing, j);
    }
    SlotsKept(s, t);
    hide Val;
    assert Owned(sb, t, Nothing) && Pointers(t, Nothing);
  }

  lemma InodeStoreBits(sb: Super, s: FsState, t: FsState, i: nat)
    requires Shape(sb, s) && i < |s.inodes| && IBlock(sb, i) < |s.disk| == |t.disk|
    requires t == s.(disk := s.disk[IBlock(sb, i) := t.disk[IBlock(sb, i)]])
    ensures forall c: nat :: Bit(sb, t.disk, c) <==> Bit(sb, s.disk, c)
    ensures Bits(sb, s) ==> Bits(sb, t)
  {
    HeadBelow(sb, s);
    hide Marked;
    forall c: nat
      ensures Bit(sb, t.disk, c) <==> Bit(sb, s.disk, c)
    {
      assert At(t.disk, BBlock(sb, c)) == At(s.disk, BBlock(sb, c));
    }
  }

  lemma HeadSelf(sb: Super, s: FsState)
    ensures SameHead(sb, s, s)
  {
  }

  lemma HeadOn(sb: Super, s: FsState, t: FsState, u: FsState)
    requires SameHead(sb, s, t) && SameHead(sb, t, u)
    ensures SameHead(sb, s, u)
  {
  }

  lemma FreedHead(sb: Super, s: FsState, b: nat)
    requires Layout(sb, |s.disk|) && b < sb.size
    ensures SameHead(sb, s, Freed(sb, s, b))
  {
  }

  lemma EntryFreedHead(sb: Super, s: FsState, i: nat, e: nat)
    requires Layout(sb, |s.disk|) && IsSlot(s.inodes, i, NDIRECT + 1 + e) && Val(s, i, NDIRECT + 1 + e) < sb.size
    ensures SameHead(sb, s, EntryFreed(sb, s, i, e))
  {
    hide Val;
    FreedHead(sb, s, Val(s, i, NDIRECT + 1 + e));
  }

  lemma SameHeadInodes(sb: Super, s: FsState, t: FsState)
    requires SameHead(sb, s, t) && Shape(sb, s)
    ensures forall j: nat :: j < |s.inodes| ==> At(t.disk, IBlock(sb, j)) == At(s.disk, IBlock(sb, j))
  {
    HeadBelow(sb, s);
  }

  lemma GoodFacts(sb: Super, s: FsState, i: nat)
    requires Good(sb, s) && i < |s.inodes|
    ensures Consistent(sb, s, Nothing) && Settled(s.owner) && FileOk(s, i)
  {
  }

  lemma ReadNothing(s: FsState, i: nat, off: nat)
    requires FileOk(s, i) && off <= s.inodes[i].size
    ensures |FileBytes(s, i)| == s.inodes[i].size && FileBytes(s, i)[off..off] == []
  {
  }

  /** Every byte of a file is in a block that is there. */
  lemma BlockThere(sb: Super, s: FsState, i: nat, o: nat)
    requires Good(sb, s) && i < |s.inodes| && o < s.inodes[i].size
    ensures FileOk(s, i) && o < MAXBYTES && Consistent(sb, s, Nothing) && Settled(s.owner) && IsSlot(s.inodes, i, 0)
    ensures 0 < Val(s, i, SlotOf(o / BSIZE)) < |s.disk|
  {
    hide Val;
    GoodFacts(sb, s, i);
    assert o / BSIZE * BSIZE < s.inodes[i].size;
    SlotInRange(sb, s, i, SlotOf(o / BSIZE));
  }

  lemma ReadMore(s: FsState, i: nat, off: nat, tot: nat, m: nat)
    requires FileOk(s, i) && off + tot + m <= s.inodes[i].size && 0 < m && (off + tot) % BSIZE + m <= BSIZE
    requires Val(s, i, SlotOf((off + tot) / BSIZE)) < |s.disk| && |FileBytes(s, i)| == s.inodes[i].size
    ensures FileBytes(s, i)[off..off + tot + m]
         == FileBytes(s, i)[off..off + tot]
            + s.disk[Val(s, i, SlotOf((off + tot) / BSIZE))][(off + tot) % BSIZE..(off + tot) % BSIZE + m]
  {
    hide Val;
    var o := off + tot;
    var b := s.disk[Val(s, i, SlotOf(o / BSIZE))];
    forall p: nat | o <= p < o + m
      ensures FileBytes(s, i)[p] == b[o % BSIZE + (p - o)]
    {
      SameBlock(o, p, m);
      assert FileBytes(s, i)[p] == ByteAt(s, i, p);
    }
  }

  /** Blocks of other inodes keep their owner; no block gains one. */
  ghost predicate OwnersLeft(before: map<nat, Slot>, after: map<nat, Slot>, i: nat) {
    && (forall b :: b in after ==> b in before && after[b] == before[b])
    && (forall b :: b in before && before[b].Ptr? && before[b].inum != i ==> b in after)
  }

  lemma OwnedBit(sb: Super, s: FsState, b: nat)
    requires Bits(sb, s) && b in s.owner && b < sb.size
    ensures Bit(sb, s.disk, b)
  {
  }

  lemma KeepsSelf(s: FsState, but: int)
    ensures Keeps(s, s, but)
  {
  }

  lemma OwnersLeftSelf(owner: map<nat, Slot>, i: nat)
    ensures OwnersLeft(owner, owner, i)
  {
  }

  lemma OwnersLeftOn(a: map<nat, Slot>, b: map<nat, Slot>, c: map<nat, Slot>, i: nat)
    requires OwnersLeft(a, b, i) && OwnersLeft(b, c, i)
    ensures OwnersLeft(a, c, i)
  {
  }

  lemma KeepsOnBut(s: FsState, t: FsState, u: FsState, but: nat)
    requires Keeps(s, t, but) && Keeps(t, u, but)
    ensures Keeps(s, u, but)
  {
    hide Val;
  }

  lemma NoneGone(sb: Super, s: FsState, i: nat)
    requires Consistent(sb, s, Nothing)
    ensures Consistent(sb, s, Entries(i, 0))
  {
    hide Val, Bit;
  }

  /** bfree of an entry finds its bit set and leaves the table as it is. */
  lemma EntryFreedTable(sb: Super, s: FsState, i: nat, e: nat)
    requires Consistent(sb, s, Entries(i, e)) && IsSlot(s.inodes, i, NDIRECT + 1 + e) && s.inodes[i].addrs[NDIRECT] != 0
    ensures Shape(sb, s) && Val(s, i, NDIRECT + 1 + e) < sb.size && s.inodes[i].addrs[NDIRECT] < |s.disk|
    ensures Val(s, i, NDIRECT + 1 + e) != 0 ==> Bit(sb, s.disk, Val(s, i, NDIRECT + 1 + e))
    ensures At(EntryFreed(sb, s, i, e).disk, s.inodes[i].addrs[NDIRECT]) == s.disk[s.inodes[i].addrs[NDIRECT]]
    ensures OwnersLeft(s.owner, EntryFreed(sb, s, i, e).owner, i)
  {
    hide Val, Bit;
    TableBlocks(sb, s, Entries(i, e), i);
    FreeEntryKeeps(sb, s, i, e);
    if Val(s, i, NDIRECT + 1 + e) != 0 {
      BitmapBlocks(sb, Val(s, i, NDIRECT + 1 + e));
    }
  }

  /** A block is free after truncating inode i iff it was, or i owned it. */
  ghost predicate FreedExactly(sb: Super, s: FsState, t: FsState, i: nat) {
    && (forall b :: b in t.owner <==> b in s.owner && s.owner[b] != Pending && s.owner[b].inum != i)
    && (forall b :: b in t.owner ==> t.owner[b] == s.owner[b])
    && (forall b: nat :: b < sb.size ==>
          (Bit(sb, t.disk, b) <==>
           Bit(sb, s.disk, b) && !(b in s.owner && s.owner[b] != Pending && s.owner[b].inum == i)))
  }

  lemma NothingOwned(sb: Super, t: FsState, i: nat)
    requires Consistent(sb, t, Nothing) && i < |t.inodes| && t.inodes[i].addrs == Zeros(NDIRECT + 1)
    ensures forall b :: b in t.owner && t.owner[b].Ptr? ==> t.owner[b].inum != i
  {
    hide Bits;
    forall b | b in t.owner && t.owner[b].Ptr?
      ensures t.owner[b].inum != i
    {
      assert Owns(t, Nothing, t.owner[b], b);
    }
  }

  lemma TruncatedBits(sb: Super, s: FsState, t: FsState, i: nat)
    requires Consistent(sb, s, Nothing) && Settled(s.owner) && Consistent(sb, t, Nothing)
             && OwnersLeft(s.owner, t.owner, i)
    requires i < |t.inodes| && t.inodes[i].addrs == Zeros(NDIRECT + 1)
    ensures FreedExactly(sb, s, t, i)
  {
    hide Bit, Val, Owned, Pointers;
    NothingOwned(sb, t, i);
    forall b: nat | b < sb.size
      ensures Bit(sb, t.disk, b) <==>
              Bit(sb, s.disk, b) && !(b in s.owner && s.owner[b] != Pending && s.owner[b].inum == i)
    {
      assert Bit(sb, s.disk, b) <==> b < sb.nmeta || b in s.owner;
      OwnedAbove(sb, s, b);
    }
  }

  lemma OwnedAbove(sb: Super, s: FsState, b: nat)
    requires Consistent(sb, s, Nothing)
    ensures b in s.owner ==> sb.nmeta <= b < sb.size
  {
  }

  /** itrunc from state s, after its pointers are gone and before the size is. */
  lemma TruncatedGood(sb: Super, s: FsState, t: FsState, i: nat)
    requires Good(sb, s) && Consistent(sb, t, Nothing) && Keeps(s, t, i) && OwnersLeft(s.owner, t.owner, i)
    requires OnlyPointers(s, t, i) && t.inodes[i].addrs == Zeros(NDIRECT + 1)
    ensures Good(sb, Resized(t, i, 0)) && OthersKept(s, Resized(t, i, 0), i)
    ensures FreedExactly(sb, s, Resized(t, i, 0), i)
  {
    hide Val, Consistent, Keeps, FreedExactly;
    ResizeKeeps(sb, t, i, 0);
    assert OwnersLeft(s.owner, Resized(t, i, 0).owner, i);
    TruncatedBits(sb, s, Resized(t, i, 0), i);
    forall j: nat | j < |s.inodes|
      ensures FileOk(Resized(t, i, 0), j) && (j != i ==> OtherKept(s, Resized(t, i, 0), j))
    {
      assert FileOk(s, j);
      ShapeOf(sb, t, j);
      if j != i {
        KeptBytes(s, t, i, j, s.inodes[j].size);
      }
      ResizedBytes(sb, t, i, 0, j);
    }
  }

  /** itrunc's first loop cleared the first k pointers. */
  ghost predicate ClearedUpTo(s: FsState, t: FsState, i: nat, k: nat) {
    && IsSlot(s.inodes, i, 0) && k <= NDIRECT
    && OnlyPointers(s, t, i) && t.inodes[i].addrs == Zeros(k) + s.inodes[i].addrs[k..]
  }

  lemma NoneCleared(s: FsState, i: nat)
    requires IsSlot(s.inodes, i, 0)
    ensures ClearedUpTo(s, s, i, 0)
  {
  }

  lemma ClearedMore(s: FsState, t: FsState, u: FsState, i: nat, k: nat)
    requires ClearedUpTo(s, t, i, k) && k < NDIRECT && IsSlot(t.inodes, i, k)
             && u.inodes == t.inodes[i := SetAddr(t.inodes[i], k, 0)]
    ensures ClearedUpTo(s, u, i, k + 1) && IsSlot(u.inodes, i, 0)
  {
  }

  lemma AllCleared(s: FsState, t: FsState, i: nat)
    requires ClearedUpTo(s, t, i, NDIRECT)
    ensures IsSlot(s.inodes, i, 0) && OnlyPointers(s, t, i)
            && t.inodes[i].addrs == Zeros(NDIRECT) + [s.inodes[i].addrs[NDIRECT]]
  {
  }

  /** The inode as the disk has it. */
  function DiskInode(sb: Super, disk: seq<Block>, j: nat): Inode {
    GetInode(At(disk, IBlock(sb, j)), j % IPB)
  }

  /** The disk's copies of the inodes are those in memory. */
  ghost predicate Synced(sb: Super, s: FsState) {
    forall j: nat :: j < |s.inodes| ==> DiskInode(sb, s.disk, j) == s.inodes[j]
  }

  lemma StillSynced(sb: Super, s: FsState, t: FsState, i: nat)
    requires Synced(sb, s) && |t.inodes| == |s.inodes| && i < |s.inodes|
    requires DiskInode(sb, t.disk, i) == t.inodes[i]
    requires forall j: nat :: j < |s.inodes| && j != i ==>
               t.inodes[j] == s.inodes[j] && DiskInode(sb, t.disk, j) == DiskInode(sb, s.disk, j)
    ensures Synced(sb, t)
  {
    hide DiskInode;
  }

  /** What one operation, from begin_op to end_op, did. */
  datatype Op = Op(before: FsState, after: FsState, logged: set<nat>)

  class FileSystem {
    const sb: Super
    var disk: seq<Block>
    var inodes: seq<Inode>
    ghost var owner: map<nat, Slot>
    ghost var logged: set<nat>  // by the operation that is under way
    ghost var ops: seq<Op>      // those that are done

    constructor (sb: Super, disk: seq<Block>, inodes: seq<Inode>, ghost owner: map<nat, Slot>)
      ensures this.sb == sb && State() == FsState(disk, inodes, owner) && logged == {} && ops == []
    {
      this.sb, this.disk, this.inodes, this.owner, logged, ops := sb, disk, inodes, owner, {}, [];
    }

    ghost function State(): FsState
      reads this`disk, this`inodes, this`owner
    {
      FsState(disk, inodes, owner)
    }

    ghost method BeginOp()
      modifies this`logged
      ensures logged == {}
    {
      logged := {};
    }

    ghost method EndOp(before: FsState)
      modifies this`ops
      ensures ops == old(ops) + [Op(before, State(), logged)]
    {
      ops := ops + [Op(before, State(), logged)];
    }

    method LogWrite(b: nat, data: Block)
      requires b < |disk|
      modifies this`disk, this`logged
      ensures disk == old(disk)[b := data] && logged == old(logged) + {b}
    {
      disk := disk[b := data];
      logged := logged + {b};
    }

    /** balloc: the first free block, marked and zeroed, or 0 when every block is taken. */
    method Balloc() returns (b: Word)
      requires Shape(sb, State()) && Bits(sb, State())
      modifies this`disk, this`logged, this`owner
      ensures b == 0 ==>
                State() == old(State()) && logged == old(logged) && forall c: nat :: c < sb.size ==> Bit(sb, disk, c)
      ensures b != 0 ==>
                sb.nmeta <= b < sb.size && !Bit(sb, old(disk), b) && forall c: nat :: c < b ==> Bit(sb, old(disk), c)
      ensures b != 0 ==> State() == Allocated(sb, old(State()), b) && logged == old(logged) + {BBlock(sb, b), b}
      ensures LogWritten(sb, old(disk), old(logged), disk, logged)
    {
      hide LogWritten;
      NothingWritten(sb, disk, logged);
      var base := 0;
      while base < sb.size
        invariant base % BPB == 0 && State() == old(State()) && logged == old(logged)
        invariant forall c: nat :: c < base && c < sb.size ==> Bit(sb, disk, c)
      {
        b := ScanBitmap(base);
        if b != 0 {
          return;
        }
        base := base + BPB;
      }
      return 0;
    }

    /** One turn of balloc's outer loop. */
    method ScanBitmap(base: nat) returns (b: Word)
      requires Shape(sb, State()) && Bits(sb, State()) && base % BPB == 0 && base < sb.size
      requires forall c: nat :: c < base ==> Bit(sb, disk, c)
      modifies this`disk, this`logged, this`owner
      ensures b == 0 ==> State() == old(State()) && logged == old(logged)
      ensures b == 0 ==> forall c: nat :: c < base + BPB && c < sb.size ==> Bit(sb, disk, c)
      ensures b != 0 ==>
                sb.nmeta <= b < sb.size && !Bit(sb, old(disk), b) && forall c: nat :: c < b ==> Bit(sb, old(disk), c)
      ensures b != 0 ==> State() == Allocated(sb, old(State()), b) && logged == old(logged) + {BBlock(sb, b), b}
      ensures LogWritten(sb, old(disk), old(logged), disk, logged)
    {
      hide Marked, Mark, Bits, LogWritten;
      NothingWritten(sb, disk, logged);
      BitmapBlocks(sb, base);
      var bp := disk[BBlock(sb, base)];
      var bi := 0;
      while bi < BPB && base + bi < sb.size
        invariant 0 <= bi <= BPB && State() == old(State()) && logged == old(logged)
        invariant forall c: nat :: c < base + bi && c < sb.size ==> Bit(sb, disk, c)
      {
        FreeIsData(sb, State(), base, bi);
        if !Marked(bp, bi) {
          AllocLogWritten(sb, State(), base + bi, logged);
          LogWrite(BBlock(sb, base), Mark(bp, bi, true));
          owner := owner[base + bi := Pending];
          LogWrite(base + bi, ZERO_BLOCK);
          return base + bi;
        }
        bi := bi + 1;
      }
      return 0;
    }

    /** bfree; false stands for panic("freeing free block"). */
    method Bfree(b: Word) returns (ok: bool)
      requires Shape(sb, State()) && b < sb.size
      modifies this`disk, this`logged, this`owner
      ensures ok <==> Bit(sb, old(disk), b)
      ensures ok ==> State() == Freed(sb, old(State()), b) && logged == old(logged) + {BBlock(sb, b)}
      ensures !ok ==> State() == old(State())
      ensures LogWritten(sb, old(disk), old(logged), disk, logged)
    {
      hide LogWritten;
      NothingWritten(sb, disk, logged);
      FreedLogWritten(sb, State(), b, logged);
      BitmapBlocks(sb, b);
      var bp := disk[BBlock(sb, b)];
      if !Marked(bp, b % BPB) {
        return false;
      }
      LogWrite(BBlock(sb, b), Mark(bp, b % BPB, false));
      owner := owner - {b};
      ok := true;
    }

    /** One pointer of the inode, with a block allocated for it if it has none. */
    method LoadOrAlloc(i: nat, k: nat) returns (addr: Word)
      requires Consistent(sb, State(), Nothing) && Settled(owner) && IsSlot(inodes, i, k) && k <= NDIRECT
      modifies this`disk, this`inodes, this`owner, this`logged
      ensures Mapped(sb, old(State()), State(), i) && addr == Val(State(), i, k)
      ensures Since(sb, old(State()), State(), i, k, if k == NDIRECT then 0 else 1)
      ensures inodes[i].addrs == old(inodes[i].addrs)[k := addr]
      ensures Val(old(State()), i, k) != 0 ==> State() == old(State()) && logged == old(logged)
      ensures Val(old(State()), i, k) == 0 ==> logged == old(logged) + AllocLog(sb, addr)
      ensures Val(old(State()), i, k) == 0 && addr != 0 ==> At(disk, addr) == ZERO_BLOCK
      ensures addr == 0 ==> State() == old(State()) && DiskFull(sb, disk)
      ensures LogWritten(sb, old(disk), old(logged), disk, logged)
    {
      hide Val, Bits, Bit, Owned, Pointers, Marking, Since, LogWritten;
      NothingWritten(sb, disk, logged);
      AddrVal(State(), i, k);
      ghost var s0 := State();
      NoneMore(sb, s0, i, k);
      addr := inodes[i].addrs[k];
      if addr == 0 {
        addr := Balloc();
        if addr == 0 {
          MappedNothing(sb, s0, i);
          return;
        }
        ghost var s1 := State();
        AllocKeeps(sb, s0, addr);
        AllocSince(sb, s0, addr, i, k);
        AddrVal(s1, i, k);
        LinkKeeps(sb, s1, i, k, addr);
        LinkSince(sb, s1, i, k, addr);
        inodes := inodes[i := SetAddr(inodes[i], k, addr)];
        owner := owner[addr := Ptr(i, k)];
        assert State() == Linked(s1, i, k, addr);
        KeepsOn(s0, s1, State());
        SinceOn(sb, s0, s1, State(), i, k, 0, k, if k == NDIRECT then 0 else 1);
      } else {
        MappedNothing(sb, s0, i);
      }
    }

    /** One entry of the inode's indirect table, with a block allocated for it if it has
        none. */
    method LoadOrAllocEntry(i: nat, e: nat) returns (addr: Word)
      requires Consistent(sb, State(), Nothing) && Settled(owner) && IsSlot(inodes, i, NDIRECT) && e < NINDIRECT
      requires inodes[i].addrs[NDIRECT] != 0
      modifies this`disk, this`owner, this`logged
      ensures Mapped(sb, old(State()), State(), i) && addr == Val(State(), i, NDIRECT + 1 + e)
      ensures Since(sb, old(State()), State(), i, NDIRECT + e, 1)
      ensures Val(old(State()), i, NDIRECT + 1 + e) != 0 ==> State() == old(State()) && logged == old(logged)
      ensures Val(old(State()), i, NDIRECT + 1 + e) == 0 ==> logged == old(logged) + NewLog(sb, State(), i, NDIRECT + e)
      ensures Val(old(State()), i, NDIRECT + 1 + e) == 0 && addr != 0 ==> At(disk, addr) == ZERO_BLOCK
      ensures addr == 0 ==> State() == old(State()) && DiskFull(sb, disk)
      ensures LogWritten(sb, old(disk), old(logged), disk, logged)
    {
      hide Val, Bits, Bit, Owned, Pointers, Marking, PutWord, Since, LogWritten;
      NothingWritten(sb, disk, logged);
      ghost var s0 := State();
      var table := inodes[i].addrs[NDIRECT];
      TableBlocks(sb, s0, Nothing, i);
      EntryVal(s0, i, e);
      MappedNothing(sb, s0, i);
      NoneMore(sb, s0, i, NDIRECT + e);
      addr := GetWord(disk[table], e);
      if addr == 0 {
        addr := Balloc();
        if addr != 0 {
          ghost var s1 := State();
          AllocKeeps(sb, s0, addr);
          AllocSince(sb, s0, addr, i, NDIRECT + e);
          AllocKeepsTables(sb, s0, addr);
          EntryLinkKeeps(sb, s1, i, e, addr);
          EntryLinkSince(sb, s1, i, e, addr);
          BehindLog(sb, table);
          LogWrittenMore(sb, s0.disk, old(logged), disk, logged, table, PutWord(disk[table], e, addr));
          LogWrite(table, PutWord(disk[table], e, addr));
          owner := owner[addr := Ptr(i, NDIRECT + 1 + e)];
          assert State() == EntryLinked(s1, i, e, addr);
          KeepsOn(s0, s1, State());
          SinceOn(sb, s0, s1, State(), i, NDIRECT + e, 0, NDIRECT + e, 1);
          assert addr != table;
        }
      }
    }

    /** bmap; a block number beyond MAXFILE, which its callers never pass, would panic. */
    method Bmap(i: nat, bn: nat) returns (addr: Word)
      requires Consistent(sb, State(), Nothing) && Settled(owner) && i < |inodes| && bn < MAXFILE
      modifies this`disk, this`inodes, this`owner, this`logged
      ensures Mapped(sb, old(State()), State(), i) && IsSlot(old(inodes), i, NDIRECT)
              && addr == Val(State(), i, SlotOf(bn))
      ensures Since(sb, old(State()), State(), i, bn, 1)
              && (bn < NDIRECT ==> Table(State(), i) == Table(old(State()), i))
      ensures Val(old(State()), i, SlotOf(bn)) != 0 ==> State() == old(State()) && logged == old(logged)
      ensures Val(old(State()), i, SlotOf(bn)) == 0 && addr != 0 ==> At(disk, addr) == ZERO_BLOCK
      ensures addr == 0 ==> DiskFull(sb, disk)
      ensures logged == old(logged) + MapLog(sb, old(State()), State(), i, bn)
      ensures LogWritten(sb, old(disk), old(logged), disk, logged)
    {
      hide Val, Consistent, GetWord, DiskFull, Since, LogWritten;
      ShapeOf(sb, State(), i);
      if bn < NDIRECT {
        addr := LoadOrAlloc(i, bn);
      } else {
        addr := BmapIndirect(i, bn - NDIRECT);
      }
    }

    method BmapIndirect(i: nat, e: nat) returns (addr: Word)
      requires Consistent(sb, State(), Nothing) && Settled(owner) && IsSlot(inodes, i, NDIRECT) && e < NINDIRECT
      modifies this`disk, this`inodes, this`owner, this`logged
      ensures Mapped(sb, old(State()), State(), i) && addr == Val(State(), i, NDIRECT + 1 + e)
      ensures Since(sb, old(State()), State(), i, NDIRECT + e, 1)
      ensures Val(old(State()), i, NDIRECT + 1 + e) != 0 ==> State() == old(State()) && logged == old(logged)
      ensures Val(old(State()), i, NDIRECT + 1 + e) == 0 && addr != 0 ==> At(disk, addr) == ZERO_BLOCK
      ensures addr == 0 ==> DiskFull(sb, disk)
      ensures logged == old(logged) + MapLog(sb, old(State()), State(), i, NDIRECT + e)
      ensures LogWritten(sb, old(disk), old(logged), disk, logged)
    {
      hide Val, Consistent, GetWord, DiskFull, Settled, Keeps, Since, AllocLog, LogWritten;
      ghost var s0 := State();
      var table := LoadOrAlloc(i, NDIRECT);
      ghost var s1, l1 := State(), logged;
      AddrVal(s0, i, NDIRECT);
      AddrVal(s1, i, NDIRECT);
      EntryVal(s0, i, e);
      SinceAnywhere(sb, s0, s1, i, NDIRECT, NDIRECT + e);
      NoneMore(sb, s1, i, NDIRECT + e);
      SinceOn(sb, s0, s1, s1, i, NDIRECT + e, 0, NDIRECT + e, 1);
      if table == 0 {
        return 0;
      }
      FreshEntry(sb, s1, i, e);
      addr := LoadOrAllocEntry(i, e);
      LogWrittenOn(sb, s0.disk, old(logged), s1.disk, l1, disk, logged);
      KeepsOn(s0, s1, State());
      SinceOn(sb, s0, s1, State(), i, NDIRECT + e, 0, NDIRECT + e, 1);
    }

    /** iupdate: the disk's copy of the inode becomes the one in memory. The other inodes of
        the same block, and every other block, are as they were. */
    method Iupdate(i: nat)
      requires i < |inodes| && IBlock(sb, i) < |disk| && |inodes[i].addrs| == NDIRECT + 1
      modifies this`disk, this`logged
      ensures DiskInode(sb, disk, i) == inodes[i] && logged == old(logged) + {IBlock(sb, i)}
      ensures forall j: nat :: j != i ==> DiskInode(sb, disk, j) == DiskInode(sb, old(disk), j)
      ensures |disk| == |old(disk)| && disk == old(disk)[IBlock(sb, i) := disk[IBlock(sb, i)]]
      ensures LogWritten(sb, old(disk), old(logged), disk, logged)
    {
      hide GetInode, LogWritten;
      var dip := StoreInode(disk[IBlock(sb, i)], i % IPB, inodes[i]);
      LogWrittenOne(sb, disk, logged, IBlock(sb, i), dip);
      LogWrite(IBlock(sb, i), dip);
      forall j: nat | j != i
        ensures DiskInode(sb, disk, j) == DiskInode(sb, old(disk), j)
      {
        assert j / IPB == i / IPB ==> j % IPB != i % IPB;
      }
    }

    /** One turn of writei's loop: m bytes stored, or none when the disk is full. */
    method WriteBlock(ghost s0: FsState, i: nat, off: Word, src: seq<Byte>, tot: nat, ghost bn: nat) returns (m: nat)
      requires Writing(sb, s0, State(), i, off, src, tot) && tot < |src| && off + |src| <= MAXBYTES
               && bn == (off + tot) / BSIZE
      modifies this`disk, this`inodes, this`owner, this`logged
      ensures m == 0 || m == Piece(off + tot, |src| - tot)
      ensures m == 0 ==> DiskFull(sb, disk)
      ensures tot + m <= |src| && Writing(sb, s0, State(), i, off, src, tot + m)
      ensures IsSlot(inodes, i, NDIRECT) && IsSlot(old(inodes), i, NDIRECT) && bn < MAXFILE
              && (m == 0 <==> Val(State(), i, SlotOf(bn)) == 0)
      ensures Since(sb, old(State()), State(), i, bn, 1)
              && (bn < NDIRECT ==> Table(State(), i) == Table(old(State()), i))
      ensures logged
           == old(logged) + MapLog(sb, old(State()), State(), i, bn)
              + if m == 0 then {} else {Val(State(), i, SlotOf(bn))}
      ensures LogWritten(sb, old(disk), old(logged), disk, logged)
    {
      hide Val, Consistent, Writing, Keeps, Settled, DiskFull, Splice, SlotOf, AtBoundary, Since, MapLog, LogWritten;
      ghost var s := State();
      WritingFacts(sb, s0, s, i, off, src, tot);
      var addr := Bmap(i, (off + tot) / BSIZE);
      ghost var t := State();
      MappedMore(sb, s0, s, t, i, off, src, tot);
      WritingFacts(sb, s0, t, i, off, src, tot);
      if addr == 0 {
        return 0;
      }
      m := Piece(off + tot, |src| - tot);
      SlotInRange(sb, t, i, SlotOf((off + tot) / BSIZE));
      WroteMore(sb, s0, t, i, off, src, tot, m);
      PatchSince(sb, s, t, i, off + tot, src[tot..tot + m], bn);
      ghost var data := Splice(disk[addr], (off + tot) % BSIZE, src[tot..tot + m]);
      SlotBehindLog(sb, t, Nothing, i, SlotOf(bn));
      LogWrittenMore(sb, s.disk, old(logged), disk, logged, addr, data);
      LogWrite(addr, Splice(disk[addr], (off + tot) % BSIZE, src[tot..tot + m]));
    }

    method WriteLoop(i: nat, off: Word, src: seq<Byte>) returns (tot: int)
      requires Writing(sb, State(), State(), i, off, src, 0) && off + |src| <= MAXBYTES
      modifies this`disk, this`inodes, this`owner, this`logged
      ensures 0 <= tot <= |src| && Writing(sb, old(State()), State(), i, off, src, tot)
      ensures tot < |src| ==> DiskFull(sb, disk) && (tot == 0 || AtBoundary(off + tot))
      ensures SameHead(sb, old(State()), State())
              && Accounts(sb, old(State()), State(), i, off, tot, old(logged), logged)
      ensures LogWritten(sb, old(disk), old(logged), disk, logged)
    {
      hide Val, Consistent, Writing, Content, OnlyPointers, Touched, AtBoundary, Piece, SlotOf, Since, WriteLog, MapLog;
      hide Present, LogWritten;
      ghost var s0, l0, first := State(), logged, off / BSIZE;
      WritingFacts(sb, s0, s0, i, off, src, 0);
      tot := 0;
      NothingWritten(sb, disk, logged);
      SinceNone(sb, s0, i, first);
      NothingLogged(sb, s0, i, off);
      while tot < |src|
        invariant 0 <= tot <= |src| && Writing(sb, s0, State(), i, off, src, tot)
        invariant tot == 0 || AtBoundary(off + tot) || tot == |src|
        invariant IsSlot(s0.inodes, i, NDIRECT) && IsSlot(inodes, i, NDIRECT) && first + Touched(off, tot) <= MAXFILE
        invariant Since(sb, s0, State(), i, first, Touched(off, tot)) && Present(State(), i, first, Touched(off, tot))
        invariant logged == l0 + WriteLog(sb, s0, State(), i, first, Touched(off, tot))
        invariant LogWritten(sb, s0.disk, l0, disk, logged)
      {
        ghost var s1, l1, k := State(), logged, Touched(off, tot);
        TouchedNext(off, tot, |src| - tot);
        var m := WriteBlock(s0, i, off, src, tot, first + k);
        LogWrittenOn(sb, s0.disk, l0, s1.disk, l1, disk, logged);
        TurnTaken(sb, s0, s1, State(), i, first, k, m, l0, l1, logged);
        if m == 0 {
          break;
        }
        tot := tot + m;
      }
      WrittenIs(sb, s0, State(), i, off, tot, l0, logged);
    }

    /** writei, with a source that can always be read. */
    method Writei(i: nat, off: Word, src: seq<Byte>) returns (tot: int)
      requires Good(sb, State()) && i < |inodes| && |src| < 0x1_0000_0000
      modifies this`disk, this`inodes, this`owner, this`logged
      ensures tot == -1 <==> off > old(inodes[i].size) || off + |src| > MAXBYTES
      ensures tot == -1 ==> State() == old(State()) && logged == old(logged)
      ensures tot != -1 ==> Wrote(sb, old(State()), State(), i, off, src, tot)
      ensures tot != -1 ==>
                DiskInode(sb, disk, i) == inodes[i] && forall j: nat :: j < |inodes| && j != i ==>
                  DiskInode(sb, disk, j) == DiskInode(sb, old(disk), j)
      ensures tot != -1 ==> Accounts(sb, old(State()), State(), i, off, tot, old(logged) + {IBlock(sb, i)}, logged)
      ensures Good(sb, State()) && |inodes| == |old(inodes)|
      ensures LogWritten(sb, old(disk), old(logged), disk, logged)
    {
      hide Good, Val, Consistent, Writing, Content, OthersKept, Accounts, SameHead, GetInode, FileBytes, Splice;
      hide DiskFull, HoleFree, AtBoundary, LogWritten;
      NothingWritten(sb, disk, logged);
      ghost var s0 := State();
      if off > inodes[i].size || (off + |src|) % 0x1_0000_0000 < off {
        return -1;
      }
      if (off + |src|) % 0x1_0000_0000 > MAXBYTES {
        return -1;
      }
      StartWriting(sb, s0, i, off, src);
      GoodFacts(sb, s0, i);
      tot := WriteLoop(i, off, src);
      FinishWriting(sb, s0, State(), i, off, src, tot);
      WritingInodes(sb, s0, State(), i, off, src, tot);
      ghost var s1, l1 := State(), logged;
      if off + tot > inodes[i].size {
        inodes := inodes[i := inodes[i].(size := off + tot)];
      }
      ghost var s2 := State();
      assert s2 == Resized(s1, i, Max(s1.inodes[i].size, off + tot));
      GoodFacts(sb, s2, i);
      InodeBlockThere(sb, s2, i);
      Iupdate(i);
      LogWrittenOn(sb, s0.disk, old(logged), s1.disk, l1, disk, logged);
      InodeStored(sb, s0, s2, State(), i);
      SameHeadInodes(sb, s0, s1);
      WrittenToTheEnd(sb, s0, s1, s2, State(), i, off, tot, old(logged), l1, IBlock(sb, i));
    }

    /** readi: the bytes from off on, at most n, as far as the file goes. */
    method Readi(i: nat, off: Word, n: Word) returns (out: seq<Byte>)
      requires Good(sb, State()) && i < |inodes|
      modifies this`disk, this`inodes, this`owner, this`logged
      ensures State() == old(State()) && logged == old(logged)
      ensures FileOk(State(), i)
      ensures off > inodes[i].size || off + n >= 0x1_0000_0000 ==> out == []
      ensures off <= inodes[i].size && off + n < 0x1_0000_0000 ==>
                out == FileBytes(State(), i)[off..Min(off + n, inodes[i].size)]
    {
      hide Good, Val, Consistent, FileBytes, Content, HoleFree, Mapped, SlotOf, AtBoundary, DiskFull, Settled, NonZero;
      ghost var s0 := State();
      GoodFacts(sb, s0, i);
      if off > inodes[i].size || (off + n) % 0x1_0000_0000 < off {
        return [];
      }
      var count := if (off + n) % 0x1_0000_0000 > inodes[i].size then inodes[i].size - off else n;
      var tot := 0;
      out := [];
      ReadNothing(s0, i, off);
      while tot < count
        invariant 0 <= tot <= count && State() == s0 && logged == old(logged)
        invariant |FileBytes(s0, i)| == s0.inodes[i].size && out == FileBytes(s0, i)[off..off + tot]
      {
        BlockThere(sb, s0, i, off + tot);
        var addr := Bmap(i, (off + tot) / BSIZE);
        if addr == 0 {
          break;
        }
        var m := Piece(off + tot, count - tot);
        ReadMore(s0, i, off, tot, m);
        out := out + disk[addr][(off + tot) % BSIZE..(off + tot) % BSIZE + m];
        tot := tot + m;
      }
    }

    /** bfree of what slot k of the inode points to, if anything, and the store of 0. */
    method TruncPointer(i: nat, k: nat) returns (ok: bool)
      requires IsSlot(inodes, i, k) && k <= NDIRECT
      requires Consistent(sb, State(),
                          if k == NDIRECT && inodes[i].addrs[k] != 0 then Entries(i, NINDIRECT) else Nothing)
      modifies this`disk, this`inodes, this`owner, this`logged
      ensures ok && Consistent(sb, State(), Nothing) && Keeps(old(State()), State(), i)
              && OwnersLeft(old(owner), owner, i)
      ensures SameHead(sb, old(State()), State())
      ensures inodes == old(inodes)[i := SetAddr(old(inodes)[i], k, 0)]
      ensures LogWritten(sb, old(disk), old(logged), disk, logged)
    {
      hide Val, Bits, Bit, Owned, Pointers, Keeps, Marking, LogWritten;
      NothingWritten(sb, disk, logged);
      if inodes[i].addrs[k] != 0 {
        ghost var s0 := State();
        UnlinkKeeps(sb, s0, i, k);
        OwnedBit(sb, s0, inodes[i].addrs[k]);
        ok := Bfree(inodes[i].addrs[k]);
        if !ok {
          return;
        }
        FreedHead(sb, s0, s0.inodes[i].addrs[k]);
        inodes := inodes[i := SetAddr(inodes[i], k, 0)];
        assert State() == Unlinked(sb, s0, i, k);
      } else {
        KeepsSelf(State(), i);
        assert inodes[i].addrs[k := 0] == inodes[i].addrs;
        ok := true;
      }
    }

    /** The first loop of itrunc. */
    method TruncDirect(i: nat) returns (ok: bool)
      requires Consistent(sb, State(), Nothing) && IsSlot(inodes, i, 0)
      modifies this`disk, this`inodes, this`owner, this`logged
      ensures ok && Consistent(sb, State(), Nothing) && Keeps(old(State()), State(), i)
              && OwnersLeft(old(owner), owner, i)
      ensures SameHead(sb, old(State()), State())
      ensures IsSlot(inodes, i, 0) && OnlyPointers(old(State()), State(), i)
      ensures inodes[i].addrs == Zeros(NDIRECT) + [old(inodes[i].addrs[NDIRECT])]
      ensures LogWritten(sb, old(disk), old(logged), disk, logged)
    {
      hide Consistent, Keeps, OwnersLeft, SameHead, ClearedUpTo, OnlyPointers, LogWritten;
      NothingWritten(sb, disk, logged);
      ghost var s0 := State();
      var k := 0;
      NoneCleared(s0, i);
      HeadSelf(sb, s0);
      KeepsSelf(s0, i);
      OwnersLeftSelf(owner, i);
      while k < NDIRECT
        invariant 0 <= k <= NDIRECT
        invariant Consistent(sb, State(), Nothing) && Keeps(s0, State(), i) && OwnersLeft(s0.owner, owner, i)
                  && SameHead(sb, s0, State())
        invariant IsSlot(inodes, i, 0) && ClearedUpTo(s0, State(), i, k)
        invariant LogWritten(sb, s0.disk, old(logged), disk, logged)
      {
        ghost var s1, l1 := State(), logged;
        ok := TruncPointer(i, k);
        if !ok {
          return;
        }
        LogWrittenOn(sb, s0.disk, old(logged), s1.disk, l1, disk, logged);
        KeepsOnBut(s0, s1, State(), i);
        OwnersLeftOn(s0.owner, s1.owner, owner, i);
        HeadOn(sb, s0, s1, State());
        ClearedMore(s0, s1, State(), i, k);
        k := k + 1;
      }
      AllCleared(s0, State(), i);
      ok := true;
    }

    /** The second loop of itrunc: bfree of every block that the table lists. */
    method TruncEntries(i: nat) returns (ok: bool)
      requires Consistent(sb, State(), Nothing) && IsSlot(inodes, i, NDIRECT) && inodes[i].addrs[NDIRECT] != 0
      modifies this`disk, this`owner, this`logged
      ensures ok && Consistent(sb, State(), Entries(i, NINDIRECT)) && Keeps(old(State()), State(), i)
              && OwnersLeft(old(owner), owner, i)
      ensures SameHead(sb, old(State()), State())
      ensures LogWritten(sb, old(disk), old(logged), disk, logged)
    {
      hide Consistent, Keeps, OwnersLeft, Val, GetWord, Marking, SameHead, LogWritten;
      NothingWritten(sb, disk, logged);
      ghost var s0 := State();
      HeadSelf(sb, s0);
      TableBlocks(sb, s0, Nothing, i);
      var a := disk[inodes[i].addrs[NDIRECT]];
      var j := 0;
      KeepsSelf(s0, i);
      OwnersLeftSelf(owner, i);
      NoneGone(sb, s0, i);
      while j < NINDIRECT
        invariant 0 <= j <= NINDIRECT
        invariant Consistent(sb, State(), Entries(i, j)) && Keeps(s0, State(), i) && OwnersLeft(s0.owner, owner, i)
                  && SameHead(sb, s0, State())
        invariant s0.inodes[i].addrs[NDIRECT] < |disk| && disk[s0.inodes[i].addrs[NDIRECT]] == a
        invariant LogWritten(sb, s0.disk, old(logged), disk, logged)
      {
        ghost var s1, l1 := State(), logged;
        NothingWritten(sb, disk, logged);
        EntryVal(s1, i, j);
        FreeEntryKeeps(sb, s1, i, j);
        EntryFreedTable(sb, s1, i, j);
        EntryFreedHead(sb, s1, i, j);
        if GetWord(a, j) != 0 {
          ok := Bfree(GetWord(a, j));
          if !ok {
            return;
          }
        }
        LogWrittenOn(sb, s0.disk, old(logged), s1.disk, l1, disk, logged);
        assert State() == EntryFreed(sb, s1, i, j);
        KeepsOnBut(s0, s1, State(), i);
        OwnersLeftOn(s0.owner, s1.owner, owner, i);
        HeadOn(sb, s0, s1, State());
        j := j + 1;
      }
      ok := true;
    }

    /** itrunc: never "freeing free block"; exactly the blocks that the inode owned become
        free, and every other file keeps its bytes. */
    method Itrunc(i: nat) returns (ok: bool)
      requires Good(sb, State()) && i < |inodes|
      modifies this`disk, this`inodes, this`owner, this`logged
      ensures ok && Good(sb, State()) && OthersKept(old(State()), State(), i)
      ensures inodes == old(inodes)[i := old(inodes)[i].(size := 0, addrs := Zeros(NDIRECT + 1))]
      ensures DiskInode(sb, disk, i) == inodes[i] && forall j: nat :: j < |inodes| && j != i ==>
                DiskInode(sb, disk, j) == DiskInode(sb, old(disk), j)
      ensures FreedExactly(sb, old(State()), State(), i)
      ensures LogWritten(sb, old(disk), old(logged), disk, logged)
    {
      hide Good, Consistent, Keeps, OwnersLeft, OthersKept, SameHead, FreedExactly, GetInode, LogWritten;
      ghost var s0 := State();
      GoodFacts(sb, s0, i);
      ok := TruncDirect(i);
      if !ok {
        return;
      }
      ghost var s1, l1 := State(), logged;
      NothingWritten(sb, disk, logged);
      if inodes[i].addrs[NDIRECT] != 0 {
        ok := TruncEntries(i);
        if !ok {
          return;
        }
      }
      ghost var s2, l2 := State(), logged;
      LogWrittenOn(sb, s0.disk, old(logged), s1.disk, l1, disk, logged);
      HeadSelf(sb, s1);
      KeepsSelf(s1, i);
      OwnersLeftSelf(s1.owner, i);
      KeepsOnBut(s0, s1, s2, i);
      OwnersLeftOn(s0.owner, s1.owner, s2.owner, i);
      ok := TruncPointer(i, NDIRECT);
      if !ok {
        return;
      }
      ghost var s3, l3 := State(), logged;
      LogWrittenOn(sb, s0.disk, old(logged), s2.disk, l2, disk, logged);
      KeepsOnBut(s0, s2, s3, i);
      OwnersLeftOn(s0.owner, s2.owner, owner, i);
      inodes := inodes[i := inodes[i].(size := 0)];
      TruncatedGood(sb, s0, s3, i);
      HeadOn(sb, s0, s1, s2);
      HeadOn(sb, s0, s2, s3);
      SameHeadInodes(sb, s0, s3);
      ghost var s4 := State();
      GoodFacts(sb, s4, i);
      InodeBlockThere(sb, s4, i);
      Iupdate(i);
      LogWrittenOn(sb, s0.disk, old(logged), s3.disk, l3, disk, logged);
      InodeStored(sb, s0, s4, State(), i);
    }
  }
}
