/** Who owns each block of the file system: the free bitmap against the block pointers
    of every inode, and what each elementary change of fs.c does to that agreement. */
module Ownership {
  import opened Blocks
  import opened Bitmap
  import opened Inodes

  const NINDIRECT: nat := WORDS_PER_BLOCK
  const MAXFILE: nat := NDIRECT + NINDIRECT
  const NSLOTS: nat := NDIRECT + 1 + NINDIRECT

  /** The superblock; blocks below nmeta are boot block, log, inodes and bitmap. */
  datatype Super = Super(size: nat, nmeta: nat, ninodes: nat, inodestart: nat, bmapstart: nat)

  /** A place that holds a block number: slot k of an inode is a direct pointer for
      k < NDIRECT, the indirect table for k == NDIRECT, and an entry of that table
      above. Pending is a block that balloc returned and nothing points to yet. */
  datatype Slot = Pending | Ptr(inum: nat, k: nat)

  /** The table entries that itrunc, which never clears them, has freed so far. */
  datatype Gone = Nothing | Entries(inum: nat, n: nat)

  predicate IsGone(gone: Gone, i: nat, k: nat) {
    gone.Entries? && gone.inum == i && NDIRECT < k <= NDIRECT + gone.n
  }

  datatype FsState = FsState(disk: seq<Block>, inodes: seq<Inode>, owner: map<nat, Slot>)

  /** BBLOCK and IBLOCK. */
  function BBlock(sb: Super, b: nat): nat {
    b / BPB + sb.bmapstart
  }

  function IBlock(sb: Super, inum: nat): nat {
    inum / IPB + sb.inodestart
  }

  /** The layout that mkfs produces. */
  predicate Layout(sb: Super, blocks: nat) {
    && 0 < sb.nmeta <= sb.size <= blocks && sb.size < 0x1_0000_0000
    && BBlock(sb, sb.size - 1) < sb.nmeta
    && IBlock(sb, sb.ninodes) < sb.bmapstart
  }

  predicate Shape(sb: Super, s: FsState) {
    && Layout(sb, |s.disk|) && |s.inodes| == sb.ninodes
    && forall i :: 0 <= i < |s.inodes| ==> |s.inodes[i].addrs| == NDIRECT + 1
  }

  function At(disk: seq<Block>, b: nat): Block {
    if b < |disk| then disk[b] else ZERO_BLOCK
  }

  /** The block number in slot k of an inode, 0 when there is none. */
  function SlotVal(disk: seq<Block>, ino: Inode, k: nat): Word
    requires |ino.addrs| == NDIRECT + 1 && k < NSLOTS
  {
    if k <= NDIRECT then ino.addrs[k]
    else if ino.addrs[NDIRECT] == 0 then 0
    else GetWord(At(disk, ino.addrs[NDIRECT]), k - NDIRECT - 1)
  }

  predicate IsSlot(inodes: seq<Inode>, i: nat, k: nat) {
    i < |inodes| && |inodes[i].addrs| == NDIRECT + 1 && k < NSLOTS
  }

  function Val(s: FsState, i: nat, k: nat): Word
    requires IsSlot(s.inodes, i, k)
  {
    SlotVal(s.disk, s.inodes[i], k)
  }

  predicate Bit(sb: Super, disk: seq<Block>, b: nat) {
    Marked(At(disk, BBlock(sb, b)), b % BPB)
  }

  // ----- the agreement

  /** A bit is set iff the block is metadata or has an owner. */
  ghost predicate Bits(sb: Super, s: FsState) {
    forall b: nat :: b < sb.size ==> (Bit(sb, s.disk, b) <==> b < sb.nmeta || b in s.owner)
  }

  /** Every owned block is a data block, and its owner points to it. */
  ghost predicate Owned(sb: Super, s: FsState, gone: Gone) {
    forall b :: b in s.owner ==> sb.nmeta <= b < sb.size && (s.owner[b].Ptr? ==> Owns(s, gone, s.owner[b], b))
  }

  ghost predicate Owns(s: FsState, gone: Gone, p: Slot, b: nat)
    requires p.Ptr?
  {
    !IsGone(gone, p.inum, p.k) && IsSlot(s.inodes, p.inum, p.k) && Val(s, p.inum, p.k) == b
  }

  /** What a slot points to is owned by that slot alone. */
  ghost predicate Pointers(s: FsState, gone: Gone) {
    forall i: nat, k: nat :: IsSlot(s.inodes, i, k) && !IsGone(gone, i, k) && Val(s, i, k) != 0 ==>
      Val(s, i, k) in s.owner && s.owner[Val(s, i, k)] == Ptr(i, k)
  }

  /** The invariant; `gone` says which blocks itrunc has freed but not unlinked. */
  ghost predicate Consistent(sb: Super, s: FsState, gone: Gone) {
    Shape(sb, s) && Bits(sb, s) && Owned(sb, s, gone) && Pointers(s, gone)
  }

  /** The statement the invariant stands for: a bit is set exactly when the block is
      metadata, is owned by exactly one slot of exactly one inode, or was allocated a
      moment ago; two slots never hold the same block. */
  lemma BitsMeanOwners(sb: Super, s: FsState, b: nat)
    requires Consistent(sb, s, Nothing) && b < sb.size
    ensures Bit(sb, s.disk, b) <==> b < sb.nmeta || (b in s.owner && s.owner[b].Pending?)
                                    || exists i: nat, k: nat :: IsSlot(s.inodes, i, k) && Val(s, i, k) == b && b != 0
    ensures forall i: nat, k: nat, j: nat, m: nat ::
              IsSlot(s.inodes, i, k) && IsSlot(s.inodes, j, m) && Val(s, i, k) == Val(s, j, m) != 0
              ==> i == j && k == m
    ensures forall i: nat, k: nat :: IsSlot(s.inodes, i, k) && Val(s, i, k) != 0 ==> sb.nmeta <= Val(s, i, k) < sb.size
  {
    if b in s.owner && s.owner[b].Ptr? {
      assert Owns(s, Nothing, s.owner[b], b);
    }
    forall i: nat, k: nat, j: nat, m: nat | IsSlot(s.inodes, i, k) && IsSlot(s.inodes, j, m)
      && Val(s, i, k) == Val(s, j, m) != 0
      ensures i == j && k == m
    {
      assert s.owner[Val(s, i, k)] == Ptr(i, k) && s.owner[Val(s, j, m)] == Ptr(j, m);
    }
  }

  /** What the slots of every inode but `but` held, and the data in those blocks, is
      kept. */
  ghost predicate Keeps(s: FsState, t: FsState, but: int) {
    forall i: nat, k: nat :: i != but && IsSlot(s.inodes, i, k) && Val(s, i, k) != 0 ==>
      IsSlot(t.inodes, i, k) && Val(t, i, k) == Val(s, i, k)
      && (k != NDIRECT ==> At(t.disk, Val(s, i, k)) == At(s.disk, Val(s, i, k)))
  }

  // ----- elementary changes

  function Marking(sb: Super, disk: seq<Block>, b: nat, on: bool): (r: seq<Block>)
    requires BBlock(sb, b) < |disk|
    ensures |r| == |disk|
  {
    disk[BBlock(sb, b) := Mark(disk[BBlock(sb, b)], b % BPB, on)]
  }

  /** After balloc returned b: marked, zeroed and not yet pointed to. */
  function Allocated(sb: Super, s: FsState, b: nat): FsState
    requires Layout(sb, |s.disk|) && b < sb.size
  {
    s.(disk := Marking(sb, s.disk, b, true)[b := ZERO_BLOCK], owner := s.owner[b := Pending])
  }

  function Linked(s: FsState, i: nat, k: nat, b: Word): FsState
    requires IsSlot(s.inodes, i, k) && k <= NDIRECT
  {
    s.(inodes := s.inodes[i := SetAddr(s.inodes[i], k, b)], owner := s.owner[b := Ptr(i, k)])
  }

  function SetAddr(ino: Inode, k: nat, b: Word): Inode
    requires k < |ino.addrs|
  {
    ino.(addrs := ino.addrs[k := b])
  }

  function EntryLinked(s: FsState, i: nat, j: nat, b: Word): FsState
    requires IsSlot(s.inodes, i, NDIRECT) && j < NINDIRECT && s.inodes[i].addrs[NDIRECT] < |s.disk|
  {
    var t := s.inodes[i].addrs[NDIRECT];
    s.(disk := s.disk[t := PutWord(s.disk[t], j, b)], owner := s.owner[b := Ptr(i, NDIRECT + 1 + j)])
  }

  function Freed(sb: Super, s: FsState, b: nat): FsState
    requires Layout(sb, |s.disk|) && b < sb.size
  {
    s.(disk := Marking(sb, s.disk, b, false), owner := s.owner - {b})
  }

  lemma BitmapBlocks(sb: Super, b: nat)
    requires Layout(sb, sb.size) && b < sb.size
    ensures BBlock(sb, b) < sb.nmeta
  {
    assert b / BPB <= (sb.size - 1) / BPB;
  }

  lemma BitAfter(sb: Super, disk: seq<Block>, b: nat, on: bool, c: nat)
    requires BBlock(sb, b) < |disk|
    ensures Bit(sb, Marking(sb, disk, b, on), c) <==> if c == b then on else Bit(sb, disk, c)
  {
    assert c / BPB == b / BPB && c % BPB == b % BPB ==> c == b;
  }

  /** Tables are data blocks with an owner, so a write elsewhere changes no slot. */
  lemma TableBlocks(sb: Super, s: FsState, gone: Gone, i: nat)
    requires Consistent(sb, s, gone) && i < |s.inodes| && s.inodes[i].addrs[NDIRECT] != 0
    ensures s.inodes[i].addrs[NDIRECT] in s.owner && s.owner[s.inodes[i].addrs[NDIRECT]] == Ptr(i, NDIRECT)
    ensures sb.nmeta <= s.inodes[i].addrs[NDIRECT] < sb.size <= |s.disk|
  {
    assert IsSlot(s.inodes, i, NDIRECT) && Val(s, i, NDIRECT) == s.inodes[i].addrs[NDIRECT];
  }

  /** A change of disk blocks that hold no table. */
  ghost predicate TablesKept(s: FsState, t: FsState) {
    && t.inodes == s.inodes && |t.disk| == |s.disk|
    && forall i :: 0 <= i < |s.inodes| && |s.inodes[i].addrs| == NDIRECT + 1 && s.inodes[i].addrs[NDIRECT] != 0 ==>
         At(t.disk, s.inodes[i].addrs[NDIRECT]) == At(s.disk, s.inodes[i].addrs[NDIRECT])
  }

  lemma SlotsKept(s: FsState, t: FsState)
    requires TablesKept(s, t)
    ensures forall i: nat, k: nat :: IsSlot(s.inodes, i, k) ==> Val(t, i, k) == Val(s, i, k)
  {
  }

  lemma AllocKeepsTables(sb: Super, s: FsState, b: nat)
    requires Consistent(sb, s, Nothing) && sb.nmeta <= b < sb.size && !Bit(sb, s.disk, b)
    ensures TablesKept(s, Allocated(sb, s, b)) && b !in s.owner
  {
    BitmapBlocks(sb, b);
    forall i | 0 <= i < |s.inodes| && s.inodes[i].addrs[NDIRECT] != 0
      ensures s.inodes[i].addrs[NDIRECT] != b && s.inodes[i].addrs[NDIRECT] >= sb.nmeta
    {
      TableBlocks(sb, s, Nothing, i);
    }
  }

  lemma AllocKeepsBits(sb: Super, s: FsState, b: nat)
    requires Shape(sb, s) && Bits(sb, s) && sb.nmeta <= b < sb.size
    ensures Bits(sb, Allocated(sb, s, b))
  {
    BitmapBlocks(sb, b);
    var t := Allocated(sb, s, b);
    forall c: nat | c < sb.size
      ensures Bit(sb, t.disk, c) <==> c < sb.nmeta || c in t.owner
    {
      hide Marked, Mark;
      BitmapBlocks(sb, c);
      BitAfter(sb, s.disk, b, true, c);
      assert At(t.disk, BBlock(sb, c)) == At(Marking(sb, s.disk, b, true), BBlock(sb, c));
      assert Bit(sb, s.disk, c) <==> c < sb.nmeta || c in s.owner;
    }
  }

  lemma AllocKeeps(sb: Super, s: FsState, b: nat)
    requires Consistent(sb, s, Nothing) && sb.nmeta <= b < sb.size && !Bit(sb, s.disk, b)
    ensures Consistent(sb, Allocated(sb, s, b), Nothing) && Keeps(s, Allocated(sb, s, b), -1)
  {
    var t := Allocated(sb, s, b);
    AllocKeepsBits(sb, s, b);
    AllocKeepsTables(sb, s, b);
    BitmapBlocks(sb, b);
    hide Bits, Bit, Marking;
    SlotsKept(s, t);
    forall c | c in t.owner
      ensures sb.nmeta <= c < sb.size && (t.owner[c].Ptr? ==> Owns(t, Nothing, t.owner[c], c))
    {
      assert c != b ==> c in s.owner;
    }
  }

  /** Writing a data block, or changing an owner, changes no bit. */
  lemma DataBlockBits(sb: Super, s: FsState, b: nat, data: Block, t: FsState)
    requires Layout(sb, |s.disk|) && Bits(sb, s) && sb.nmeta <= b < sb.size
    requires t.disk == s.disk[b := data] && t.owner.Keys == s.owner.Keys
    ensures Bits(sb, t)
  {
    forall c: nat | c < sb.size
      ensures Bit(sb, t.disk, c) <==> c < sb.nmeta || c in t.owner
    {
      BitmapBlocks(sb, c);
      assert Bit(sb, s.disk, c) <==> c < sb.nmeta || c in s.owner;
    }
  }

  // ----- pointing to an allocated block

  lemma LinkKeeps(sb: Super, s: FsState, i: nat, k: nat, b: Word)
    requires Consistent(sb, s, Nothing) && IsSlot(s.inodes, i, k) && k <= NDIRECT && Val(s, i, k) == 0
    requires b in s.owner && s.owner[b] == Pending && (k == NDIRECT ==> s.disk[b] == ZERO_BLOCK)
    ensures Consistent(sb, Linked(s, i, k, b), Nothing) && Keeps(s, Linked(s, i, k, b), -1)
    ensures Val(Linked(s, i, k, b), i, k) == b
  {
    hide Bits, Bit;
    var t := Linked(s, i, k, b);
    DataBlockBits(sb, s, b, s.disk[b], t);
    LinkSlots(s, i, k, b);
  }

  /** Only the slot changes: the entries of a fresh table are zero. */
  lemma LinkSlots(s: FsState, i: nat, k: nat, b: Word)
    requires IsSlot(s.inodes, i, k) && k <= NDIRECT && Val(s, i, k) == 0
             && (k == NDIRECT ==> At(s.disk, b) == ZERO_BLOCK)
    ensures forall j: nat, m: nat :: IsSlot(s.inodes, j, m) ==>
              Val(Linked(s, i, k, b), j, m) == if j == i && m == k then b else Val(s, j, m)
  {
    forall j: nat, m: nat | IsSlot(s.inodes, j, m)
      ensures Val(Linked(s, i, k, b), j, m) == if j == i && m == k then b else Val(s, j, m)
    {
      if j == i && k == NDIRECT < m {
        ZeroBlockWords(m - NDIRECT - 1);
      }
    }
  }

  lemma EntryLinkKeepsSlots(sb: Super, s: FsState, i: nat, e: nat, b: Word)
    requires Consistent(sb, s, Nothing) && IsSlot(s.inodes, i, NDIRECT) && e < NINDIRECT
    requires s.inodes[i].addrs[NDIRECT] != 0 && Val(s, i, NDIRECT + 1 + e) == 0
    ensures s.inodes[i].addrs[NDIRECT] < |s.disk|
    ensures forall j: nat, m: nat :: IsSlot(s.inodes, j, m) ==>
              Val(EntryLinked(s, i, e, b), j, m) == if j == i && m == NDIRECT + 1 + e then b else Val(s, j, m)
  {
    TableBlocks(sb, s, Nothing, i);
    var t := EntryLinked(s, i, e, b);
    forall j: nat, m: nat | IsSlot(s.inodes, j, m)
      ensures Val(t, j, m) == if j == i && m == NDIRECT + 1 + e then b else Val(s, j, m)
    {
      if m > NDIRECT && s.inodes[j].addrs[NDIRECT] != 0 {
        TableBlocks(sb, s, Nothing, j);
      }
    }
  }

  lemma EntryLinkKeeps(sb: Super, s: FsState, i: nat, e: nat, b: Word)
    requires Consistent(sb, s, Nothing) && IsSlot(s.inodes, i, NDIRECT) && e < NINDIRECT
    requires s.inodes[i].addrs[NDIRECT] != 0 && Val(s, i, NDIRECT + 1 + e) == 0
    requires b in s.owner && s.owner[b] == Pending
    ensures s.inodes[i].addrs[NDIRECT] < |s.disk|
    ensures Consistent(sb, EntryLinked(s, i, e, b), Nothing) && Keeps(s, EntryLinked(s, i, e, b), -1)
    ensures Val(EntryLinked(s, i, e, b), i, NDIRECT + 1 + e) == b
  {
    hide Val, Bit, Bits;
    EntryLinkKeepsSlots(sb, s, i, e, b);
    TableBlocks(sb, s, Nothing, i);
    var t, table := EntryLinked(s, i, e, b), s.inodes[i].addrs[NDIRECT];
    DataBlockBits(sb, s, table, t.disk[table], t);
    assert Owned(sb, t, Nothing); assert Pointers(t, Nothing); assert Shape(sb, t);
  }

  // ----- writing data

  lemma DataWriteKeeps(sb: Super, s: FsState, i: nat, k: nat, data: Block)
    requires Consistent(sb, s, Nothing) && IsSlot(s.inodes, i, k) && k != NDIRECT && Val(s, i, k) != 0
    ensures Val(s, i, k) < |s.disk|
    ensures Consistent(sb, s.(disk := s.disk[Val(s, i, k) := data]), Nothing)
    ensures forall j: nat, m: nat :: IsSlot(s.inodes, j, m) ==>
              Val(s.(disk := s.disk[Val(s, i, k) := data]), j, m) == Val(s, j, m)
    ensures forall j: nat, m: nat :: IsSlot(s.inodes, j, m) && (j != i || m != k) && Val(s, j, m) != 0 ==>
              Val(s, j, m) != Val(s, i, k)
  {
    var v := Val(s, i, k);
    assert v in s.owner && s.owner[v] == Ptr(i, k);
    var t := s.(disk := s.disk[v := data]);
    forall j | 0 <= j < |s.inodes| && s.inodes[j].addrs[NDIRECT] != 0
      ensures s.inodes[j].addrs[NDIRECT] != v
    {
      TableBlocks(sb, s, Nothing, j);
    }
    SlotsKept(s, t);
    DataBlockBits(sb, s, v, data, t);
    assert Owned(sb, t, Nothing); assert Pointers(t, Nothing); assert Shape(sb, t);

  }

  // ----- freeing

  lemma FreeKeepsBits(sb: Super, s: FsState, b: nat)
    requires Shape(sb, s) && Bits(sb, s) && sb.nmeta <= b < sb.size
    ensures Bits(sb, Freed(sb, s, b))
  {
    BitmapBlocks(sb, b);
    var t := Freed(sb, s, b);
    forall c: nat | c < sb.size
      ensures Bit(sb, t.disk, c) <==> c < sb.nmeta || c in t.owner
    {
      hide Marked, Mark;
      BitAfter(sb, s.disk, b, false, c);
      assert Bit(sb, s.disk, c) <==> c < sb.nmeta || c in s.owner;
    }
  }

  /** bfree writes the bitmap alone, so no slot changes. */
  lemma FreeKeepsSlots(sb: Super, s: FsState, gone: Gone, b: nat)
    requires Consistent(sb, s, gone) && b < sb.size
    ensures forall j: nat, m: nat :: IsSlot(s.inodes, j, m) ==> Val(Freed(sb, s, b), j, m) == Val(s, j, m)
    ensures forall c :: sb.nmeta <= c < sb.size ==> At(Freed(sb, s, b).disk, c) == At(s.disk, c)
  {
    BitmapBlocks(sb, b);
    forall i | 0 <= i < |s.inodes| && s.inodes[i].addrs[NDIRECT] != 0
      ensures s.inodes[i].addrs[NDIRECT] >= sb.nmeta
    {
      TableBlocks(sb, s, gone, i);
    }
    SlotsKept(s, Freed(sb, s, b));
  }

  function Unlinked(sb: Super, s: FsState, i: nat, k: nat): FsState
    requires Layout(sb, |s.disk|) && IsSlot(s.inodes, i, k) && k <= NDIRECT && s.inodes[i].addrs[k] < sb.size
  {
    Freed(sb, s, s.inodes[i].addrs[k]).(inodes := s.inodes[i := SetAddr(s.inodes[i], k, 0)])
  }

  /** bfree of a direct block, or of a table whose entries are all gone, and the store of 0. */
  lemma UnlinkKeeps(sb: Super, s: FsState, i: nat, k: nat)
    requires IsSlot(s.inodes, i, k) && k <= NDIRECT && s.inodes[i].addrs[k] != 0
    requires Consistent(sb, s, if k == NDIRECT then Entries(i, NINDIRECT) else Nothing)
    ensures s.inodes[i].addrs[k] < sb.size && s.inodes[i].addrs[k] in s.owner
            && s.owner[s.inodes[i].addrs[k]] == Ptr(i, k)
    ensures Consistent(sb, Unlinked(sb, s, i, k), Nothing) && Keeps(s, Unlinked(sb, s, i, k), i)
  {
    hide Val, Bit, Bits;
    var gone := if k == NDIRECT then Entries(i, NINDIRECT) else Nothing;
    var v := s.inodes[i].addrs[k];
    AddrVal(s, i, k);
    assert v in s.owner && s.owner[v] == Ptr(i, k);
    var t := Unlinked(sb, s, i, k);
    FreeKeepsBits(sb, s, v);
    DataBlockBits(sb, Freed(sb, s, v), v, Freed(sb, s, v).disk[v], t);
    FreeKeepsSlots(sb, s, gone, v);
    UnlinkSlots(sb, s, gone, i, k);
    assert Shape(sb, t);
    assert Owned(sb, t, Nothing);
    assert Pointers(t, Nothing);
  }

  lemma AddrVal(s: FsState, i: nat, k: nat)
    requires IsSlot(s.inodes, i, k) && k <= NDIRECT
    ensures Val(s, i, k) == s.inodes[i].addrs[k]
  {
  }

  lemma UnlinkSlots(sb: Super, s: FsState, gone: Gone, i: nat, k: nat)
    requires Consistent(sb, s, gone) && IsSlot(s.inodes, i, k) && k <= NDIRECT && s.inodes[i].addrs[k] < sb.size
    ensures forall j: nat, m: nat :: IsSlot(s.inodes, j, m) ==>
              Val(Unlinked(sb, s, i, k), j, m) == if j == i && (m == k || k == NDIRECT < m) then 0 else Val(s, j, m)
  {
    FreeKeepsSlots(sb, s, gone, s.inodes[i].addrs[k]);
    var f, t := Freed(sb, s, s.inodes[i].addrs[k]), Unlinked(sb, s, i, k);
    forall j: nat, m: nat | IsSlot(s.inodes, j, m)
      ensures Val(t, j, m) == if j == i && (m == k || k == NDIRECT < m) then 0 else Val(s, j, m)
    {
      assert Val(f, j, m) == Val(s, j, m);
    }
  }

  function EntryFreed(sb: Super, s: FsState, i: nat, e: nat): FsState
    requires Layout(sb, |s.disk|) && IsSlot(s.inodes, i, NDIRECT + 1 + e)
    requires Val(s, i, NDIRECT + 1 + e) < sb.size
  {
    if Val(s, i, NDIRECT + 1 + e) == 0 then s else Freed(sb, s, Val(s, i, NDIRECT + 1 + e))
  }

  lemma FreeEntryKeeps(sb: Super, s: FsState, i: nat, e: nat)
    requires Consistent(sb, s, Entries(i, e)) && IsSlot(s.inodes, i, NDIRECT + 1 + e)
    ensures Val(s, i, NDIRECT + 1 + e) != 0 ==>
              Val(s, i, NDIRECT + 1 + e) in s.owner && s.owner[Val(s, i, NDIRECT + 1 + e)] == Ptr(i, NDIRECT + 1 + e)
    ensures Val(s, i, NDIRECT + 1 + e) < sb.size
    ensures Consistent(sb, EntryFreed(sb, s, i, e), Entries(i, e + 1)) && Keeps(s, EntryFreed(sb, s, i, e), i)
  {
    hide Val, Bit, Bits;
    if Val(s, i, NDIRECT + 1 + e) != 0 {
      FreeOwnedEntry(sb, s, i, NDIRECT + 1 + e);
    }
  }

  lemma FreeOwnedEntry(sb: Super, s: FsState, i: nat, k: nat)
    requires k > NDIRECT && Consistent(sb, s, Entries(i, k - NDIRECT - 1)) && IsSlot(s.inodes, i, k)
             && Val(s, i, k) != 0
    ensures var v := Val(s, i, k);
            && v < sb.size && v in s.owner && s.owner[v] == Ptr(i, k)
            && Consistent(sb, Freed(sb, s, v), Entries(i, k - NDIRECT)) && Keeps(s, Freed(sb, s, v), i)
  {
    hide Val, Bit, Bits;
    var v, gone, after := Val(s, i, k), Entries(i, k - NDIRECT - 1), Entries(i, k - NDIRECT);
    assert v in s.owner && s.owner[v] == Ptr(i, k);
    FreeKeepsBits(sb, s, v);
    FreeKeepsSlots(sb, s, gone, v);
    var t := Freed(sb, s, v);
    assert forall p: Slot :: p.Ptr? && p != Ptr(i, k) ==> (IsGone(after, p.inum, p.k) <==> IsGone(gone, p.inum, p.k));
    hide IsGone;
    assert Owned(sb, t, after);
    assert Pointers(t, after);
  }
}
