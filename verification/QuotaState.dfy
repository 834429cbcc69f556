/** A file system, laid out as mkfs does it, in which one chunk of filewrite logs MAXOPBLOCKS
    blocks: four blocks are free, each under a bitmap block of its own, file 1 has its direct
    blocks, and files 2 to 62 have all of theirs. */
module QuotaState {
  import opened Blocks
  import opened Bitmap
  import opened DiskWrites
  import opened Inodes
  import opened Ownership
  import opened Accounting
  import opened Fs
  import opened File
  import opened Quota

  const NINODES: nat := 130256
  const SB: Super := Super(24604, 8179, NINODES, 33, 8175)
  const FREE: seq<nat> := [8191, 8192, 16532, 24603]
  const FULL_FILES: nat := 61
  const PER_FILE: nat := NSLOTS

  /** The layout of mkfs for this size and number of inodes: boot block, superblock, log,
      inodes, bitmap. */
  lemma MkfsLayout()
    ensures SB.inodestart == 2 + (LOGBLOCKS + 1) && SB.bmapstart == SB.inodestart + (NINODES / IPB + 1)
    ensures SB.nmeta == SB.bmapstart + (SB.size / BPB + 1) && Layout(SB, SB.size)
  {
  }

  // ----- who owns what

  /** The c-th block of the full files: those between the free ones 8192, 16532 and 24603. */
  function NthBlock(c: nat): nat {
    if c < 8339 then 8193 + c else 8194 + c
  }

  function Nth(b: nat): nat
    requires b >= 8193
  {
    if b < 16532 then b - 8193 else b - 8194
  }

  /** What slot k of file j holds. */
  function Held(j: nat, k: nat): Word
    requires k < NSLOTS
  {
    if j == 1 && k < NDIRECT then SB.nmeta + k
    else if 2 <= j < 2 + FULL_FILES then NthBlock(PER_FILE * (j - 2) + k)
    else 0
  }

  function OwnerOf(b: nat): Slot
    requires SB.nmeta <= b < SB.size && b !in FREE
  {
    if b < 8191 then Ptr(1, b - SB.nmeta) else Ptr(2 + Nth(b) / PER_FILE, Nth(b) % PER_FILE)
  }

  lemma OwnerHolds(b: nat)
    requires SB.nmeta <= b < SB.size && b !in FREE
    ensures OwnerOf(b).k < NSLOTS && 1 <= OwnerOf(b).inum < 2 + FULL_FILES && Held(OwnerOf(b).inum, OwnerOf(b).k) == b
  {
  }

  lemma HeldByOwner(j: nat, k: nat)
    requires k < NSLOTS && Held(j, k) != 0
    ensures SB.nmeta <= Held(j, k) < SB.size && Held(j, k) !in FREE && OwnerOf(Held(j, k)) == Ptr(j, k)
  {
    if j != 1 {
      Quotient(j - 2, k);
    }
  }

  lemma Quotient(q: nat, r: nat)
    requires r < PER_FILE
    ensures (PER_FILE * q + r) / PER_FILE == q && (PER_FILE * q + r) % PER_FILE == r
  {
  }

  // ----- the blocks

  /** A table whose first n entries are block numbers from `first` on. */
  function TableBlock(first: nat, n: nat): (b: Block)
    requires n <= NINDIRECT && first + n < 0x1_0000_0000
    ensures forall e: nat :: e < n ==> GetWord(b, e) == first + e
  {
    if n == 0 then ZERO_BLOCK else PutWord(TableBlock(first, n - 1), n - 1, first + n - 1)
  }

  predicate IsTable(b: nat) {
    8193 <= b < SB.size && b !in FREE && Nth(b) % PER_FILE == NDIRECT
  }

  function FullBlock(): Block {
    seq(BSIZE, _ => 0xFF)
  }

  lemma {:induction false} AllBits(n: nat, k: nat)
    requires k < n
    ensures Pow2(n) >= 1 && BitOf(Pow2(n) - 1, k)
  {
    if k > 0 {
      AllBits(n - 1, k - 1);
    } else if n > 1 {
      AllBits(n - 1, 0);
    }
  }

  lemma AllMarked(bi: nat)
    requires bi < BPB
    ensures Marked(FullBlock(), bi)
  {
    AllBits(8, bi % 8);
    assert Pow2(8) == 0x100;
  }

  function BitmapBlock(q: nat): Block
    requires q < 4
  {
    Mark(FullBlock(), FREE[q] % BPB, false)
  }

  lemma BitmapBits(q: nat, bi: nat)
    requires q < 4 && bi < BPB
    ensures Marked(BitmapBlock(q), bi) <==> bi != FREE[q] % BPB
  {
    AllMarked(bi);
  }

  function BlockOf(b: nat): Block
    requires b < SB.size
  {
    if SB.bmapstart <= b < SB.nmeta then BitmapBlock(b - SB.bmapstart)
    else if IsTable(b) then TableBlock(b + 1, NINDIRECT)
    else ZERO_BLOCK
  }

  function Disk(): (d: seq<Block>)
    ensures |d| == SB.size && forall b :: 0 <= b < SB.size ==> d[b] == BlockOf(b)
  {
    seq(SB.size, b requires 0 <= b < SB.size => BlockOf(b))
  }

  // ----- the inodes

  function Addrs(j: nat): (a: seq<Word>)
    ensures |a| == NDIRECT + 1 && forall k :: 0 <= k <= NDIRECT ==> a[k] == Held(j, k)
  {
    seq(NDIRECT + 1, k requires 0 <= k <= NDIRECT => Held(j, k))
  }

  function Size(j: nat): Word {
    if j == 1 then NDIRECT * BSIZE else if 2 <= j < 2 + FULL_FILES then MAXBYTES else 0
  }

  /** A regular file (type 2) with one link, or a free inode. */
  function InodeOf(j: nat): Inode {
    var used := if 1 <= j < 2 + FULL_FILES then 1 else 0;
    Inode(2 * used, 0, 0, used, Size(j), Addrs(j))
  }

  function Nodes(): (n: seq<Inode>)
    ensures |n| == NINODES && forall j :: 0 <= j < NINODES ==> n[j] == InodeOf(j)
  {
    seq(NINODES, j requires 0 <= j < NINODES => InodeOf(j))
  }

  ghost function Owners(): map<nat, Slot> {
    map b: nat | SB.nmeta <= b < SB.size && b !in FREE :: OwnerOf(b)
  }

  ghost function State(): FsState {
    FsState(Disk(), Nodes(), Owners())
  }

  // ----- it is a good state

  lemma StateParts()
    ensures State() == FsState(Disk(), Nodes(), Owners())
  {
  }

  lemma Slots(j: nat, k: nat)
    ensures IsSlot(Nodes(), j, k) <==> j < NINODES && k < NSLOTS
    ensures IsSlot(Nodes(), j, k) ==> Val(State(), j, k) == Held(j, k)
  {
    if j < NINODES && k < NSLOTS {
      StateParts();
      assert Nodes()[j].addrs == Addrs(j);
      if k > NDIRECT {
        TableOf(j, k - NDIRECT - 1);
      }
    }
  }

  lemma TableOf(j: nat, e: nat)
    requires e < NINDIRECT
    ensures Held(j, NDIRECT) == 0 ==> Held(j, NDIRECT + 1 + e) == 0
    ensures Held(j, NDIRECT) != 0 ==> GetWord(At(Disk(), Held(j, NDIRECT)), e) == Held(j, NDIRECT + 1 + e)
  {
    var t := Held(j, NDIRECT);
    if t != 0 {
      HeldByOwner(j, NDIRECT);
      Quotient(j - 2, NDIRECT);
      assert IsTable(t);
      assert Disk()[t] == BlockOf(t) == TableBlock(t + 1, NINDIRECT);
      Together(j - 2, NDIRECT + 1 + e);
    }
  }

  /** The blocks of one file follow each other. */
  lemma Together(q: nat, k: nat)
    requires NDIRECT < k < NSLOTS
    ensures NthBlock(PER_FILE * q + k) == NthBlock(PER_FILE * q + NDIRECT) + (k - NDIRECT)
  {
  }

  lemma BitOfBlock(b: nat)
    requires b < SB.size
    ensures Bit(SB, Disk(), b) <==> b !in FREE
  {
    var q := b / BPB;
    BitmapBits(q, b % BPB);
    hide Marked, Mark, BitmapBlock;
    assert At(Disk(), BBlock(SB, b)) == BlockOf(SB.bmapstart + q) == BitmapBlock(q);
    assert b == BPB * q + b % BPB;
    assert b % BPB == FREE[q] % BPB <==> b in FREE by {
      FreeBits(q, b % BPB);
    }
  }

  lemma FreeBits(q: nat, r: nat)
    requires q < 4 && r < BPB
    ensures BPB * q + r in FREE <==> r == FREE[q] % BPB
  {
  }

  lemma StateGood()
    ensures Good(SB, State())
  {
    MkfsLayout();
    StateParts();
    hide State, Bit, Val, OwnerOf, Held;
    forall b: nat | b < SB.size
      ensures Bit(SB, Disk(), b) <==> b < SB.nmeta || b in Owners()
    {
      BitOfBlock(b);
    }
    assert Bits(SB, State());
    assert Owned(SB, State(), Nothing) by {
      AllOwned();
    }
    assert Pointers(State(), Nothing) by {
      AllPointers();
    }
    assert Shape(SB, State());
    hide Bits, Owned, Pointers;
    OwnersSettled();
    AllFiles();
  }

  lemma AllOwned()
    ensures Owned(SB, State(), Nothing)
  {
    StateParts();
    hide State, Val, Held;
    forall b | b in Owners()
      ensures SB.nmeta <= b < SB.size && OwnerOf(b).Ptr? && Owns(State(), Nothing, OwnerOf(b), b)
    {
      OwnerHolds(b);
      Slots(OwnerOf(b).inum, OwnerOf(b).k);
    }
  }

  lemma AllPointers()
    ensures Pointers(State(), Nothing)
  {
    StateParts();
    hide State, Val, Held, OwnerOf;
    forall i: nat, k: nat | IsSlot(Nodes(), i, k) && Val(State(), i, k) != 0
      ensures Val(State(), i, k) in Owners() && Owners()[Val(State(), i, k)] == Ptr(i, k)
    {
      Slots(i, k);
      HeldByOwner(i, k);
    }
  }

  lemma OwnersSettled()
    ensures Settled(State().owner)
  {
    StateParts();
  }

  lemma AllFiles()
    ensures forall j :: 0 <= j < |State().inodes| ==> FileOk(State(), j)
  {
    StateParts();
    hide State, Val;
    forall j: nat | j < NINODES
      ensures FileOk(State(), j)
    {
      Slots(j, 0);
      assert Nodes()[j].size == Size(j);
      forall bn: nat | bn * BSIZE < Size(j)
        ensures Val(State(), j, SlotOf(bn)) != 0
      {
        Slots(j, SlotOf(bn));
      }
    }
  }

  lemma StateIsWorst()
    ensures WorstCase(SB, State(), 1, FREE)
  {
    StateGood();
    StateParts();
    hide State, Good, Bit;
    assert Nodes()[1] == InodeOf(1);
    forall c: nat | c <= FREE[3]
      ensures !Bit(SB, Disk(), c) <==> c in FREE
    {
      BitOfBlock(c);
    }
  }

  /** A chunk written over the last byte of file 1 and on. */
  method WriteChunk() returns (fs: FileSystem)
    ensures fresh(fs) && |fs.logged| == MAXOPBLOCKS
  {
    hide State, WorstCase, Good;
    StateIsWorst();
    StateParts();
    fs := new FileSystem(SB, Disk(), Nodes(), Owners());
    var tot := WriteWorst(fs, 1, Zeros(MAX_CHUNK), FREE);
  }
}
