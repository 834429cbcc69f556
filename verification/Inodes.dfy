/** Inodes in memory, and IPB of them packed into a block: sixteen words each, the first two
    of which hold two short fields. */
module Inodes {
  import opened Blocks

  const NDIRECT: nat := 12
  const IPB: nat := 16
  const INODE_WORDS: nat := 16

  /** The fields of struct dinode; addrs are NDIRECT + 1 block numbers. */
  datatype Inode = Inode(kind: Half, major: Half, minor: Half, nlink: Half, size: Word, addrs: seq<Word>)

  /** Two shorts in one word. */
  function TwoHalves(low: Half, high: Half): Word {
    low + 0x1_0000 * high
  }

  /** Word m of inode k of a block. */
  function InodeWord(b: Block, k: nat, m: nat): Word
    requires k < IPB && m < INODE_WORDS
  {
    GetWord(b, INODE_WORDS * k + m)
  }

  /** The inode as its sixteen words. */
  function Packed(ino: Inode, m: nat): Word
    requires |ino.addrs| == NDIRECT + 1 && m < INODE_WORDS
  {
    if m == 0 then TwoHalves(ino.kind, ino.major)
    else if m == 1 then TwoHalves(ino.minor, ino.nlink)
    else if m == 2 then ino.size
    else ino.addrs[m - 3]
  }

  function GetInode(b: Block, k: nat): (ino: Inode)
    requires k < IPB
    ensures |ino.addrs| == NDIRECT + 1
  {
    var w0, w1 := InodeWord(b, k, 0), InodeWord(b, k, 1);
    Inode(w0 % 0x1_0000, w0 / 0x1_0000, w1 % 0x1_0000, w1 / 0x1_0000, InodeWord(b, k, 2),
          seq(NDIRECT + 1, m requires 0 <= m < NDIRECT + 1 => InodeWord(b, k, m + 3)))
  }

  /** A block whose words are those of an inode reads as that inode. */
  lemma ReadsAs(b: Block, k: nat, ino: Inode)
    requires k < IPB && |ino.addrs| == NDIRECT + 1
    requires forall m: nat :: m < INODE_WORDS ==> InodeWord(b, k, m) == Packed(ino, m)
    ensures GetInode(b, k) == ino
  {
    hide InodeWord;
    assert InodeWord(b, k, 0) == Packed(ino, 0) && InodeWord(b, k, 1) == Packed(ino, 1)
           && InodeWord(b, k, 2) == Packed(ino, 2);
    forall m: nat | m < NDIRECT + 1
      ensures InodeWord(b, k, m + 3) == ino.addrs[m]
    {
      assert InodeWord(b, k, m + 3) == Packed(ino, m + 3);
    }
    assert GetInode(b, k).addrs == ino.addrs;
  }

  /** Words of other inodes of the block. */
  lemma ReadsOn(b: Block, c: Block, k: nat)
    requires k < IPB && forall m: nat :: m < INODE_WORDS ==> InodeWord(c, k, m) == InodeWord(b, k, m)
    ensures GetInode(c, k) == GetInode(b, k)
  {
    hide InodeWord;
    assert InodeWord(c, k, 0) == InodeWord(b, k, 0) && InodeWord(c, k, 1) == InodeWord(b, k, 1)
           && InodeWord(c, k, 2) == InodeWord(b, k, 2);
    var old', new' := GetInode(b, k).addrs, GetInode(c, k).addrs;
    forall m | 0 <= m < NDIRECT + 1
      ensures new'[m] == old'[m]
    {
      assert InodeWord(c, k, m + 3) == InodeWord(b, k, m + 3);
    }
    assert new' == old';
  }

  /** The stores of iupdate into slot k of a block: that inode, and no other of the block. */
  method StoreInode(b: Block, k: nat, ino: Inode) returns (r: Block)
    requires k < IPB && |ino.addrs| == NDIRECT + 1
    ensures GetInode(r, k) == ino && forall j: nat :: j < IPB && j != k ==> GetInode(r, j) == GetInode(b, j)
  {
    hide GetWord, PutWord, GetInode;
    r := PutWord(b, INODE_WORDS * k, TwoHalves(ino.kind, ino.major));
    r := PutWord(r, INODE_WORDS * k + 1, TwoHalves(ino.minor, ino.nlink));
    r := PutWord(r, INODE_WORDS * k + 2, ino.size);
    var m := 0;
    while m < NDIRECT + 1
      invariant 0 <= m <= NDIRECT + 1
      invariant forall n: nat :: n < m + 3 ==> InodeWord(r, k, n) == Packed(ino, n)
      invariant forall j: nat, n: nat :: j < IPB && j != k && n < INODE_WORDS ==>
                  InodeWord(r, j, n) == InodeWord(b, j, n)
    {
      r := PutWord(r, INODE_WORDS * k + 3 + m, ino.addrs[m]);
      m := m + 1;
    }
    ReadsAs(r, k, ino);
    forall j: nat | j < IPB && j != k
      ensures GetInode(r, j) == GetInode(b, j)
    {
      ReadsOn(b, r, j);
    }
  }
}
