/** Disk blocks: BSIZE bytes, also read as little-endian 32-bit words (the log
    header and the indirect blocks are arrays of `uint` laid over a block). */
module Blocks {
  const BSIZE: nat := 1024
  const WORDS_PER_BLOCK: nat := 256

  type Byte = x: int | 0 <= x < 0x100
  type Half = x: int | 0 <= x < 0x1_0000
  type Word = x: int | 0 <= x < 0x1_0000_0000
  type Block = b: seq<Byte> | |b| == BSIZE witness seq(BSIZE, _ => 0)

  /** The block that bzero stores. */
  const ZERO_BLOCK: Block := Zeros(BSIZE)

  function Zeros(n: nat): (s: seq<Byte>)
    ensures |s| == n && forall i :: 0 <= i < n ==> s[i] == 0
  {
    seq(n, _ => 0)
  }

  function GetWord(b: Block, j: nat): Word
    requires j < WORDS_PER_BLOCK
  {
    var low: int := b[4 * j] as int + 0x100 * (b[4 * j + 1] as int);
    var high: int := b[4 * j + 2] as int + 0x100 * (b[4 * j + 3] as int);
    low + 0x1_0000 * high
  }

  function WordBytes(w: Word): (s: seq<Byte>)
    ensures |s| == 4
  {
    [w % 0x100, w / 0x100 % 0x100, w / 0x1_0000 % 0x100, w / 0x100_0000]
  }

  function PutWord(b: Block, j: nat, w: Word): (r: Block)
    requires j < WORDS_PER_BLOCK
    ensures GetWord(r, j) == w
    ensures forall k: nat :: k < WORDS_PER_BLOCK && k != j ==> GetWord(r, k) == GetWord(b, k)
  {
    PutWordEffect(b, j, w);
    b[..4 * j] + WordBytes(w) + b[4 * j + 4..]
  }

  lemma PutWordEffect(b: Block, j: nat, w: Word)
    requires j < WORDS_PER_BLOCK
    ensures |b[..4 * j] + WordBytes(w) + b[4 * j + 4..]| == BSIZE
    ensures GetWord(b[..4 * j] + WordBytes(w) + b[4 * j + 4..], j) == w
    ensures forall k: nat :: k < WORDS_PER_BLOCK && k != j ==>
              GetWord(b[..4 * j] + WordBytes(w) + b[4 * j + 4..], k) == GetWord(b, k)
  {
    var r := b[..4 * j] + WordBytes(w) + b[4 * j + 4..];
    assert r[4 * j] == w % 0x100 && r[4 * j + 1] == w / 0x100 % 0x100;
    assert r[4 * j + 2] == w / 0x1_0000 % 0x100 && r[4 * j + 3] == w / 0x100_0000;
    assert forall i | 0 <= i < BSIZE && !(4 * j <= i < 4 * j + 4) :: r[i] == b[i];
  }

  lemma ZeroBlockWords(j: nat)
    requires j < WORDS_PER_BLOCK
    ensures GetWord(ZERO_BLOCK, j) == 0
  {
  }
}
