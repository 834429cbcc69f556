/** Bitmap blocks: BPB = 8192 bits, bit bi in byte bi / 8 under the mask 1 << (bi % 8). */
module Bitmap {
  import opened Blocks

  const BPB: nat := 8 * BSIZE

  /** (x >> k) & 1, that is (x & (1 << k)) != 0 */
  predicate BitOf(x: nat, k: nat) {
    if k == 0 then x % 2 == 1 else BitOf(x / 2, k - 1)
  }

  /** x | (1 << k), or x & ~(1 << k) */
  function PutBit(x: nat, k: nat, on: bool): nat {
    if k == 0 then x / 2 * 2 + (if on then 1 else 0)
    else PutBit(x / 2, k - 1, on) * 2 + x % 2
  }

  function Pow2(n: nat): nat {
    if n == 0 then 1 else 2 * Pow2(n - 1)
  }

  lemma {:induction false} PutBitFits(x: nat, k: nat, on: bool, width: nat)
    requires x < Pow2(width) && k < width
    ensures PutBit(x, k, on) < Pow2(width)
  {
    var h := x / 2;
    assert Pow2(width) == 2 * Pow2(width - 1) && x == 2 * h + x % 2 && h < Pow2(width - 1);
    if k > 0 {
      PutBitFits(x / 2, k - 1, on, width - 1);
    }
  }

  lemma {:induction false} PutBitEffect(x: nat, k: nat, on: bool, j: nat)
    ensures BitOf(PutBit(x, k, on), j) <==> if j == k then on else BitOf(x, j)
  {
    if k > 0 && j > 0 {
      PutBitEffect(x / 2, k - 1, on, j - 1);
    }
  }

  predicate Marked(b: Block, bi: nat)
    requires bi < BPB
  {
    BitOf(b[bi / 8], bi % 8)
  }

  function Mark(b: Block, bi: nat, on: bool): (r: Block)
    requires bi < BPB
    ensures forall c: nat :: c < BPB ==> (Marked(r, c) <==> if c == bi then on else Marked(b, c))
  {
    MarkEffect(b, bi, on);
    b[bi / 8 := PutBit(b[bi / 8], bi % 8, on)]
  }

  lemma MarkEffect(b: Block, bi: nat, on: bool)
    requires bi < BPB
    ensures PutBit(b[bi / 8], bi % 8, on) < 0x100
    ensures forall c: nat :: c < BPB ==>
              (Marked(b[bi / 8 := PutBit(b[bi / 8], bi % 8, on)], c) <==> if c == bi then on else Marked(b, c))
  {
    assert Pow2(8) == 0x100;
    PutBitFits(b[bi / 8], bi % 8, on, 8);
    forall c: nat | c < BPB
      ensures Marked(b[bi / 8 := PutBit(b[bi / 8], bi % 8, on)], c) <==> if c == bi then on else Marked(b, c)
    {
      PutBitEffect(b[bi / 8], bi % 8, on, c % 8);
    }
  }
}
