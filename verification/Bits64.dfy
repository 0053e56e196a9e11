/** The bits of a 64-bit block kept as eight bytes, most significant bit first. */
module Bits64 {

  type Block = b: seq<bv8> | |b| == 8 witness [0, 0, 0, 0, 0, 0, 0, 0]

  function Mask(k: nat): bv8
    requires k < 8
  {
    match k
    case 0 => 0x80 case 1 => 0x40 case 2 => 0x20 case 3 => 0x10
    case 4 => 0x08 case 5 => 0x04 case 6 => 0x02 case _ => 0x01
  }

  predicate ByteBit(x: bv8, k: nat)
    requires k < 8
  {
    x & Mask(k) != 0
  }

  predicate Bit(b: Block, k: nat)
    requires k < 64
  {
    ByteBit(b[k / 8], k % 8)
  }

  lemma MasksAreDisjoint(j: nat, k: nat)
    requires j < 8 && k < 8 && j != k
    ensures Mask(j) & Mask(k) == 0
  {
    match j
    case 0 => case 1 => case 2 => case 3 => case 4 => case 5 => case 6 => case _ =>
  }

  lemma OrKeepsOtherBits(x: bv8, m: bv8, y: bv8)
    ensures m & y == 0 ==> (x | y) & m == x & m
    ensures (x | m) & m == m
  {
  }

  lemma OrSetsBit(x: bv8, j: nat, k: nat)
    requires j < 8 && k < 8
    ensures ByteBit(x | Mask(j), k) <==> j == k || ByteBit(x, k)
  {
    OrKeepsOtherBits(x, Mask(k), Mask(j));
    if j != k {
      MasksAreDisjoint(k, j);
    }
  }

  lemma SameByteFromMasks(x: bv8, y: bv8)
    requires (x & 0x80 != 0) == (y & 0x80 != 0)
    requires (x & 0x40 != 0) == (y & 0x40 != 0)
    requires (x & 0x20 != 0) == (y & 0x20 != 0)
    requires (x & 0x10 != 0) == (y & 0x10 != 0)
    requires (x & 0x08 != 0) == (y & 0x08 != 0)
    requires (x & 0x04 != 0) == (y & 0x04 != 0)
    requires (x & 0x02 != 0) == (y & 0x02 != 0)
    requires (x & 0x01 != 0) == (y & 0x01 != 0)
    ensures x == y
  {
  }

  lemma SameByte(x: bv8, y: bv8)
    requires forall k :: 0 <= k < 8 ==> ByteBit(x, k) == ByteBit(y, k)
    ensures x == y
  {
    assert ByteBit(x, 0) == ByteBit(y, 0) && ByteBit(x, 1) == ByteBit(y, 1);
    assert ByteBit(x, 2) == ByteBit(y, 2) && ByteBit(x, 3) == ByteBit(y, 3);
    assert ByteBit(x, 4) == ByteBit(y, 4) && ByteBit(x, 5) == ByteBit(y, 5);
    assert ByteBit(x, 6) == ByteBit(y, 6) && ByteBit(x, 7) == ByteBit(y, 7);
    SameByteFromMasks(x, y);
  }

  /** A block is determined by its 64 bits. */
  lemma SameBlock(a: Block, b: Block)
    requires forall k :: 0 <= k < 64 ==> Bit(a, k) == Bit(b, k)
    ensures a == b
  {
    forall n | 0 <= n < 8
      ensures a[n] == b[n]
    {
      forall k | 0 <= k < 8
        ensures ByteBit(a[n], k) == ByteBit(b[n], k)
      {
        assert (8 * n + k) / 8 == n && (8 * n + k) % 8 == k;
        assert Bit(a, 8 * n + k) == Bit(b, 8 * n + k);
      }
      SameByte(a[n], b[n]);
    }
  }

  /** Setting bit `k` of a block in place changes that bit alone. */
  lemma SetBlockBit(b: Block, k: nat, j: nat)
    requires k < 64 && j < 64
    ensures Bit(b[k / 8 := b[k / 8] | Mask(k % 8)], j) <==> j == k || Bit(b, j)
  {
    if j / 8 == k / 8 {
      OrSetsBit(b[k / 8], k % 8, j % 8);
    }
  }

  lemma SameBytes(a: Block, b: Block)
    requires forall n :: 0 <= n < 8 ==> a[n] == b[n]
    ensures a == b
  {
  }

  lemma ZeroByte(k: nat)
    requires k < 8
    ensures !ByteBit(0, k)
  {
    assert Mask(k) & 0 == 0;
  }
}
