/** The substitution tables are those of the standard, and each byte comes from the right two. */
module DesBoxes {
  import opened Bits64
  import opened DesTables
  import opened DesBlock

  // ----- the boxes as the standard prints them -----

  /** The first and the last of the six bits choose the row, the four between them the column. */
  function OneOf(x: bv8, r0: bv8, r1: bv8, r2: bv8, r3: bv8): bv8 {
    if x < 32 then (if x & 1 == 0 then r0 else r1) else if x & 1 == 0 then r2 else r3
  }

  function Column(x: bv8): bv8 { (x >> 1) & 15 }

  function At(column: bv8, d0: bv8, d1: bv8, d2: bv8, d3: bv8, d4: bv8, d5: bv8, d6: bv8, d7: bv8,
              d8: bv8, d9: bv8, d10: bv8, d11: bv8, d12: bv8, d13: bv8, d14: bv8, d15: bv8): bv8
  {
    match column
    case 0 => d0 case 1 => d1 case 2 => d2 case 3 => d3 case 4 => d4 case 5 => d5 case 6 => d6 case 7 => d7
    case 8 => d8 case 9 => d9 case 10 => d10 case 11 => d11 case 12 => d12 case 13 => d13 case 14 => d14
    case _ => d15
  }

  /** S1 of FIPS PUB 46-3, appendix 1. */
  function S1(x: bv8): bv8 {
    var c := Column(x);
    OneOf(x, At(c, 14, 4, 13, 1, 2, 15, 11, 8, 3, 10, 6, 12, 5, 9, 0, 7),
          At(c, 0, 15, 7, 4, 14, 2, 13, 1, 10, 6, 12, 11, 9, 5, 3, 8),
          At(c, 4, 1, 14, 8, 13, 6, 2, 11, 15, 12, 9, 7, 3, 10, 5, 0),
          At(c, 15, 12, 8, 2, 4, 9, 1, 7, 5, 11, 3, 14, 10, 0, 6, 13))
  }

  /** S2 of FIPS PUB 46-3, appendix 1. */
  function S2(x: bv8): bv8 {
    var c := Column(x);
    OneOf(x, At(c, 15, 1, 8, 14, 6, 11, 3, 4, 9, 7, 2, 13, 12, 0, 5, 10),
          At(c, 3, 13, 4, 7, 15, 2, 8, 14, 12, 0, 1, 10, 6, 9, 11, 5),
          At(c, 0, 14, 7, 11, 10, 4, 13, 1, 5, 8, 12, 6, 9, 3, 2, 15),
          At(c, 13, 8, 10, 1, 3, 15, 4, 2, 11, 6, 7, 12, 0, 5, 14, 9))
  }

  /** S3 of FIPS PUB 46-3, appendix 1. */
  function S3(x: bv8): bv8 {
    var c := Column(x);
    OneOf(x, At(c, 10, 0, 9, 14, 6, 3, 15, 5, 1, 13, 12, 7, 11, 4, 2, 8),
          At(c, 13, 7, 0, 9, 3, 4, 6, 10, 2, 8, 5, 14, 12, 11, 15, 1),
          At(c, 13, 6, 4, 9, 8, 15, 3, 0, 11, 1, 2, 12, 5, 10, 14, 7),
          At(c, 1, 10, 13, 0, 6, 9, 8, 7, 4, 15, 14, 3, 11, 5, 2, 12))
  }

  /** S4 of FIPS PUB 46-3, appendix 1. */
  function S4(x: bv8): bv8 {
    var c := Column(x);
    OneOf(x, At(c, 7, 13, 14, 3, 0, 6, 9, 10, 1, 2, 8, 5, 11, 12, 4, 15),
          At(c, 13, 8, 11, 5, 6, 15, 0, 3, 4, 7, 2, 12, 1, 10, 14, 9),
          At(c, 10, 6, 9, 0, 12, 11, 7, 13, 15, 1, 3, 14, 5, 2, 8, 4),
          At(c, 3, 15, 0, 6, 10, 1, 13, 8, 9, 4, 5, 11, 12, 7, 2, 14))
  }

  /** S5 of FIPS PUB 46-3, appendix 1. */
  function S5(x: bv8): bv8 {
    var c := Column(x);
    OneOf(x, At(c, 2, 12, 4, 1, 7, 10, 11, 6, 8, 5, 3, 15, 13, 0, 14, 9),
          At(c, 14, 11, 2, 12, 4, 7, 13, 1, 5, 0, 15, 10, 3, 9, 8, 6),
          At(c, 4, 2, 1, 11, 10, 13, 7, 8, 15, 9, 12, 5, 6, 3, 0, 14),
          At(c, 11, 8, 12, 7, 1, 14, 2, 13, 6, 15, 0, 9, 10, 4, 5, 3))
  }

  /** S6 of FIPS PUB 46-3, appendix 1. */
  function S6(x: bv8): bv8 {
    var c := Column(x);
    OneOf(x, At(c, 12, 1, 10, 15, 9, 2, 6, 8, 0, 13, 3, 4, 14, 7, 5, 11),
          At(c, 10, 15, 4, 2, 7, 12, 9, 5, 6, 1, 13, 14, 0, 11, 3, 8),
          At(c, 9, 14, 15, 5, 2, 8, 12, 3, 7, 0, 4, 10, 1, 13, 11, 6),
          At(c, 4, 3, 2, 12, 9, 5, 15, 10, 11, 14, 1, 7, 6, 0, 8, 13))
  }

  /** S7 of FIPS PUB 46-3, appendix 1. */
  function S7(x: bv8): bv8 {
    var c := Column(x);
    OneOf(x, At(c, 4, 11, 2, 14, 15, 0, 8, 13, 3, 12, 9, 7, 5, 10, 6, 1),
          At(c, 13, 0, 11, 7, 4, 9, 1, 10, 14, 3, 5, 12, 2, 15, 8, 6),
          At(c, 1, 4, 11, 13, 12, 3, 7, 14, 10, 15, 6, 8, 0, 5, 9, 2),
          At(c, 6, 11, 13, 8, 1, 4, 10, 7, 9, 5, 0, 15, 14, 2, 3, 12))
  }

  /** S8 of FIPS PUB 46-3, appendix 1. */
  function S8(x: bv8): bv8 {
    var c := Column(x);
    OneOf(x, At(c, 13, 2, 8, 4, 6, 15, 11, 1, 10, 9, 3, 14, 5, 0, 12, 7),
          At(c, 1, 15, 13, 8, 10, 3, 7, 4, 12, 5, 6, 11, 0, 14, 9, 2),
          At(c, 7, 11, 4, 1, 9, 12, 14, 2, 0, 6, 10, 13, 15, 3, 5, 8),
          At(c, 2, 1, 14, 7, 4, 10, 8, 13, 15, 12, 9, 0, 3, 5, 6, 11))
  }

  // ----- the packed tables hold two boxes each -----

  lemma Table0(x: bv8)
    requires x < 64
    ensures Substitution0(x) == (S1(x) << 4) | S2(x) && S1(x) < 16 && S2(x) < 16
  {
  }

  lemma Table1(x: bv8)
    requires x < 64
    ensures Substitution1(x) == (S3(x) << 4) | S4(x) && S3(x) < 16 && S4(x) < 16
  {
  }

  lemma Table2(x: bv8)
    requires x < 64
    ensures Substitution2(x) == (S5(x) << 4) | S6(x) && S5(x) < 16 && S6(x) < 16
  {
  }

  lemma Table3(x: bv8)
    requires x < 64
    ensures Substitution3(x) == (S7(x) << 4) | S8(x) && S7(x) < 16 && S8(x) < 16
  {
  }

  lemma Joined(s: bv8, t: bv8, high: bv8, low: bv8, high': bv8, low': bv8)
    requires s == (high << 4) | low && t == (high' << 4) | low' && low < 16 && low' < 16
    ensures (s & 0xf0) | (t & 0x0f) == (high << 4) | low'
  {
  }

  lemma Pair0(x: bv8, y: bv8)
    requires x < 64 && y < 64
    ensures (Substitution0(x) & 0xf0) | (Substitution0(y) & 0x0f) == (S1(x) << 4) | S2(y)
  {
    Table0(x);
    Table0(y);
    Joined(Substitution0(x), Substitution0(y), S1(x), S2(x), S1(y), S2(y));
  }

  lemma Pair1(x: bv8, y: bv8)
    requires x < 64 && y < 64
    ensures (Substitution1(x) & 0xf0) | (Substitution1(y) & 0x0f) == (S3(x) << 4) | S4(y)
  {
    Table1(x);
    Table1(y);
    Joined(Substitution1(x), Substitution1(y), S3(x), S4(x), S3(y), S4(y));
  }

  lemma Pair2(x: bv8, y: bv8)
    requires x < 64 && y < 64
    ensures (Substitution2(x) & 0xf0) | (Substitution2(y) & 0x0f) == (S5(x) << 4) | S6(y)
  {
    Table2(x);
    Table2(y);
    Joined(Substitution2(x), Substitution2(y), S5(x), S6(x), S5(y), S6(y));
  }

  lemma Pair3(x: bv8, y: bv8)
    requires x < 64 && y < 64
    ensures (Substitution3(x) & 0xf0) | (Substitution3(y) & 0x0f) == (S7(x) << 4) | S8(y)
  {
    Table3(x);
    Table3(y);
    Joined(Substitution3(x), Substitution3(y), S7(x), S8(x), S7(y), S8(y));
  }

  lemma Byte0(b: Block)
    requires forall k :: 0 <= k < 8 ==> b[k] < 64
    ensures Substituted(b)[0] == (Substitution0(b[0]) & 0xf0) | (Substitution0(b[1]) & 0x0f)
  {
  }

  lemma Byte1(b: Block)
    requires forall k :: 0 <= k < 8 ==> b[k] < 64
    ensures Substituted(b)[1] == (Substitution1(b[2]) & 0xf0) | (Substitution1(b[3]) & 0x0f)
  {
  }

  lemma Byte2(b: Block)
    requires forall k :: 0 <= k < 8 ==> b[k] < 64
    ensures Substituted(b)[2] == (Substitution2(b[4]) & 0xf0) | (Substitution2(b[5]) & 0x0f)
  {
  }

  lemma Byte3(b: Block)
    requires forall k :: 0 <= k < 8 ==> b[k] < 64
    ensures Substituted(b)[3] == (Substitution3(b[6]) & 0xf0) | (Substitution3(b[7]) & 0x0f)
  {
  }

  /** The eight groups of six bits go through the standard's eight boxes, and the results are joined
      in pairs, the first of a pair in the high nibble. */
  lemma BoxesAreStandard(b: Block)
    requires forall n :: 0 <= n < 8 ==> b[n] < 64
    ensures Substituted(b) == [(S1(b[0]) << 4) | S2(b[1]), (S3(b[2]) << 4) | S4(b[3]),
                               (S5(b[4]) << 4) | S6(b[5]), (S7(b[6]) << 4) | S8(b[7]), 0, 0, 0, 0]
  {
    Byte0(b);
    Pair0(b[0], b[1]);
    Byte1(b);
    Pair1(b[2], b[3]);
    Byte2(b);
    Pair2(b[4], b[5]);
    Byte3(b);
    Pair3(b[6], b[7]);
  }

  lemma XorBit(x: bv8, y: bv8, m: bv8)
    requires m in {0x80, 0x40, 0x20, 0x10, 0x08, 0x04, 0x02, 0x01}
    ensures (x ^ y) & m != 0 <==> (x & m != 0) != (y & m != 0)
  {
  }

  lemma XorByteBit(x: bv8, y: bv8, k: nat)
    requires k < 8
    ensures ByteBit(x ^ y, k) <==> ByteBit(x, k) != ByteBit(y, k)
  {
    XorBit(x, y, Mask(k));
  }

  lemma CombinedByte(b: Block, f: Block, n: nat)
    requires n < 4
    ensures WithLeft(b, f)[n] == b[n] ^ f[n + 4]
  {
    if n == 0 {
    } else if n == 1 {
    } else if n == 2 {
    } else {
      assert n == 3;
    }
  }

  lemma RightStays(b: Block, f: Block, n: nat)
    requires 4 <= n < 8
    ensures WithLeft(b, f)[n] == b[n]
  {
    assert WithLeft(b, f)[n] == WithLeft(b, f)[4..][n - 4] && b[n] == b[4..][n - 4];
  }

  lemma CombinedBit(b: Block, f: Block, k: nat)
    requires k < 64
    ensures Bit(WithLeft(b, f), k) <==> Bit(b, k) != (k < 32 && Bit(f, k + 32))
  {
    if k < 32 {
      CombinedByte(b, f, k / 8);
      assert (k + 32) / 8 == k / 8 + 4 && (k + 32) % 8 == k % 8;
      XorByteBit(b[k / 8], f[k / 8 + 4], k % 8);
    } else {
      RightStays(b, f, k / 8);
    }
  }

  lemma ValueBit(b: Block, k: nat)
    requires k < 32
    ensures Bit(Transposed(b), k + 32) <==> Bit(b, PTable(k) - 1)
  {
    assert Bit(Transposed(b), k + 32) == TransposedBit(b, k + 32);
  }

  /** A round flips exactly those bits of the left half for which the permutation P picks a bit
      that the boxes set, and leaves the right half alone. */
  lemma RoundFlipsBits(b: Block, k: nat)
    requires k < 64
    ensures Bit(Round(b), k) <==> Bit(b, k) != (k < 32 && Bit(Substituted(ShiftExpansion(b)), PTable(k) - 1))
  {
    CombinedBit(b, RoundValue(b), k);
    if k < 32 {
      ValueBit(Substituted(ShiftExpansion(b)), k);
    }
  }
}
