/** src/common/des.cpp: the one-round variant of DES used on 64-bit blocks. */
module DesBlock {
  import opened Bits64
  import opened DesTables

  // ---- The transform on values ----

  function Gather8(bits: seq<bool>): (r: bv8)
    requires |bits| == 8
    ensures forall k :: 0 <= k < 8 ==> ByteBit(r, k) == bits[k]
  {
    var r := GatherPrefix(bits, 8);
    r
  }

  function GatherPrefix(bits: seq<bool>, n: nat): (r: bv8)
    requires n <= |bits| == 8
    ensures forall k :: 0 <= k < n ==> ByteBit(r, k) == bits[k]
    ensures forall k :: n <= k < 8 ==> !ByteBit(r, k)
  {
    if n == 0 then
      ZeroByteAll();
      0
    else
      var x := GatherPrefix(bits, n - 1);
      OrSetsBitAll(x, n - 1);
      var y := x | Mask(n - 1);
      assert forall k :: n <= k < 8 ==> ByteBit(y, k) == ByteBit(x, k);
      if bits[n - 1] then y else x
  }

  lemma ZeroByteAll()
    ensures forall k :: 0 <= k < 8 ==> !ByteBit(0, k)
  {
    forall k | 0 <= k < 8
      ensures !ByteBit(0, k)
    {
      ZeroByte(k);
    }
  }

  lemma OrSetsBitAll(x: bv8, j: nat)
    requires j < 8
    ensures forall k :: 0 <= k < 8 ==> (ByteBit(x | Mask(j), k) <==> j == k || ByteBit(x, k))
  {
    forall k | 0 <= k < 8
      ensures ByteBit(x | Mask(j), k) <==> j == k || ByteBit(x, k)
    {
      OrSetsBit(x, j, k);
    }
  }

  /** The block with the given 64 bits. */
  function Gather(bits: seq<bool>): (r: Block)
    requires |bits| == 64
    ensures forall k :: 0 <= k < 64 ==> Bit(r, k) == bits[k]
  {
    var r := seq(8, n requires 0 <= n < 8 => Gather8(bits[8 * n..8 * n + 8]));
    GatheredBits(bits, r);
    r
  }

  lemma GatheredBits(bits: seq<bool>, r: Block)
    requires |bits| == 64
    requires forall n :: 0 <= n < 8 ==> r[n] == Gather8(bits[8 * n..8 * n + 8])
    ensures forall k :: 0 <= k < 64 ==> Bit(r, k) == bits[k]
  {
    forall k | 0 <= k < 64
      ensures Bit(r, k) == bits[k]
    {
      var n := k / 8;
      assert r[n] == Gather8(bits[8 * n..8 * n + 8]);
      assert bits[8 * n..8 * n + 8][k % 8] == bits[k];
    }
  }

  predicate InitialBit(b: Block, k: nat)
    requires k < 64
  {
    Bit(b, IpTable(k) - 1)
  }

  function Initial(b: Block): (r: Block)
    ensures forall k :: 0 <= k < 64 ==> Bit(r, k) == InitialBit(b, k)
  {
    Gather(seq(64, k requires 0 <= k < 64 => InitialBit(b, k)))
  }

  predicate FinalBit(b: Block, k: nat)
    requires k < 64
  {
    Bit(b, FpTable(k) - 1)
  }

  function Final(b: Block): (r: Block)
    ensures forall k :: 0 <= k < 64 ==> Bit(r, k) == FinalBit(b, k)
  {
    Gather(seq(64, k requires 0 <= k < 64 => FinalBit(b, k)))
  }

  /** FIPS PUB 46-3, "Enciphering": the two permutations undo each other, position by position. */
  lemma TablesAreInverse(k: nat)
    requires k < 64
    ensures FpTable(IpTable(k) - 1) == k + 1
    ensures IpTable(FpTable(k) - 1) == k + 1
  {
    if k < 32 {
      FpUndoesIpLow(k);
      IpUndoesFpLow(k);
    } else {
      FpUndoesIpHigh(k);
      IpUndoesFpHigh(k);
    }
  }

  lemma FpUndoesIpLow(k: nat)
    requires k < 32
    ensures FpTable(IpTable(k) - 1) == k + 1
  {
  }

  lemma FpUndoesIpHigh(k: nat)
    requires 32 <= k < 64
    ensures FpTable(IpTable(k) - 1) == k + 1
  {
  }

  lemma IpUndoesFpLow(k: nat)
    requires k < 32
    ensures IpTable(FpTable(k) - 1) == k + 1
  {
  }

  lemma IpUndoesFpHigh(k: nat)
    requires 32 <= k < 64
    ensures IpTable(FpTable(k) - 1) == k + 1
  {
  }

  lemma BitThroughBoth(b: Block, k: nat)
    requires k < 64
    ensures FinalBit(Initial(b), k) == Bit(b, k)
    ensures InitialBit(Final(b), k) == Bit(b, k)
  {
    TablesAreInverse(k);
    BitOfInitial(b, FpTable(k) - 1, k);
    BitOfFinal(b, IpTable(k) - 1, k);
  }

  lemma BitOfInitial(b: Block, k: nat, j: nat)
    requires k < 64 && j < 64 && IpTable(k) == j + 1
    ensures Bit(Initial(b), k) == Bit(b, j)
  {
    assert InitialBit(b, k) == Bit(b, j);
  }

  lemma BitOfFinal(b: Block, k: nat, j: nat)
    requires k < 64 && j < 64 && FpTable(k) == j + 1
    ensures Bit(Final(b), k) == Bit(b, j)
  {
    assert FinalBit(b, k) == Bit(b, j);
  }

  lemma PermutationsAreInverse(b: Block)
    ensures Final(Initial(b)) == b
    ensures Initial(Final(b)) == b
  {
    forall k | 0 <= k < 64
      ensures FinalBit(Initial(b), k) == Bit(b, k) && InitialBit(Final(b), k) == Bit(b, k)
    {
      BitThroughBoth(b, k);
    }
    SameBlock(Final(Initial(b)), b);
    SameBlock(Initial(Final(b)), b);
  }

  /** Bit `j` of the right half, counted from 1 as the tables do. */
  predicate HalfBit(b: Block, j: nat)
    requires 1 <= j <= 32
  {
    Bit(b, 31 + j)
  }

  /** The expansion E of the right half as the standard tables it: six bits to a byte, left-aligned. */
  function TableExpansion(b: Block): (r: Block)
    ensures forall n, k :: 0 <= n < 8 && 0 <= k < 6 ==> ByteBit(r[n], k) == HalfBit(b, ExpandTable(6 * n + k))
    ensures forall n :: 0 <= n < 8 ==> !ByteBit(r[n], 6) && !ByteBit(r[n], 7)
  {
    seq(8, n requires 0 <= n < 8 =>
      Gather8(seq(8, k requires 0 <= k < 8 => k < 6 && HalfBit(b, ExpandTable(6 * n + k)))))
  }

  /** The last bit of `p` and the first five of `c`. */
  function Even(p: bv8, c: bv8): (r: bv8)
    ensures r < 64
  {
    ((p << 5) | (c >> 3)) & 0x3f
  }

  /** The last five bits of `p` and the first of `c`. */
  function Odd(p: bv8, c: bv8): (r: bv8)
    ensures r < 64
  {
    ((p << 1) | (c >> 7)) & 0x3f
  }

  function ShiftGroup(b: Block, n: nat): (r: bv8)
    requires n < 8
    ensures r < 64
  {
    match n
    case 0 => Even(b[7], b[4])
    case 1 => Odd(b[4], b[5])
    case 2 => Even(b[4], b[5])
    case 3 => Odd(b[5], b[6])
    case 4 => Even(b[5], b[6])
    case 5 => Odd(b[6], b[7])
    case 6 => Even(b[6], b[7])
    case _ => Odd(b[7], b[4])
  }

  /** The expansion the code computes with shifts: six bits to a byte, right-aligned. */
  function ShiftExpansion(b: Block): (r: Block)
    ensures forall n :: 0 <= n < 8 ==> r[n] == ShiftGroup(b, n) && r[n] < 64
  {
    seq(8, n requires 0 <= n < 8 => ShiftGroup(b, n))
  }

  /** Group `n` of the shifted form is the table's group, moved down by two bits. */
  predicate GroupAgrees(b: Block, n: nat)
    requires n < 8
  {
    TableExpansion(b)[n] == ShiftGroup(b, n) << 2
  }

  lemma EvenGroup(p: bv8, c: bv8, y: bv8)
    requires (y & 0x80 != 0) == (p & 0x01 != 0)
    requires (y & 0x40 != 0) == (c & 0x80 != 0)
    requires (y & 0x20 != 0) == (c & 0x40 != 0)
    requires (y & 0x10 != 0) == (c & 0x20 != 0)
    requires (y & 0x08 != 0) == (c & 0x10 != 0)
    requires (y & 0x04 != 0) == (c & 0x08 != 0)
    requires y & 0x02 == 0 && y & 0x01 == 0
    ensures y == Even(p, c) << 2
  {
  }

  lemma OddGroup(p: bv8, c: bv8, y: bv8)
    requires (y & 0x80 != 0) == (p & 0x10 != 0)
    requires (y & 0x40 != 0) == (p & 0x08 != 0)
    requires (y & 0x20 != 0) == (p & 0x04 != 0)
    requires (y & 0x10 != 0) == (p & 0x02 != 0)
    requires (y & 0x08 != 0) == (p & 0x01 != 0)
    requires (y & 0x04 != 0) == (c & 0x80 != 0)
    requires y & 0x02 == 0 && y & 0x01 == 0
    ensures y == Odd(p, c) << 2
  {
  }

  /** The bits of group `n`, given the table's row for it. */
  lemma GroupBits(b: Block, n: nat, j0: nat, j1: nat, j2: nat, j3: nat, j4: nat, j5: nat)
    requires n < 8
    requires ExpandTable(6 * n) == j0 && ExpandTable(6 * n + 1) == j1 && ExpandTable(6 * n + 2) == j2
    requires ExpandTable(6 * n + 3) == j3 && ExpandTable(6 * n + 4) == j4 && ExpandTable(6 * n + 5) == j5
    ensures var y := TableExpansion(b)[n];
      && ByteBit(y, 0) == HalfBit(b, j0) && ByteBit(y, 1) == HalfBit(b, j1) && ByteBit(y, 2) == HalfBit(b, j2)
      && ByteBit(y, 3) == HalfBit(b, j3) && ByteBit(y, 4) == HalfBit(b, j4) && ByteBit(y, 5) == HalfBit(b, j5)
      && !ByteBit(y, 6) && !ByteBit(y, 7)
  {
  }

  lemma Group0(b: Block)
    ensures GroupAgrees(b, 0)
  {
    GroupBits(b, 0, 32, 1, 2, 3, 4, 5);
    EvenGroup(b[7], b[4], TableExpansion(b)[0]);
  }

  lemma Group1(b: Block)
    ensures GroupAgrees(b, 1)
  {
    GroupBits(b, 1, 4, 5, 6, 7, 8, 9);
    OddGroup(b[4], b[5], TableExpansion(b)[1]);
  }

  lemma Group2(b: Block)
    ensures GroupAgrees(b, 2)
  {
    GroupBits(b, 2, 8, 9, 10, 11, 12, 13);
    EvenGroup(b[4], b[5], TableExpansion(b)[2]);
  }

  lemma Group3(b: Block)
    ensures GroupAgrees(b, 3)
  {
    GroupBits(b, 3, 12, 13, 14, 15, 16, 17);
    OddGroup(b[5], b[6], TableExpansion(b)[3]);
  }

  lemma Group4(b: Block)
    ensures GroupAgrees(b, 4)
  {
    GroupBits(b, 4, 16, 17, 18, 19, 20, 21);
    EvenGroup(b[5], b[6], TableExpansion(b)[4]);
  }

  lemma Group5(b: Block)
    ensures GroupAgrees(b, 5)
  {
    GroupBits(b, 5, 20, 21, 22, 23, 24, 25);
    OddGroup(b[6], b[7], TableExpansion(b)[5]);
  }

  lemma Group6(b: Block)
    ensures GroupAgrees(b, 6)
  {
    GroupBits(b, 6, 24, 25, 26, 27, 28, 29);
    EvenGroup(b[6], b[7], TableExpansion(b)[6]);
  }

  lemma Group7(b: Block)
    ensures GroupAgrees(b, 7)
  {
    GroupBits(b, 7, 28, 29, 30, 31, 32, 1);
    OddGroup(b[7], b[4], TableExpansion(b)[7]);
  }

  /** The optimised expansion is the standard's, up to the shift by two bits. */
  lemma ShiftsComputeTheTable(b: Block)
    ensures forall n :: 0 <= n < 8 ==> GroupAgrees(b, n)
  {
    Group0(b);
    Group1(b);
    Group2(b);
    Group3(b);
    Group4(b);
    Group5(b);
    Group6(b);
    Group7(b);
  }

  function SubstitutionTable(i: nat, x: bv8): bv8
    requires i < 4 && x < 64
  {
    match i
    case 0 => Substitution0(x)
    case 1 => Substitution1(x)
    case 2 => Substitution2(x)
    case _ => Substitution3(x)
  }

  /** Two substitutions at a time: the high nibble from one box, the low nibble from the other. */
  function SubstitutedByte(b: Block, n: nat): bv8
    requires n < 4 && b[2 * n] < 64 && b[2 * n + 1] < 64
  {
    (SubstitutionTable(n, b[2 * n]) & 0xf0) | (SubstitutionTable(n, b[2 * n + 1]) & 0x0f)
  }

  function Substituted(b: Block): (r: Block)
    requires forall n :: 0 <= n < 8 ==> b[n] < 64
    ensures forall n :: 0 <= n < 8 ==> r[n] == if n < 4 then SubstitutedByte(b, n) else 0
  {
    seq(8, n requires 0 <= n < 8 => if n < 4 then SubstitutedByte(b, n) else 0)
  }

  predicate TransposedBit(b: Block, k: nat)
    requires k < 64
  {
    k >= 32 && Bit(b, PTable(k - 32) - 1)
  }

  /** The permutation P of the left half, written to the right half. */
  function Transposed(b: Block): (r: Block)
    ensures forall k :: 0 <= k < 64 ==> Bit(r, k) == TransposedBit(b, k)
  {
    Gather(seq(64, k requires 0 <= k < 64 => TransposedBit(b, k)))
  }

  /** The cipher function f, in the right half of its result. */
  function RoundValue(b: Block): Block {
    Transposed(Substituted(ShiftExpansion(b)))
  }

  function WithLeft(b: Block, f: Block): (r: Block)
    ensures r[4..] == b[4..]
  {
    [b[0] ^ f[4], b[1] ^ f[5], b[2] ^ f[6], b[3] ^ f[7], b[4], b[5], b[6], b[7]]
  }

  /** One Feistel round: the left half is combined with a value computed from the right half. */
  function Round(b: Block): (r: Block)
    ensures r[4..] == b[4..]
  {
    WithLeft(b, RoundValue(b))
  }

  function Transform(b: Block): Block {
    Final(Round(Initial(b)))
  }

  // ---- What the transform promises ----

  lemma XorTwice(x: bv8, y: bv8)
    ensures (x ^ y) ^ y == x
  {
  }

  /** The cipher function sees the right half only. */
  lemma ValueDependsOnRightHalf(a: Block, b: Block)
    requires a[4..] == b[4..]
    ensures RoundValue(a) == RoundValue(b)
  {
    assert a[4] == a[4..][0] && a[5] == a[4..][1] && a[6] == a[4..][2] && a[7] == a[4..][3];
    forall n | 0 <= n < 8
      ensures ShiftExpansion(a)[n] == ShiftExpansion(b)[n]
    {
      assert ShiftGroup(a, n) == ShiftGroup(b, n);
    }
    SameBytes(ShiftExpansion(a), ShiftExpansion(b));
  }

  lemma CombiningTwice(b: Block, f: Block)
    ensures WithLeft(WithLeft(b, f), f) == b
  {
    XorTwice(b[0], f[4]);
    XorTwice(b[1], f[5]);
    XorTwice(b[2], f[6]);
    XorTwice(b[3], f[7]);
  }

  lemma RoundUndoesItself(b: Block)
    ensures Round(Round(b)) == b
  {
    ValueDependsOnRightHalf(Round(b), b);
    CombiningTwice(b, RoundValue(b));
  }

  /** Decrypting a block twice gives the block back, whatever its 64 bits. */
  lemma TransformUndoesItself(b: Block)
    ensures Transform(Transform(b)) == b
  {
    PermutationsAreInverse(Round(Initial(b)));
    RoundUndoesItself(Initial(b));
    PermutationsAreInverse(b);
  }

  // ---- The code: every step rewrites the eight bytes in place ----

  lemma ZeroBlock(b: Block)
    requires forall n :: 0 <= n < 8 ==> b[n] == 0
    ensures forall k :: 0 <= k < 64 ==> !Bit(b, k)
  {
    ZeroByteAll();
  }

  /** `b[k / 8] |= mask[k % 8]`. */
  method SetBit(a: array<bv8>, k: nat)
    requires a.Length == 8 && k < 64
    modifies a
    ensures forall j :: 0 <= j < 64 ==> (Bit(a[..], j) <==> j == k || Bit(old(a[..]), j))
  {
    ghost var b: Block := a[..];
    a[k / 8] := a[k / 8] | Mask(k % 8);
    assert a[..] == b[k / 8 := b[k / 8] | Mask(k % 8)];
    forall j | 0 <= j < 64
      ensures Bit(a[..], j) <==> j == k || Bit(b, j)
    {
      SetBlockBit(b, k, j);
    }
  }

  method CopyBlock(dst: array<bv8>, src: array<bv8>)
    requires dst.Length == 8 && src.Length == 8
    modifies dst
    ensures dst[..] == old(src[..])
  {
    forall n | 0 <= n < 8 {
      dst[n] := src[n];
    }
  }

  method InitialPermutation(src: array<bv8>)
    requires src.Length == 8
    modifies src
    ensures src[..] == Initial(old(src[..]))
  {
    var tmp := new bv8[8](_ => 0);
    ghost var b: Block := src[..];
    ZeroBlock(tmp[..]);
    var i := 0;
    while i < 64
      invariant 0 <= i <= 64 && src[..] == b
      invariant forall k :: 0 <= k < 64 ==> (Bit(tmp[..], k) <==> k < i && InitialBit(b, k))
    {
      var j := IpTable(i) - 1;
      assert InitialBit(b, i) == Bit(b, j);
      if src[j / 8] & Mask(j % 8) != 0 {
        SetBit(tmp, i);
      }
      i := i + 1;
    }
    SameBlock(tmp[..], Initial(b));
    CopyBlock(src, tmp);
  }

  method FinalPermutation(src: array<bv8>)
    requires src.Length == 8
    modifies src
    ensures src[..] == Final(old(src[..]))
  {
    var tmp := new bv8[8](_ => 0);
    ghost var b: Block := src[..];
    ZeroBlock(tmp[..]);
    var i := 0;
    while i < 64
      invariant 0 <= i <= 64 && src[..] == b
      invariant forall k :: 0 <= k < 64 ==> (Bit(tmp[..], k) <==> k < i && FinalBit(b, k))
    {
      var j := FpTable(i) - 1;
      assert FinalBit(b, i) == Bit(b, j);
      if src[j / 8] & Mask(j % 8) != 0 {
        SetBit(tmp, i);
      }
      i := i + 1;
    }
    SameBlock(tmp[..], Final(b));
    CopyBlock(src, tmp);
  }

  lemma ExpansionBytes(b: Block, t: Block)
    requires t[0] == Even(b[7], b[4]) && t[1] == Odd(b[4], b[5]) && t[2] == Even(b[4], b[5]) && t[3] == Odd(b[5], b[6])
    requires t[4] == Even(b[5], b[6]) && t[5] == Odd(b[6], b[7]) && t[6] == Even(b[6], b[7]) && t[7] == Odd(b[7], b[4])
    ensures t == ShiftExpansion(b)
  {
    forall n | 0 <= n < 8
      ensures t[n] == ShiftGroup(b, n)
    {
    }
    SameBytes(t, ShiftExpansion(b));
  }

  lemma LeftCombined(b: Block, f: Block, t: Block)
    requires t[0] == b[0] ^ f[4] && t[1] == b[1] ^ f[5] && t[2] == b[2] ^ f[6] && t[3] == b[3] ^ f[7]
    requires t[4] == b[4] && t[5] == b[5] && t[6] == b[6] && t[7] == b[7]
    ensures t == WithLeft(b, f)
  {
    SameBytes(t, WithLeft(b, f));
  }

  method Expand(src: array<bv8>)
    requires src.Length == 8
    modifies src
    ensures src[..] == ShiftExpansion(old(src[..]))
  {
    var tmp := new bv8[8](_ => 0);
    tmp[0] := Even(src[7], src[4]);
    tmp[1] := Odd(src[4], src[5]);
    tmp[2] := Even(src[4], src[5]);
    tmp[3] := Odd(src[5], src[6]);
    tmp[4] := Even(src[5], src[6]);
    tmp[5] := Odd(src[6], src[7]);
    tmp[6] := Even(src[6], src[7]);
    tmp[7] := Odd(src[7], src[4]);
    ExpansionBytes(src[..], tmp[..]);
    CopyBlock(src, tmp);
  }

  /** The first `n` bytes of the substituted block, zeros behind them. */
  ghost function SubstitutedUpTo(b: Block, n: nat): Block
    requires n <= 4 && forall k :: 0 <= k < 8 ==> b[k] < 64
  {
    Substituted(b)[..n] + seq(8 - n, _ => 0)
  }

  lemma SubstitutedEnds(b: Block)
    requires forall n :: 0 <= n < 8 ==> b[n] < 64
    ensures SubstitutedUpTo(b, 0) == seq(8, _ => 0) && SubstitutedUpTo(b, 4) == Substituted(b)
  {
    SameBytes(SubstitutedUpTo(b, 4), Substituted(b));
  }

  lemma SubstitutedNext(b: Block, i: nat)
    requires i < 4 && forall n :: 0 <= n < 8 ==> b[n] < 64
    ensures SubstitutedUpTo(b, i)[i := SubstitutedByte(b, i)] == SubstitutedUpTo(b, i + 1)
  {
  }

  /** Two places of the block give one byte. */
  method SubstitutePair(src: array<bv8>, tmp: array<bv8>, i: nat)
    requires src.Length == 8 && tmp.Length == 8 && src != tmp
    requires i < 4 && forall n :: 0 <= n < 8 ==> src[n] < 64
    requires tmp[..] == SubstitutedUpTo(src[..], i)
    modifies tmp
    ensures tmp[..] == SubstitutedUpTo(src[..], i + 1)
  {
    SubstitutedNext(src[..], i);
    tmp[i] := (SubstitutionTable(i, src[2 * i]) & 0xf0) | (SubstitutionTable(i, src[2 * i + 1]) & 0x0f);
  }

  method Substitute(src: array<bv8>)
    requires src.Length == 8
    requires forall n :: 0 <= n < 8 ==> src[n] < 64
    modifies src
    ensures src[..] == Substituted(old(src[..]))
  {
    var tmp := new bv8[8](_ => 0);
    SubstitutedEnds(src[..]);
    var i := 0;
    while i < 4
      invariant 0 <= i <= 4 && src[..] == old(src[..])
      invariant tmp[..] == SubstitutedUpTo(src[..], i)
    {
      SubstitutePair(src, tmp, i);
      i := i + 1;
    }
    CopyBlock(src, tmp);
  }

  method Transpose(src: array<bv8>)
    requires src.Length == 8
    modifies src
    ensures src[..] == Transposed(old(src[..]))
  {
    var tmp := new bv8[8](_ => 0);
    ghost var b: Block := src[..];
    ZeroBlock(tmp[..]);
    var i := 0;
    while i < 32
      invariant 0 <= i <= 32 && src[..] == b
      invariant forall k :: 0 <= k < 64 ==> (Bit(tmp[..], k) <==> k < 32 + i && TransposedBit(b, k))
    {
      var j := PTable(i) - 1;
      assert TransposedBit(b, i + 32) == Bit(b, j);
      if src[j / 8] & Mask(j % 8) != 0 {
        SetBit(tmp, i + 32);
      }
      i := i + 1;
    }
    SameBlock(tmp[..], Transposed(b));
    CopyBlock(src, tmp);
  }

  /** The right half of the cipher value is combined with the left half of the block. */
  method CombineLeft(src: array<bv8>, tmp: array<bv8>)
    requires src.Length == 8 && tmp.Length == 8 && src != tmp
    modifies src
    ensures src[..] == WithLeft(old(src[..]), tmp[..])
  {
    ghost var b: Block := src[..];
    src[0] := src[0] ^ tmp[4];
    src[1] := src[1] ^ tmp[5];
    src[2] := src[2] ^ tmp[6];
    src[3] := src[3] ^ tmp[7];
    LeftCombined(b, tmp[..], src[..]);
  }

  method RoundFunction(src: array<bv8>)
    requires src.Length == 8
    modifies src
    ensures src[..] == Round(old(src[..]))
  {
    var tmp := new bv8[8](_ => 0);
    CopyBlock(tmp, src);
    Expand(tmp);
    assert forall n :: 0 <= n < 8 ==> tmp[n] == tmp[..][n];
    Substitute(tmp);
    Transpose(tmp);
    CombineLeft(src, tmp);
  }

  method DecryptBlock(block: array<bv8>)
    requires block.Length == 8
    modifies block
    ensures block[..] == Transform(old(block[..]))
  {
    InitialPermutation(block);
    RoundFunction(block);
    FinalPermutation(block);
  }
}
