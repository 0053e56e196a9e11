/** Positional numerals as `printf` writes them and `strtol` and its relatives read them. */
module Numerals {

  const TWO31 := 0x8000_0000
  const TWO32 := 0x1_0000_0000
  const TWO63 := 0x8000_0000_0000_0000
  const TWO64 := 0x1_0000_0000_0000_0000

  predicate Int32(v: int) { -TWO31 <= v < TWO31 }

  predicate Int64(v: int) { -TWO63 <= v < TWO63 }

  /** Conversion to `int`: the value with the same low 32 bits. */
  function ToInt32(v: int): (r: int)
    ensures Int32(r)
    ensures Int32(v) ==> r == v
  {
    var m := v % TWO32;
    if m >= TWO31 then m - TWO32 else m
  }

  /** Conversion to `long long`. */
  function ToInt64(v: int): (r: int)
    ensures Int64(r)
    ensures Int64(v) ==> r == v
  {
    var m := v % TWO64;
    if m >= TWO63 then m - TWO64 else m
  }

  /** Conversion to `unsigned` and back keeps an int, on 32 and on 64 bits. */
  lemma UnsignedRoundTrip(v: int)
    ensures Int32(v) ==> 0 <= v % TWO32 < TWO32 && ToInt32(v % TWO32) == v
    ensures Int64(v) ==> 0 <= v % TWO64 < TWO64 && ToInt64(v % TWO64) == v
  {
  }

  function Clamp(v: int, lo: int, hi: int): int
    requires lo <= hi
  {
    if v < lo then lo else if v > hi then hi else v
  }

  // ----- digits -----

  /** The upper-case digit for d. */
  function DigitChar(d: nat): char
    requires d < 16
  {
    if d < 10 then '0' + d as char else 'A' + (d - 10) as char
  }

  predicate IsBaseDigit(c: char, base: nat) {
    || ('0' <= c <= '9' && c as nat - '0' as nat < base)
    || (base == 16 && ('A' <= c <= 'F' || 'a' <= c <= 'f'))
  }

  function DigitValue(c: char): nat {
    if '0' <= c <= '9' then c as nat - '0' as nat
    else if 'A' <= c <= 'F' then c as nat - 'A' as nat + 10
    else if 'a' <= c <= 'f' then c as nat - 'a' as nat + 10
    else 0
  }

  predicate AllDigits(s: string, base: nat) {
    s != "" && forall i | 0 <= i < |s| :: IsBaseDigit(s[i], base)
  }

  /** The shortest numeral for n. */
  function Numeral(n: nat, base: nat): string
    requires 2 <= base <= 16
    decreases n
  {
    if n < base then [DigitChar(n)] else Numeral(n / base, base) + [DigitChar(n % base)]
  }

  /** The value of a string of digits. */
  function ValueOf(s: string, base: nat): nat {
    if s == "" then 0 else ValueOf(s[..|s| - 1], base) * base + DigitValue(s[|s| - 1])
  }

  lemma DigitRoundTrip(d: nat, base: nat)
    requires d < base && (base == 10 || base == 16)
    ensures IsBaseDigit(DigitChar(d), base) && DigitValue(DigitChar(d)) == d
  {
  }

  /** Reading a printed number gives it back. */
  lemma {:induction false} NumeralRoundTrip(n: nat, base: nat)
    requires base == 10 || base == 16
    ensures AllDigits(Numeral(n, base), base) && ValueOf(Numeral(n, base), base) == n
    decreases n
  {
    if n < base {
      DigitRoundTrip(n, base);
      assert ValueOf([DigitChar(n)][..0], base) == 0;
    } else {
      NumeralRoundTrip(n / base, base);
      DigitRoundTrip(n % base, base);
      var s := Numeral(n, base);
      assert s[..|s| - 1] == Numeral(n / base, base);
    }
  }

  /** `%d`: a sign for negative numbers only. */
  function Decimal(v: int): string {
    if v < 0 then "-" + Numeral(-v, 10) else Numeral(v, 10)
  }

  /** A decimal with an optional sign. */
  function DropSign(s: string): string {
    if s != "" && (s[0] == '-' || s[0] == '+') then s[1..] else s
  }

  function SignedValue(s: string): int {
    var n: int := ValueOf(DropSign(s), 10);
    if s != "" && s[0] == '-' then -n else n
  }

  lemma DecimalRoundTrip(v: int)
    ensures AllDigits(DropSign(Decimal(v)), 10) && SignedValue(Decimal(v)) == v
  {
    NumeralRoundTrip(if v < 0 then -v else v, 10);
    if v < 0 {
      assert Decimal(v)[1..] == Numeral(-v, 10);
    }
  }
}
