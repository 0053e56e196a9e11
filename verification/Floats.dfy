/** Doubles and their text: the two functions of the C library that the configuration files rely
    on, which are parameters of everything that reads or writes, and what the writer makes of the
    text that `%.10g` gives. */
module Floats {
  import opened Settings
  import opened Numerals
  import opened Lexemes

  // ----- what the C standard says about the conversion -----

  /** Digits, or digits with a decimal point between them. */
  predicate IsFixed(u: string) {
    AllDigits(u, 10)
    || exists i | 0 <= i < |u| :: u[i] == '.' && AllDigits(u[..i], 10) && AllDigits(u[i + 1..], 10)
  }

  /** A mantissa, the letter e and a signed exponent. */
  predicate IsScientific(u: string) {
    exists i | 0 <= i < |u| - 1 ::
      u[i] == 'e' && IsFixed(u[..i]) && (u[i + 1] == '+' || u[i + 1] == '-') && AllDigits(u[i + 2..], 10)
  }

  predicate IsOddWord(u: string) { u == "inf" || u == "nan" }

  function DropMinus(w: string): string {
    if w != "" && w[0] == '-' then w[1..] else w
  }

  predicate IsGeneral(w: string) {
    var u := DropMinus(w);
    IsFixed(u) || IsScientific(u) || IsOddWord(u)
  }

  /** `atof` and the conversion `%.10g`. */
  datatype Functions = Functions(atof: string -> Double, general: Double -> string)

  /** Printed doubles have these shapes. */
  ghost predicate LibcOk(f: Functions) { forall d :: IsGeneral(f.general(d)) }

  /** Any C library that keeps to the standard. */
  type Libc = f: Functions | LibcOk(f) witness Functions(_ => 0, _ => "0")

  // ----- what the writer prints -----

  /** How much is left of the first `n` characters without the zeros at their end; all of them if
      nothing but zeros follows the first. */
  function KeptLength(w: string, n: nat): (k: nat)
    requires n <= |w|
    ensures k <= |w|
  {
    if n <= 1 then |w| else if w[n - 1] != '0' then n else KeptLength(w, n - 1)
  }

  /** The text of a double: `.0` is appended to integers, zeros behind a decimal point go. */
  function FloatText(libc: Libc, d: Double): string {
    var w := libc.general(d);
    if 'e' in w then w
    else if '.' !in w then w + ".0"
    else w[..KeptLength(w, |w|)]
  }

  /** Infinities and other things that are no numbers. */
  predicate IsOddText(w: string) {
    w == "inf.0" || w == "nan.0" || w == "-inf.0" || w == "-nan.0"
  }

  /** The double is printed as a number, which it need not be. */
  predicate IsFinite(libc: Libc, d: Double) { IsFloat(FloatText(libc, d)) }

  /** The double that comes back when its text is read. */
  function Reread(libc: Libc, d: Double): Double { libc.atof(FloatText(libc, d)) }

  lemma {:induction false} KeptUpTo(w: string, n: nat, i: nat)
    requires 0 < i < n <= |w| && w[i] != '0'
    ensures i < KeptLength(w, n) <= n
  {
    if w[n - 1] == '0' {
      KeptUpTo(w, n - 1, i);
    }
  }

  /** Nothing but zeros goes, and none is left at the end unless everything but the first
      character is one. */
  lemma {:induction false} OnlyZerosGo(w: string, n: nat)
    requires n <= |w| && forall j | n <= j < |w| :: w[j] == '0'
    ensures var k := KeptLength(w, n);
            && (forall j | k <= j < |w| :: w[j] == '0')
            && (if k > 1 && w[k - 1] != '0' then k <= n else k == |w| && forall j | 0 < j < |w| :: w[j] == '0')
  {
    if n > 1 && w[n - 1] == '0' {
      OnlyZerosGo(w, n - 1);
    }
  }

  lemma PointInDigits(u: string, i: nat)
    requires i < |u| && u[i] == '.' && forall j | 0 <= j < |u| && j != i :: IsDigit(u[j])
    ensures HasPoint(u)
  {
  }

  lemma IntegerText(w: string)
    requires AllDigits(DropMinus(w), 10)
    ensures 'e' !in w && '.' !in w && IsFloat(w + ".0")
  {
    var u := DropMinus(w);
    forall j | 0 <= j < |u| ensures IsDigit(u[j]) {
      assert IsBaseDigit(u[j], 10);
    }
    assert w == (if u == w then "" else "-") + u;
    assert DropSign(w + ".0") == u + ".0";
    PointInDigits(u + ".0", |u|);
  }

  /** The point of a fixed text stands between digits. */
  lemma PointOf(u: string) returns (i: nat)
    requires IsFixed(u) && !AllDigits(u, 10)
    ensures 0 < i < |u| - 1 && u[i] == '.' && forall j | 0 <= j < |u| && j != i :: IsDigit(u[j])
  {
    i :| 0 <= i < |u| && u[i] == '.' && AllDigits(u[..i], 10) && AllDigits(u[i + 1..], 10);
    forall j | 0 <= j < |u| && j != i ensures IsDigit(u[j]) {
      assert IsBaseDigit(if j < i then u[..i][j] else u[i + 1..][j - i - 1], 10);
    }
  }

  lemma FractionText(w: string, i: nat)
    requires var u := DropMinus(w);
             0 < i < |u| && u[i] == '.' && forall j | 0 <= j < |u| && j != i :: IsDigit(u[j])
    ensures 'e' !in w && '.' in w && IsFloat(w[..KeptLength(w, |w|)])
  {
    var u := DropMinus(w);
    var s := |w| - |u|;
    assert forall j | s <= j < |w| :: w[j] == u[j - s];
    assert w[s + i] == '.';
    KeptUpTo(w, |w|, s + i);
    var t := w[..KeptLength(w, |w|)];
    assert DropSign(t) == u[..|t| - s];
    PointInDigits(u[..|t| - s], i);
  }

  lemma MantissaShape(m: string)
    requires IsFixed(m)
    ensures AllDigits(m, 10) || HasPoint(m)
  {
    if !AllDigits(m, 10) {
      var k := PointOf(m);
      PointInDigits(m, k);
    }
  }

  lemma ExponentIsInteger(x: string)
    requires x != "" && (x[0] == '+' || x[0] == '-') && AllDigits(x[1..], 10)
    ensures IsInteger(x)
  {
  }

  lemma FloatFromExponent(w: string, u: string, i: nat)
    requires u == DropMinus(w) && ExponentAt(u, i) && IsDigit(u[0])
    ensures IsFloat(w)
  {
    assert DropSign(w) == u;
  }

  lemma FirstIsDigit(m: string)
    requires IsFixed(m)
    ensures m != "" && IsDigit(m[0])
  {
    if AllDigits(m, 10) {
      assert IsBaseDigit(m[0], 10);
    } else {
      var k := PointOf(m);
    }
  }

  lemma ScientificText(w: string)
    requires IsScientific(DropMinus(w))
    ensures 'e' in w && IsFloat(w)
  {
    var u := DropMinus(w);
    var i :| 0 <= i < |u| - 1 && u[i] == 'e' && IsFixed(u[..i])
             && (u[i + 1] == '+' || u[i + 1] == '-') && AllDigits(u[i + 2..], 10);
    assert w[|w| - |u| + i] == 'e';
    assert u[i + 1..][1..] == u[i + 2..];
    ExponentIsInteger(u[i + 1..]);
    MantissaShape(u[..i]);
    FirstIsDigit(u[..i]);
    assert u[..i][0] == u[0];
    FloatFromExponent(w, u, i);
  }

  /** A printed double is a number by the scanner's rule or one of four odd texts. */
  lemma FloatTextShape(libc: Libc, d: Double)
    ensures IsFinite(libc, d) || IsOddText(FloatText(libc, d))
  {
    var w := libc.general(d);
    assert IsGeneral(w);
    if AllDigits(DropMinus(w), 10) {
      IntegerText(w);
    } else if IsFixed(DropMinus(w)) {
      var i := PointOf(DropMinus(w));
      FractionText(w, i);
    } else if IsScientific(DropMinus(w)) {
      ScientificText(w);
    } else {
      assert w == "inf" || w == "nan" || w == "-inf" || w == "-nan" by {
        assert w != "" && w[0] == '-' ==> w == "-" + w[1..];
      }
    }
  }
}
