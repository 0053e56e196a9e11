/** What the scanner makes of words and signs that are written in another way than the writer
    writes them. */
module LexemeLaws {
  import opened Wrappers
  import opened Settings
  import opened ParseActions
  import opened Numerals
  import opened Lexemes
  import opened Floats
  import opened Scanning
  import opened ScanLemmas
  import opened ScalarText
  import opened TreeText

  // ----- signs -----

  /** Which sign is which token; settings are assigned with either of two. */
  predicate SignIs(c: char, token: Token) {
    || (token.TEquals? && (c == '=' || c == ':'))
    || (token.TComma? && c == ',') || (token.TSemicolon? && c == ';')
    || (token.TGroupStart? && c == '{') || (token.TGroupEnd? && c == '}')
    || (token.TArrayStart? && c == '[') || (token.TArrayEnd? && c == ']')
    || (token.TListStart? && c == '(') || (token.TListEnd? && c == ')')
  }

  lemma SignsScanned(libc: Libc, c: char, token: Token, rest: string, bol: bool)
    requires SignIs(c, token)
    ensures Toks(libc, [c] + rest, bol) == [token] + Toks(libc, rest, false)
  {
    PunctScanned(libc, c, rest, bol);
  }

  // ----- truth values in upper and lower case -----

  predicate AnyCase(w: string, lower: string, upper: string) {
    |w| == |lower| == |upper| && forall i | 0 <= i < |w| :: w[i] == lower[i] || w[i] == upper[i]
  }

  lemma TruthInAnyCase(libc: Libc, w: string, rest: string, bol: bool)
    requires Delimited(rest)
    ensures AnyCase(w, "true", "TRUE") ==> Toks(libc, w + rest, bol) == [TBoolean(1)] + Toks(libc, rest, false)
    ensures AnyCase(w, "false", "FALSE") ==> Toks(libc, w + rest, bol) == [TBoolean(0)] + Toks(libc, rest, false)
  {
    if AnyCase(w, "true", "TRUE") {
      TrueWord(w, bol);
      TokenWord(libc, w, rest, bol, RTrue, TBoolean(1));
    }
    if AnyCase(w, "false", "FALSE") {
      FalseWord(w, bol);
      TokenWord(libc, w, rest, bol, RFalse, TBoolean(0));
    }
  }

  lemma TrueWord(w: string, bol: bool)
    requires AnyCase(w, "true", "TRUE")
    ensures RuleOf(w, bol) == Some(RTrue) && AllWord(w)
  {
    assert w[0] == 't' || w[0] == 'T';
    assert IsTrue(w) && !IsInclude(w) && !AllBlank(w);
    WordRules(w);
  }

  lemma FalseWord(w: string, bol: bool)
    requires AnyCase(w, "false", "FALSE")
    ensures RuleOf(w, bol) == Some(RFalse) && AllWord(w)
  {
    assert w[0] == 'f' || w[0] == 'F';
    assert IsFalse(w) && !IsInclude(w) && !AllBlank(w);
    WordRules(w);
  }

  // ----- numbers -----

  const LOWER := "0123456789abcdef"
  const UPPER := "0123456789ABCDEF"

  /** The digits in either case are worth their places. */
  lemma DigitTable(d: nat)
    requires d < 16
    ensures DigitValue(LOWER[d]) == d && DigitValue(UPPER[d]) == d && DigitChar(d) == UPPER[d]
    ensures IsBaseDigit(LOWER[d], 16) && IsBaseDigit(UPPER[d], 16)
  {
  }

  /** The same digits, in either case. */
  predicate SameDigits(w: string, u: string) {
    |w| == |u| && forall i | 0 <= i < |w| ::
      w[i] == u[i] || exists d | 0 <= d < 16 :: w[i] == LOWER[d] && u[i] == UPPER[d]
  }

  lemma {:induction false} SameValue(w: string, u: string)
    requires SameDigits(w, u) && (u == "" || AllDigits(u, 16))
    ensures ValueOf(w, 16) == ValueOf(u, 16) && (w == "" || AllDigits(w, 16))
  {
    if w != "" {
      var k := |w| - 1;
      SameValue(w[..k], u[..k]);
      if w[k] != u[k] {
        var d :| 0 <= d < 16 && w[k] == LOWER[d] && u[k] == UPPER[d];
        DigitTable(d);
      }
      assert forall i | 0 <= i < k :: w[i] == w[..k][i] && (k > 0 ==> IsBaseDigit(w[..k][i], 16));
    }
  }

  lemma HexRule(w: string, bol: bool)
    requires IsHex(w) && AllWord(w) && w[|w| - 1] != 'L'
    ensures RuleOf(w, bol) == Some(RHex)
  {
    assert DropSuffix(w) == w;
    NoDecimalWithX(w);
    NumberRule(w, bol);
  }

  lemma NoDecimalWithX(w: string)
    requires |w| > 2 && w[0] == '0' && (w[1] == 'x' || w[1] == 'X')
    ensures !IsFloat(w) && !IsInteger(w)
  {
    assert DropSign(w) == w && !IsBaseDigit(w[1], 10) && !IsDigit(w[1]);
    forall i | 0 <= i < |w| ensures !ExponentAt(w, i) {
      if i > 1 {
        assert w[..i][1] == w[1];
      }
    }
  }

  /** A hexadecimal number, whatever the case of its digits and its prefix: its low 32 bits. */
  lemma HexInAnyCase(libc: Libc, prefix: string, w: string, v: int, rest: string, bol: bool)
    requires (prefix == "0x" || prefix == "0X") && Int32(v) && Delimited(rest)
    requires SameDigits(w, Numeral(v % TWO32, 16))
    ensures Toks(libc, prefix + w + rest, bol) == [THex(v)] + Toks(libc, rest, false)
  {
    NumeralRoundTrip(v % TWO32, 16);
    SameValue(w, Numeral(v % TWO32, 16));
    var word := prefix + w;
    assert word[2..] == w;
    HexIsWord(word);
    assert word[|word| - 1] == w[|w| - 1];
    HexRule(word, bol);
    UnsignedRoundTrip(v);
    NumberScanned(libc, word, THex(v), rest, bol);
  }

  /** The value is congruent to the number if that has 64 bits; larger ones have saturated. */
  predicate LowBitsOf(v: int, n: int) {
    Int32(v) && (Int64(n) ==> (v - n) % TWO32 == 0) && (n >= TWO63 ==> v == -1) && (n < -TWO63 ==> v == 0)
  }

  lemma LowBits(n: int)
    ensures LowBitsOf(ToInt32(Clamp(n, -TWO63, TWO63 - 1)), n)
  {
  }

  /** A decimal number of any size: its low 32 bits, after saturation at 64 bits. */
  lemma AnyDecimalScanned(libc: Libc, n: int, rest: string, bol: bool) returns (v: int)
    requires Delimited(rest)
    ensures Toks(libc, Decimal(n) + rest, bol) == [TInteger(v)] + Toks(libc, rest, false) && LowBitsOf(v, n)
  {
    v := ToInt32(Clamp(n, -TWO63, TWO63 - 1));
    LowBits(n);
    var w := Decimal(n);
    DecimalStart(n);
    DecimalRoundTrip(n);
    DigitsAreNoFloat(w);
    NumberRule(w, bol);
    NumberScanned(libc, w, TInteger(v), rest, bol);
  }

  /** A 64-bit number of any size saturates. */
  lemma AnyLongScanned(libc: Libc, n: int, rest: string, bol: bool)
    requires Delimited(rest)
    ensures var v := if n >= TWO63 then TWO63 - 1 else if n < -TWO63 then -TWO63 else n;
            Toks(libc, Decimal(n) + "L" + rest, bol) == [TInteger64(v)] + Toks(libc, rest, false)
  {
    var w := Decimal(n) + "L";
    DecimalStart(n);
    DecimalRoundTrip(n);
    DropL(Decimal(n));
    EndsInL(w);
    SuffixedIsWord(w);
    NumberRule(w, bol);
    NumberScanned(libc, w, TInteger64(Clamp(n, -TWO63, TWO63 - 1)), rest, bol);
  }

  // ----- strings -----

  /** A backslash before a character that it means nothing for stands for itself. */
  lemma UnknownEscapeKept(libc: Libc, c: char, text: string, buf: string)
    requires c !in "nrtf\\\"xX"
    ensures StringToks(libc, "\\" + [c] + text, buf) == StringToks(libc, [c] + text, buf + "\\")
  {
    var t := "\\" + [c] + text;
    assert t[1] == c && StringMatch(t) == 1 && t[..1] == "\\" && t[1..] == [c] + text;
    StringStepToks(libc, t, buf);
  }

  /** A hexadecimal escape gives the character with that number, and nothing if the number is 0. */
  lemma HexEscapeScanned(libc: Libc, x: char, hi: nat, lo: nat, h: char, l: char, text: string, buf: string)
    requires (x == 'x' || x == 'X') && hi < 16 && lo < 16
    requires (h == LOWER[hi] || h == UPPER[hi]) && (l == LOWER[lo] || l == UPPER[lo])
    ensures StringToks(libc, ['\\', x, h, l] + text, buf) ==
            StringToks(libc, text, buf + if hi == 0 && lo == 0 then "" else [(16 * hi + lo) as char])
  {
    var e := ['\\', x, h, l];
    var t := e + text;
    assert t[..4] == e && t[4..] == text;
    HexEscapeMatch(x, hi, lo, h, l, text);
    StringStepToks(libc, t, buf);
  }

  lemma HexEscapeMatch(x: char, hi: nat, lo: nat, h: char, l: char, text: string)
    requires (x == 'x' || x == 'X') && hi < 16 && lo < 16
    requires (h == LOWER[hi] || h == UPPER[hi]) && (l == LOWER[lo] || l == UPPER[lo])
    ensures StringMatch(['\\', x, h, l] + text) == 4
    ensures Unescape(['\\', x, h, l]) == if hi == 0 && lo == 0 then "" else [(16 * hi + lo) as char]
  {
    DigitTable(hi);
    DigitTable(lo);
    assert IsHexDigit(h) && IsHexDigit(l);
    TwoDigits(h, l);
    assert ['\\', x, h, l][2..] == [h, l];
    OneCharacter((16 * hi + lo) as char);
  }

  lemma OneCharacter(c: char)
    ensures CString([c]) == if c == '\0' then "" else [c]
  {
    assert [c][1..] == "" && CString("") == "";
  }

  lemma TwoDigits(h: char, l: char)
    ensures ValueOf([h, l], 16) == 16 * DigitValue(h) + DigitValue(l)
  {
    assert [h, l][..1] == [h] && [h][..0] == "";
    assert ValueOf([h], 16) == DigitValue(h);
  }

  // ----- everything else -----

  /** Characters that start no word, sign, blank, string or comment. */
  predicate IsStray(c: char) {
    && !WordChar(c) && !Single(c) && !IsBlank(c) && c != '\r' && c != FORM_FEED
    && c != '#' && c != '/' && c != '@'
  }

  lemma StrayEnds(u: string, bol: bool)
    requires |u| > 1 && (IsStray(u[0]) || u[0] == '\r' || u[0] == FORM_FEED)
    ensures RuleOf(u, bol).None?
  {
    NoWordRule(u, 0);
  }

  lemma StrayRule(c: char, bol: bool)
    requires IsStray(c)
    ensures RuleOf([c], bol) == Some(RAny)
  {
    var w := [c];
    NoWordRule(w, 0);
    assert w[0] == c && !IsInclude(w) && !AllBlank(w);
    assert LateRuleOf(w) == Some(RAny);
  }

  lemma StrayScanned(libc: Libc, c: char, rest: string, bol: bool)
    requires IsStray(c)
    ensures Toks(libc, [c] + rest, bol) == [TGarbage] + Toks(libc, rest, false)
  {
    forall k | 0 < k <= |rest| ensures RuleOf([c] + rest[..k], bol).None? {
      StrayEnds([c] + rest[..k], bol);
    }
    StrayRule(c, bol);
    TokenPiece(libc, [c], rest, bol, RAny, TGarbage);
  }

  /** A carriage return and a form feed stand for nothing. */
  lemma ControlSkipped(libc: Libc, c: char, rest: string, bol: bool)
    requires c == '\r' || c == FORM_FEED
    ensures Toks(libc, [c] + rest, bol) == Toks(libc, rest, false)
  {
    forall k | 0 < k <= |rest| ensures RuleOf([c] + rest[..k], bol).None? {
      StrayEnds([c] + rest[..k], bol);
    }
    ControlRule([c], bol);
    PieceScanned(libc, [c], rest, bol);
  }

  lemma ControlRule(w: string, bol: bool)
    requires |w| == 1 && (w[0] == '\r' || w[0] == FORM_FEED)
    ensures RuleOf(w, bol) == Some(RNewline)
  {
    assert w == [w[0]] && w != "/*" && w != "\"" && !IsInclude(w);
    assert "\r" == ['\r'];
  }

  // ----- includes -----

  lemma IncludeRule(before: string, after: string)
    requires (before == "" || AllBlank(before)) && AllBlank(after)
    ensures RuleOf(before + "@include" + after + "\"", true) == Some(RInclude)
  {
    var w := before + "@include" + after + "\"";
    var i := |before|;
    assert w[i..i + 8] == "@include" && w[i + 8..|w| - 1] == after;
    assert forall j | 0 <= j < i :: w[j] == before[j];
    assert IncludeAt(w, i) && w[i] == '@';
    assert w != "/*" && w != "\"";
  }

  /** An include directive, which has to start a line, gives an error token. */
  lemma IncludeScanned(libc: Libc, before: string, after: string, rest: string)
    requires (before == "" || AllBlank(before)) && AllBlank(after)
    ensures Toks(libc, before + "@include" + after + "\"" + rest, true) == [TError] + Toks(libc, rest, false)
  {
    var w := before + "@include" + after + "\"";
    IncludeRule(before, after);
    forall k | 0 < k <= |rest| ensures RuleOf(w + rest[..k], true).None? {
      IncludeEnds(before, after, rest[..k]);
    }
    TokenPiece(libc, w, rest, true, RInclude, TError);
  }

  /** The quote ends the match. */
  lemma IncludeEnds(before: string, after: string, more: string)
    requires (before == "" || AllBlank(before)) && AllBlank(after) && more != ""
    ensures RuleOf(before + "@include" + after + "\"" + more, true).None?
  {
    var u := before + "@include" + after + "\"" + more;
    var i, q := |before|, |before| + 8 + |after|;
    assert u[i] == '@' && u[q] == '\"' && |u| > q + 1;
    assert u[0] == '@' || IsBlank(u[0]);
    NoWordRule(u, i);
    forall k | 0 <= k < |u| ensures !IncludeAt(u, k) {
      NoIncludeAt(u, i, k, q);
    }
    assert !IsLineComment(u) && !AllBlank(u);
  }

  lemma NoIncludeAt(u: string, i: nat, k: nat, q: nat)
    requires k < |u| && i + 8 <= q < |u| - 1 && u[i] == '@' && u[q] == '\"'
    requires forall j | 0 <= j < i :: IsBlank(u[j])
    ensures !IncludeAt(u, k)
  {
    if k == i {
      assert u[k + 8..|u| - 1][q - k - 8] == u[q];
    }
  }
}
