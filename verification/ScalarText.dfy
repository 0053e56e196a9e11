/** Scalars survive printing and scanning: integers in both formats and both widths, truth
    values, names, and strings with every escape.  The text of a float is one token; what an
    infinity is printed as is a name and a number. */
module ScalarText {
  import opened Wrappers
  import opened Settings
  import opened ParseActions
  import opened Numerals
  import opened Lexemes
  import opened Floats
  import opened Scanning
  import opened Writer
  import opened ScanLemmas

  // ----- which rule a printed scalar matches -----

  predicate NumberStart(c: char) { IsDigit(c) || c == '-' || c == '+' || c == '.' }

  /** Texts that start like a number match none of the rules before the number rules. */
  lemma NoEarlyRule(w: string, bol: bool)
    requires w != "" && AllWord(w) && NumberStart(w[0])
    ensures RuleOf(w, bol) == LateRuleOf(w)
  {
    assert WordChar(w[0]);
    assert !AllBlank(w) && !IsInclude(w) && !IsTrue(w) && !IsFalse(w) && !ValidName(w);
  }

  lemma NumberRule(w: string, bol: bool)
    requires w != "" && AllWord(w) && NumberStart(w[0])
    ensures IsFloat(w) ==> RuleOf(w, bol) == Some(RFloat)
    ensures !IsFloat(w) && IsInteger(w) ==> RuleOf(w, bol) == Some(RInteger)
    ensures !IsFloat(w) && !IsInteger(w) && IsInteger64(w) ==> RuleOf(w, bol) == Some(RInteger64)
    ensures !IsFloat(w) && !IsInteger(w) && !IsInteger64(w) && IsHex(w) ==>
              RuleOf(w, bol) == Some(RHex)
    ensures !IsFloat(w) && !IsInteger(w) && !IsInteger64(w) && !IsHex(w) && IsHex64(w) ==>
              RuleOf(w, bol) == Some(RHex64)
  {
    NoEarlyRule(w, bol);
  }

  lemma FloatStart(w: string)
    requires IsFloat(w)
    ensures w != "" && NumberStart(w[0])
  {
    var u := DropSign(w);
    if !HasPoint(u) {
      var i :| 0 <= i < |u| && ExponentAt(u, i);
      assert u[..i] != "" && u[..i][0] == u[0];
    }
  }

  lemma DigitsAreNoFloat(w: string)
    requires AllDigits(DropSign(w), 10)
    ensures !IsFloat(w) && IsInteger(w)
  {
  }

  lemma EndsInL(w: string)
    requires w != "" && w[|w| - 1] == 'L'
    ensures !HasPoint(w) && !IsInteger(w) && !IsFloat(w)
  {
    var u := DropSign(w);
    assert u != "" && u[|u| - 1] == 'L';
    assert !IsBaseDigit(u[|u| - 1], 10);
    forall i | 0 <= i < |u| ensures !ExponentAt(u, i) {
      if i < |u| - 1 {
        var x := DropSign(u[i + 1..]);
        assert u[i + 1..][|u| - i - 2] == 'L';
        assert x[|x| - 1] == 'L' && !IsBaseDigit('L', 10);
      }
    }
  }

  lemma DropL(w: string)
    requires w != "" && w[|w| - 1] != 'L'
    ensures DropSuffix(w + "L") == w
  {
    var v := w + "L";
    assert v[..|v| - 1] == w && v[|v| - 2] == w[|w| - 1];
  }

  /** `0x` makes a text neither a float nor a decimal, with or without a suffix. */
  lemma HexPrefix(w: string)
    requires |w| > 2 && w[0] == '0' && w[1] == 'x'
    ensures !IsFloat(w) && !IsInteger(w) && !IsInteger64(w)
  {
    forall i | 0 <= i < |w| ensures !ExponentAt(w, i) {
      if i > 1 {
        assert w[..i][1] == 'x';
      } else if i == 1 {
        assert w[1] == 'x';
      }
    }
    assert DropSuffix(w)[1] == 'x' || DropSuffix(w) == "0";
  }

  // ----- numbers -----

  lemma DecimalStart(v: int)
    ensures var w := Decimal(v); w != "" && NumberStart(w[0]) && AllWord(w) && w[|w| - 1] != 'L'
  {
    DecimalRoundTrip(v);
    var w := Decimal(v);
    SignedIsWord(w);
    assert w[|w| - 1] == DropSign(w)[|DropSign(w)| - 1];
  }

  lemma HexStart(n: nat)
    ensures var w := "0x" + Numeral(n, 16); IsHex(w) && AllWord(w) && w[|w| - 1] != 'L'
    ensures ("0x" + Numeral(n, 16))[2..] == Numeral(n, 16)
  {
    NumeralRoundTrip(n, 16);
    var w := "0x" + Numeral(n, 16);
    assert w[2..] == Numeral(n, 16);
    HexIsWord(w);
    assert w[|w| - 1] == w[2..][|w| - 3];
  }

  /** A word that starts like a number, scanned up to the delimiter after it. */
  lemma NumberScanned(libc: Libc, w: string, token: Token, rest: string, bol: bool)
    requires w != "" && AllWord(w) && NumberStart(w[0]) && Delimited(rest)
    requires RuleOf(w, bol).Some? && TokenFor(libc, RuleOf(w, bol).value, w) == Some(token)
    ensures Toks(libc, w + rest, bol) == [token] + Toks(libc, rest, false)
  {
    WordScanned(libc, w, rest, bol);
  }

  lemma DecimalScanned(libc: Libc, v: int, rest: string, bol: bool)
    requires Int32(v) && Delimited(rest)
    ensures Toks(libc, Decimal(v) + rest, bol) == [TInteger(v)] + Toks(libc, rest, false)
  {
    var w := Decimal(v);
    DecimalStart(v);
    DecimalRoundTrip(v);
    DigitsAreNoFloat(w);
    NumberRule(w, bol);
    NumberScanned(libc, w, TInteger(v), rest, bol);
  }

  lemma HexScanned(libc: Libc, v: int, rest: string, bol: bool)
    requires Int32(v) && Delimited(rest)
    ensures Toks(libc, "0x" + Numeral(v % TWO32, 16) + rest, bol) == [THex(v)] + Toks(libc, rest, false)
  {
    var w := "0x" + Numeral(v % TWO32, 16);
    HexStart(v % TWO32);
    HexPrefix(w);
    NumberRule(w, bol);
    NumeralRoundTrip(v % TWO32, 16);
    UnsignedRoundTrip(v);
    NumberScanned(libc, w, THex(v), rest, bol);
  }

  lemma IntScanned(libc: Libc, v: int, hex: bool, rest: string, bol: bool)
    requires Int32(v) && Delimited(rest)
    ensures Toks(libc, WriteScalar(libc, IntV(v, hex)) + rest, bol) ==
            [if hex then THex(v) else TInteger(v)] + Toks(libc, rest, false)
  {
    if hex {
      HexScanned(libc, v, rest, bol);
    } else {
      DecimalScanned(libc, v, rest, bol);
    }
  }

  lemma LongDecimalScanned(libc: Libc, v: int, rest: string, bol: bool)
    requires Int64(v) && Delimited(rest)
    ensures Toks(libc, Decimal(v) + "L" + rest, bol) == [TInteger64(v)] + Toks(libc, rest, false)
  {
    var w := Decimal(v) + "L";
    DecimalStart(v);
    DecimalRoundTrip(v);
    DropL(Decimal(v));
    EndsInL(w);
    SuffixedIsWord(w);
    NumberRule(w, bol);
    NumberScanned(libc, w, TInteger64(v), rest, bol);
  }

  lemma LongHexRule(digits: string, bol: bool)
    requires IsHex(digits) && digits[1] == 'x' && AllWord(digits) && digits[|digits| - 1] != 'L'
    ensures var w := digits + "L";
            RuleOf(w, bol) == Some(RHex64) && DropSuffix(w) == digits && AllWord(w)
  {
    var w := digits + "L";
    DropL(digits);
    EndsInL(w);
    SuffixedIsWord(w);
    NoHexWithL(w);
    HexPrefix(w);
    NumberRule(w, bol);
  }

  lemma LongHexScanned(libc: Libc, v: int, rest: string, bol: bool)
    requires Int64(v) && Delimited(rest)
    ensures Toks(libc, "0x" + Numeral(v % TWO64, 16) + "L" + rest, bol) == [THex64(v)] + Toks(libc, rest, false)
  {
    var digits := "0x" + Numeral(v % TWO64, 16);
    HexStart(v % TWO64);
    LongHexRule(digits, bol);
    NumeralRoundTrip(v % TWO64, 16);
    UnsignedRoundTrip(v);
    NumberScanned(libc, digits + "L", THex64(v), rest, bol);
  }

  lemma Int64Scanned(libc: Libc, v: int, hex: bool, rest: string, bol: bool)
    requires Int64(v) && Delimited(rest)
    ensures Toks(libc, WriteScalar(libc, Int64V(v, hex)) + rest, bol) ==
            [if hex then THex64(v) else TInteger64(v)] + Toks(libc, rest, false)
  {
    if hex {
      LongHexScanned(libc, v, rest, bol);
    } else {
      LongDecimalScanned(libc, v, rest, bol);
    }
  }

  lemma NoHexWithL(w: string)
    requires w != "" && w[|w| - 1] == 'L'
    ensures !IsHex(w)
  {
    assert |w| > 2 ==> w[2..][|w| - 3] == w[|w| - 1];
  }

  lemma FloatScanned(libc: Libc, w: string, rest: string, bol: bool)
    requires IsFloat(w) && Delimited(rest)
    ensures Toks(libc, w + rest, bol) == [TFloat(libc.atof(w))] + Toks(libc, rest, false)
  {
    FloatStart(w);
    FloatIsWord(w);
    NumberRule(w, bol);
    NumberScanned(libc, w, TFloat(libc.atof(w)), rest, bol);
  }

  // ----- infinities and the like -----

  /** The point behind a name ends it. */
  lemma NameEndsAtPoint(u: string, bol: bool)
    requires |u| > 3 && IsAlpha(u[0]) && u[3] == '.'
    ensures RuleOf(u, bol).None?
  {
    assert !IsBlank(u[0]) && !IsNameChar(u[3]) && !IsDigit(u[0]);
    assert DropSign(u) == u;
    forall i | 0 <= i < |u| ensures !ExponentAt(u, i) {
      if i > 0 {
        assert u[..i][0] == u[0] && !IsBaseDigit(u[0], 10);
      }
    }
    assert !IsFloat(u);
    AlphaIsNoNumber(u);
  }

  lemma AlphaIsNoNumber(u: string)
    requires u != "" && IsAlpha(u[0])
    ensures !IsInteger(u) && !IsInteger64(u) && !IsHex(u) && !IsHex64(u) && !IsInclude(u) && !IsLineComment(u)
  {
    assert !IsBaseDigit(u[0], 10);
    var v := DropSuffix(u);
    assert v != "" && v[0] == u[0];
  }

  /** Nothing but the sign itself matches where no number follows. */
  lemma SignEnds(u: string, bol: bool)
    requires |u| > 1 && u[0] == '-' && IsAlpha(u[1])
    ensures RuleOf(u, bol).None?
  {
    var v := u[1..];
    assert DropSign(u) == v && v[0] == u[1] && !IsDigit(v[0]) && !IsBaseDigit(v[0], 10);
    forall i | 0 <= i < |v| ensures !ExponentAt(v, i) {
      if i > 0 {
        assert v[..i][0] == v[0];
      }
    }
    var x := DropSuffix(u);
    assert x == u || (x != "" && x[0] == '-' && DropSign(x) == x[1..]);
    assert |x| > 1 ==> x[1..][0] == u[1];
    assert !IsBlank(u[0]);
  }

  lemma OddWordScanned(libc: Libc, w: string, rest: string, bol: bool)
    requires (w == "inf" || w == "nan") && Delimited(rest)
    ensures Toks(libc, w + (".0" + rest), bol) == [TName(w), TFloat(libc.atof(".0"))] + Toks(libc, rest, false)
  {
    var tail := ".0" + rest;
    forall k | 0 < k <= |tail| ensures RuleOf(w + tail[..k], bol).None? {
      assert (w + tail[..k])[3] == tail[0] == '.' && (w + tail[..k])[0] == w[0];
      NameEndsAtPoint(w + tail[..k], bol);
    }
    assert ValidName(w) && !IsBooleanWord(w);
    NameRule(w, bol);
    TokenPiece(libc, w, tail, bol, RName, TName(w));
    ZeroIsFloat();
    FloatScanned(libc, ".0", rest, false);
    PrependTwo(TName(w), TFloat(libc.atof(".0")), Toks(libc, rest, false));
  }

  lemma ZeroIsFloat()
    ensures IsFloat(".0")
  {
    assert ".0"[0] == '.' && DropSign(".0") == ".0";
    assert HasPoint(".0");
  }

  lemma PrependTwo(a: Token, b: Token, rest: seq<Token>)
    ensures [a] + ([b] + rest) == [a, b] + rest
  {
  }

  lemma MinusScanned(libc: Libc, text: string, bol: bool)
    requires text != "" && IsAlpha(text[0])
    ensures Toks(libc, "-" + text, bol) == [TGarbage] + Toks(libc, text, false)
  {
    forall k | 0 < k <= |text| ensures RuleOf("-" + text[..k], bol).None? {
      assert ("-" + text[..k])[1] == text[0];
      SignEnds("-" + text[..k], bol);
    }
    SignRule("-", bol);
    TokenPiece(libc, "-", text, bol, RAny, TGarbage);
  }

  /** A sign alone is no number, no name and no blank. */
  lemma SignIsNoWord(w: string)
    requires |w| == 1 && w[0] == '-'
    ensures !AllBlank(w) && !IsInclude(w) && !IsTrue(w) && !IsFalse(w) && !ValidName(w) && !IsLineComment(w)
  {
  }

  lemma SignIsNoNumber(w: string)
    requires |w| == 1 && w[0] == '-'
    ensures !IsFloat(w) && !IsInteger(w) && !IsInteger64(w) && !IsHex(w) && !IsHex64(w)
  {
    assert DropSign(w) == "";
    assert !HasPoint("");
  }

  lemma SignRule(w: string, bol: bool)
    requires |w| == 1 && w[0] == '-'
    ensures RuleOf(w, bol) == Some(RAny)
  {
    SignIsNoWord(w);
    SignIsNoNumber(w);
    assert LateRuleOf(w) == Some(RAny);
  }

  // ----- truth values and names -----

  lemma TruthRules(bol: bool)
    ensures RuleOf("true", bol) == Some(RTrue) && AllWord("true")
    ensures RuleOf("false", bol) == Some(RFalse) && AllWord("false")
  {
    assert IsTrue("true") && !IsInclude("true") && !AllBlank("true");
    assert IsFalse("false") && !IsInclude("false") && !AllBlank("false");
    WordRules("true");
    WordRules("false");
  }

  lemma TrueScanned(libc: Libc, rest: string, bol: bool)
    requires Delimited(rest)
    ensures Toks(libc, "true" + rest, bol) == [TBoolean(1)] + Toks(libc, rest, false)
  {
    TruthRules(bol);
    TokenWord(libc, "true", rest, bol, RTrue, TBoolean(1));
  }

  lemma FalseScanned(libc: Libc, rest: string, bol: bool)
    requires Delimited(rest)
    ensures Toks(libc, "false" + rest, bol) == [TBoolean(0)] + Toks(libc, rest, false)
  {
    TruthRules(bol);
    TokenWord(libc, "false", rest, bol, RFalse, TBoolean(0));
  }

  lemma BoolText(libc: Libc, b: int)
    ensures WriteScalar(libc, BoolV(b)) == if b != 0 then "true" else "false"
  {
  }

  lemma BoolScanned(libc: Libc, b: int, rest: string, bol: bool)
    requires Delimited(rest)
    ensures Toks(libc, WriteScalar(libc, BoolV(b)) + rest, bol) ==
            [TBoolean(if b != 0 then 1 else 0)] + Toks(libc, rest, false)
  {
    BoolText(libc, b);
    if b != 0 {
      TrueScanned(libc, rest, bol);
    } else {
      FalseScanned(libc, rest, bol);
    }
  }

  /** A valid name is scanned as a name exactly when it is not a truth value in some case. */
  lemma NameRule(name: string, bol: bool)
    requires ValidName(name)
    ensures RuleOf(name, bol) == Some(RName) <==> !IsBooleanWord(name)
  {
    assert IsNameStart(name[0]);
    assert !IsInclude(name) && !AllBlank(name);
  }

  lemma NameScanned(libc: Libc, name: string, rest: string, bol: bool)
    requires ValidName(name) && !IsBooleanWord(name) && Delimited(rest)
    ensures Toks(libc, name + rest, bol) == [TName(name)] + Toks(libc, rest, false)
  {
    NameRule(name, bol);
    WordRules(name);
    TokenWord(libc, name, rest, bol, RName, TName(name));
  }

  // ----- strings -----

  /** The tokens of a text inside a string of which `buf` has been collected. */
  function StringToks(libc: Libc, text: string, buf: string): seq<Token> {
    TokensOf(libc, Scan(text, false, InString, buf))
  }

  lemma StringBol(libc: Libc, text: string, bol: bool, buf: string)
    ensures TokensOf(libc, Scan(text, bol, InString, buf)) == StringToks(libc, text, buf)
  {
    if text != "" {
      TokensAfterStep(libc, Scan(text, bol, InString, buf));
      TokensAfterStep(libc, Scan(text, false, InString, buf));
    }
  }

  /** One match inside a string that is not the closing quote. */
  lemma StringStepToks(libc: Libc, text: string, buf: string)
    requires text != "" && text[0] != '\"'
    ensures var n := StringMatch(text);
            StringToks(libc, text, buf) == StringToks(libc, text[n..], buf + Unescape(text[..n]))
  {
    var s := Scan(text, false, InString, buf);
    TokensAfterStep(libc, s);
    var n := StringMatch(text);
    StringBol(libc, text[n..], text[n - 1] == '\n', buf + Unescape(text[..n]));
  }

  /** A run of plain characters is collected as if one at a time. */
  lemma PlainScanned(libc: Libc, c: char, text: string, buf: string)
    requires IsPlain(c) && c != '\0' && text != ""
    ensures StringToks(libc, [c] + text, buf) == StringToks(libc, text, buf + [c])
  {
    var n := PlainRun(text);
    PlainPrefix(c, text);
    StringStepToks(libc, [c] + text, buf);
    if n > 0 {
      StringStepToks(libc, text, buf + [c]);
      Regroup(buf, [c], CString(text[..n]));
    } else {
      assert text[0..] == text && [c] + CString(text[..n]) == [c];
    }
  }

  lemma PlainPrefix(c: char, text: string)
    requires IsPlain(c) && c != '\0' && text != ""
    ensures var t, n := [c] + text, PlainRun(text);
            && StringMatch(t) == n + 1 && t[n + 1..] == text[n..]
            && Unescape(t[..n + 1]) == [c] + CString(text[..n])
            && IsPlain(t[0]) && (n == 0 ==> CString(text[..n]) == "")
            && (n > 0 ==> StringMatch(text) == n && Unescape(text[..n]) == CString(text[..n]))
  {
    PlainLonger(c, text);
    PlainText(c, text[..PlainRun(text)]);
    assert ([c] + text)[..PlainRun(text) + 1] == [c] + text[..PlainRun(text)];
  }

  lemma PlainLonger(c: char, text: string)
    requires IsPlain(c) && text != ""
    ensures var t, n := [c] + text, PlainRun(text);
            && StringMatch(t) == n + 1 && t[n + 1..] == text[n..] && IsPlain(t[0])
            && (n > 0 ==> StringMatch(text) == n && Unescape(text[..n]) == CString(text[..n]))
  {
    var t := [c] + text;
    assert t[1..] == text && t[0] == c;
  }

  lemma PlainText(c: char, run: string)
    requires IsPlain(c) && c != '\0'
    ensures Unescape([c] + run) == [c] + CString(run)
  {
    assert ([c] + run)[1..] == run;
  }

  lemma EscapeScanned(libc: Libc, c: char, text: string, buf: string)
    requires c != '\0' && text != ""
    ensures StringToks(libc, Escape(c) + text, buf) == StringToks(libc, text, buf + [c])
  {
    var e := Escape(c);
    if e == [c] {
      PlainScanned(libc, c, text, buf);
    } else {
      var t := e + text;
      EscapeMatch(c, text);
      StringStepToks(libc, t, buf);
      assert t[..|e|] == e && t[|e|..] == text;
    }
  }

  lemma EscapeMatch(c: char, text: string)
    requires c != '\0' && Escape(c) != [c]
    ensures StringMatch(Escape(c) + text) == |Escape(c)| && Unescape(Escape(c)) == [c]
  {
    if |Escape(c)| == 4 {
      HexEscape(c);
      var t := Escape(c) + text;
      assert t[2] == Escape(c)[2] && t[3] == Escape(c)[3];
      assert CString([c]) == [c];
    }
  }

  lemma HexEscape(c: char)
    requires |Escape(c)| == 4
    ensures IsHexDigit(Escape(c)[2]) && IsHexDigit(Escape(c)[3])
    ensures ValueOf(Escape(c)[2..], 16) == c as nat < 32
  {
    var hi, lo := c as nat / 16, c as nat % 16;
    var w := Escape(c)[2..];
    DigitRoundTrip(hi, 16);
    DigitRoundTrip(lo, 16);
    assert w == [DigitChar(hi), DigitChar(lo)];
    assert w[..1] == [DigitChar(hi)] && w[..1][..0] == "";
    assert ValueOf(w[..1], 16) == hi;
  }

  lemma Regroup(a: string, b: string, c: string)
    ensures a + b + c == a + (b + c)
  {
  }

  lemma {:induction false} EscapedScanned(libc: Libc, s: string, rest: string, buf: string)
    requires '\0' !in s
    ensures StringToks(libc, EscapeAll(s) + ("\"" + rest), buf) == [TString(buf + s)] + Toks(libc, rest, false)
  {
    if s == "" {
      var t := "\"" + rest;
      assert EscapeAll(s) + t == t && t[1..] == rest && buf + s == buf;
      TokensAfterStep(libc, Scan(t, false, InString, buf));
    } else {
      var t := EscapeAll(s[1..]) + ("\"" + rest);
      Regroup(Escape(s[0]), EscapeAll(s[1..]), "\"" + rest);
      EscapeScanned(libc, s[0], t, buf);
      EscapedScanned(libc, s[1..], rest, buf + [s[0]]);
      Regroup(buf, [s[0]], s[1..]);
      assert [s[0]] + s[1..] == s;
    }
  }

  /** A quoted string gives back its content. */
  lemma StringScanned(libc: Libc, s: string, rest: string, bol: bool)
    requires '\0' !in s
    ensures Toks(libc, WriteScalar(libc, StringV(s)) + rest, bol) == [TString(s)] + Toks(libc, rest, false)
  {
    var body := EscapeAll(s) + ("\"" + rest);
    assert WriteScalar(libc, StringV(s)) + rest == "\"" + body;
    QuoteScanned(libc, body, bol);
    EscapedScanned(libc, s, rest, "");
    assert "" + s == s;
  }

  lemma QuoteScanned(libc: Libc, body: string, bol: bool)
    ensures Toks(libc, "\"" + body, bol) == StringToks(libc, body, "")
  {
    var s := Scan("\"" + body, bol, Initial, "");
    forall k | 0 < k <= |body| ensures RuleOf("\"" + body[..k], bol).None? {
      SingleEnds("\"" + body[..k], bol);
    }
    PieceLength("\"", body, bol);
    MatchOfPiece(libc, s, 1);
    assert s.text[..1] == "\"" && s.text[1..] == body;
    TokensAfterStep(libc, s);
  }
}
