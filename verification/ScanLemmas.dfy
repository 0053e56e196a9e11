/** How the scanner splits text: where a word, a bracket or a run of blanks ends. */
module ScanLemmas {
  import opened Wrappers
  import opened Settings
  import opened ParseActions
  import opened Numerals
  import opened Lexemes
  import opened Floats
  import opened Scanning
  import opened Writer

  /** Characters of names, numbers and truth values. */
  predicate WordChar(c: char) {
    IsAlpha(c) || IsDigit(c) || c == '*' || c == '_' || c == '-' || c == '+' || c == '.'
  }

  predicate AllWord(w: string) { forall i | 0 <= i < |w| :: WordChar(w[i]) }

  /** The text ends here, or goes on with a character that is part of no word. */
  predicate Delimited(rest: string) { rest != "" && !WordChar(rest[0]) }

  // ----- what words consist of -----

  lemma PointIsWord(u: string)
    requires HasPoint(u)
    ensures AllWord(u)
  {
  }

  lemma SignedIsWord(w: string)
    requires AllWord(DropSign(w))
    ensures AllWord(w)
  {
    if DropSign(w) != w {
      assert forall i | 0 < i < |w| :: w[i] == DropSign(w)[i - 1];
    }
  }

  lemma ExponentIsWord(u: string, i: nat)
    requires ExponentAt(u, i)
    ensures AllWord(u)
  {
    SignedIsWord(u[i + 1..]);
    forall j | 0 <= j < |u| ensures WordChar(u[j]) {
      if j < i {
        assert u[..i][j] == u[j];
      } else if j > i {
        assert u[i + 1..][j - i - 1] == u[j];
      }
    }
  }

  lemma FloatIsWord(w: string)
    requires IsFloat(w)
    ensures AllWord(w)
  {
    var u := DropSign(w);
    if HasPoint(u) {
      PointIsWord(u);
    } else {
      var i :| 0 <= i < |u| && ExponentAt(u, i);
      ExponentIsWord(u, i);
    }
    SignedIsWord(w);
  }

  lemma SuffixedIsWord(w: string)
    requires AllWord(DropSuffix(w))
    ensures AllWord(w)
  {
    var u := DropSuffix(w);
    assert forall i | 0 <= i < |u| :: w[i] == u[i];
  }

  lemma HexIsWord(w: string)
    requires IsHex(w)
    ensures AllWord(w)
  {
    assert forall i | 2 <= i < |w| :: w[i] == w[2..][i - 2];
  }

  /** Every match of a word rule consists of word characters. */
  lemma WordRules(w: string)
    requires IsTrue(w) || IsFalse(w) || ValidName(w) || IsFloat(w) || IsInteger(w)
             || IsInteger64(w) || IsHex(w) || IsHex64(w)
    ensures AllWord(w)
  {
    if IsFloat(w) {
      FloatIsWord(w);
    } else if IsInteger(w) {
      SignedIsWord(w);
    } else if IsInteger64(w) {
      SignedIsWord(DropSuffix(w));
      SuffixedIsWord(w);
    } else if IsHex(w) {
      HexIsWord(w);
    } else if IsHex64(w) {
      HexIsWord(DropSuffix(w));
      SuffixedIsWord(w);
    } else if IsTrue(w) || IsFalse(w) {
      assert forall i | 0 <= i < |w| :: IsAlpha(Lower(w[i])) ==> IsAlpha(w[i]);
    }
  }

  /** A word match also starts like a word. */
  lemma NoWordRule(u: string, i: nat)
    requires i < |u| && !WordChar(u[i])
    ensures !IsTrue(u) && !IsFalse(u) && !ValidName(u) && !IsFloat(u) && !IsInteger(u)
    ensures !IsInteger64(u) && !IsHex(u) && !IsHex64(u)
  {
    if IsTrue(u) || IsFalse(u) || ValidName(u) || IsFloat(u) || IsInteger(u)
       || IsInteger64(u) || IsHex(u) || IsHex64(u)
    {
      WordRules(u);
    }
  }

  // ----- nothing longer matches -----

  /** A character that starts only matches of length one. */
  predicate Single(c: char) {
    c == '=' || c == ':' || c == ',' || c == '{' || c == '}' || c == '[' || c == ']'
    || c == '(' || c == ')' || c == ';' || c == '\n' || c == '\"'
  }

  lemma SingleEnds(u: string, bol: bool)
    requires |u| > 1 && Single(u[0])
    ensures RuleOf(u, bol).None?
  {
    NoWordRule(u, 0);
  }

  lemma WordEnds(u: string, n: nat, bol: bool)
    requires 0 < n < |u| && WordChar(u[0]) && !WordChar(u[n])
    ensures RuleOf(u, bol).None?
  {
    NoWordRule(u, n);
  }

  lemma BlanksEnd(u: string, n: nat, bol: bool)
    requires 0 < n < |u| && (forall i | 0 <= i < n :: IsBlank(u[i]))
    requires !IsBlank(u[n]) && u[n] != '@'
    ensures RuleOf(u, bol).None?
  {
    NoWordRule(u, 0);
  }

  lemma LongestIs(s: string, bol: bool, n: nat)
    requires 0 < n <= |s| && RuleOf(s[..n], bol).Some?
    requires forall k | n < k <= |s| :: RuleOf(s[..k], bol).None?
    ensures Longest(s, bol, |s|) == n
  {
  }

  // ----- scanning one piece -----

  /** The tokens of a text outside strings and comments. */
  function Toks(libc: Libc, text: string, bol: bool): seq<Token> { TokensOf(libc, Scan(text, bol, Initial, "")) }

  function Shown(token: Option<Token>): seq<Token> {
    if token.Some? then [token.value] else []
  }

  lemma PieceLength(w: string, rest: string, bol: bool)
    requires w != "" && RuleOf(w, bol).Some?
    requires forall k | 0 < k <= |rest| :: RuleOf(w + rest[..k], bol).None?
    ensures Longest(w + rest, bol, |w + rest|) == |w|
  {
    var s := w + rest;
    assert s[..|w|] == w;
    forall k | |w| < k <= |s| ensures RuleOf(s[..k], bol).None? {
      assert s[..k] == w + rest[..k - |w|];
    }
    LongestIs(s, bol, |w|);
  }

  lemma StepByRule(libc: Libc, s: Scan, n: nat, rule: Rule)
    requires s.mode.Initial? && s.text != "" && n == Longest(s.text, s.bol, |s.text|) && n > 0
    requires RuleOf(s.text[..n], s.bol) == Some(rule) && (rule.RLineComment? ==> n > 1)
    ensures LexStep(libc, s) == MatchBy(libc, s, n, rule)
  {
  }

  lemma MatchOfPiece(libc: Libc, s: Scan, n: nat)
    requires s.mode.Initial? && s.text != "" && n == Longest(s.text, s.bol, |s.text|) && n > 0
    ensures RuleOf(s.text[..n], s.bol).Some?
    ensures !RuleOf(s.text[..n], s.bol).value.RLineComment? ==>
              var w := s.text[..n]; var r := RuleOf(w, s.bol).value;
              LexStep(libc, s) == Match(TokenFor(libc, r, w),
                                  Scan(s.text[n..], s.text[n - 1] == '\n', ModeAfter(r), s.buf))
  {
  }

  /** If nothing longer than `w` matches, the scanner takes exactly `w`. */
  lemma PieceScanned(libc: Libc, w: string, rest: string, bol: bool)
    requires w != "" && RuleOf(w, bol).Some?
    requires var r := RuleOf(w, bol).value; !r.RLineComment? && ModeAfter(r) == Initial
    requires forall k | 0 < k <= |rest| :: RuleOf(w + rest[..k], bol).None?
    ensures Toks(libc, w + rest, bol) ==
            Shown(TokenFor(libc, RuleOf(w, bol).value, w)) + Toks(libc, rest, w[|w| - 1] == '\n')
  {
    var s := Scan(w + rest, bol, Initial, "");
    PieceLength(w, rest, bol);
    MatchOfPiece(libc, s, |w|);
    assert s.text[..|w|] == w && s.text[|w|..] == rest && s.text[|w| - 1] == w[|w| - 1];
    TokensAfterStep(libc, s);
  }

  lemma SingleScanned(libc: Libc, c: char, rest: string, bol: bool)
    requires Single(c) && c != '\"'
    ensures Toks(libc, [c] + rest, bol) ==
            Shown(TokenFor(libc, RuleOf([c], bol).value, [c])) + Toks(libc, rest, c == '\n')
  {
    forall k | 0 < k <= |rest| ensures RuleOf([c] + rest[..k], bol).None? {
      SingleEnds([c] + rest[..k], bol);
    }
    NoWordRule([c], 0);
    PieceScanned(libc, [c], rest, bol);
  }

  lemma WordScanned(libc: Libc, w: string, rest: string, bol: bool)
    requires w != "" && WordChar(w[0]) && Delimited(rest) && RuleOf(w, bol).Some?
    requires AllWord(w)
    ensures Toks(libc, w + rest, bol) == Shown(TokenFor(libc, RuleOf(w, bol).value, w)) + Toks(libc, rest, false)
  {
    forall k | 0 < k <= |rest| ensures RuleOf(w + rest[..k], bol).None? {
      assert (w + rest[..k])[|w|] == rest[0];
      WordEnds(w + rest[..k], |w|, bol);
    }
    WordIsWordRule(w, bol);
    PieceScanned(libc, w, rest, bol);
  }

  /** `PieceScanned` for a piece that gives a token. */
  lemma TokenPiece(libc: Libc, w: string, rest: string, bol: bool, rule: Rule, token: Token)
    requires w != "" && w[|w| - 1] != '\n' && RuleOf(w, bol) == Some(rule) && TokenFor(libc, rule, w) == Some(token)
    requires !rule.RLineComment? && ModeAfter(rule) == Initial
    requires forall k | 0 < k <= |rest| :: RuleOf(w + rest[..k], bol).None?
    ensures Toks(libc, w + rest, bol) == [token] + Toks(libc, rest, false)
  {
    PieceScanned(libc, w, rest, bol);
  }

  /** `WordScanned` for a word that gives a token. */
  lemma TokenWord(libc: Libc, w: string, rest: string, bol: bool, rule: Rule, token: Token)
    requires w != "" && WordChar(w[0]) && Delimited(rest) && AllWord(w)
    requires RuleOf(w, bol) == Some(rule) && TokenFor(libc, rule, w) == Some(token)
    ensures Toks(libc, w + rest, bol) == [token] + Toks(libc, rest, false)
  {
    WordScanned(libc, w, rest, bol);
  }

  lemma WordIsWordRule(w: string, bol: bool)
    requires w != "" && AllWord(w) && RuleOf(w, bol).Some?
    ensures var r := RuleOf(w, bol).value; !r.RLineComment? && ModeAfter(r) == Initial
  {
    assert WordChar(w[0]);
    assert w != "/*" && w != "\"" && !IsLineComment(w);
  }

  lemma BlanksScanned(libc: Libc, w: string, rest: string, bol: bool)
    requires AllBlank(w) && rest != "" && !IsBlank(rest[0]) && rest[0] != '@'
    ensures Toks(libc, w + rest, bol) == Toks(libc, rest, false)
  {
    forall k | 0 < k <= |rest| ensures RuleOf(w + rest[..k], bol).None? {
      assert (w + rest[..k])[|w|] == rest[0];
      BlanksEnd(w + rest[..k], |w|, bol);
    }
    BlankRule(w, bol);
    PieceScanned(libc, w, rest, bol);
  }

  lemma BlankRule(w: string, bol: bool)
    requires AllBlank(w)
    ensures RuleOf(w, bol) == Some(RBlank)
  {
    assert IsBlank(w[0]) && IsBlank(w[|w| - 1]);
  }
}
