/** Comments stand for nothing: what comes after one is scanned as if it were not there. */
module Comments {
  import opened Wrappers
  import opened Settings
  import opened ParseActions
  import opened Numerals
  import opened Lexemes
  import opened Floats
  import opened Scanning
  import opened ScanLemmas

  /** A star and a slash stand one after the other. */
  predicate HasCloser(c: string) {
    exists i | 0 <= i < |c| - 1 :: c[i] == '*' && c[i + 1] == '/'
  }

  // ----- block comments -----

  lemma OneCharacterOn(libc: Libc, text: string, bol: bool, buf: string)
    requires text != "" && (|text| > 1 ==> text[..2] != "*/")
    ensures TokensOf(libc, Scan(text, bol, InComment, buf)) ==
            TokensOf(libc, Scan(text[1..], text[0] == '\n', InComment, buf))
  {
    TokensAfterStep(libc, Scan(text, bol, InComment, buf));
  }

  lemma AtCloser(libc: Libc, rest: string, bol: bool, buf: string)
    ensures TokensOf(libc, Scan("*/" + rest, bol, InComment, buf)) == TokensOf(libc, Scan(rest, false, Initial, buf))
  {
    var text := "*/" + rest;
    TokensAfterStep(libc, Scan(text, bol, InComment, buf));
    assert text[..2] == "*/" && text[2..] == rest;
  }

  /** Inside a comment, up to its end. */
  lemma {:induction false} RestOfComment(libc: Libc, c: string, rest: string, bol: bool, buf: string)
    requires !HasCloser(c + "*")
    ensures TokensOf(libc, Scan(c + ("*/" + rest), bol, InComment, buf)) ==
            TokensOf(libc, Scan(rest, false, Initial, buf))
    decreases |c|
  {
    if c == "" {
      AtCloser(libc, rest, bol, buf);
      assert "" + ("*/" + rest) == "*/" + rest;
    } else {
      NotClosedYet(c, rest);
      OneCharacterOn(libc, c + ("*/" + rest), bol, buf);
      CloserFurtherOn(c);
      RestOfComment(libc, c[1..], rest, c[0] == '\n', buf);
    }
  }

  lemma CloserFurtherOn(c: string)
    requires c != "" && !HasCloser(c + "*")
    ensures !HasCloser(c[1..] + "*")
  {
    assert forall i | 0 <= i < |c[1..] + "*"| :: (c[1..] + "*")[i] == (c + "*")[i + 1];
  }

  lemma NotClosedYet(c: string, rest: string)
    requires c != "" && !HasCloser(c + "*")
    ensures var text := c + ("*/" + rest);
            |text| > 1 && text[..2] != "*/" && text[1..] == c[1..] + ("*/" + rest) && text[0] == c[0]
  {
    var text := c + ("*/" + rest);
    assert text[0] == (c + "*")[0] && text[1] == (c + "*")[1];
    assert text[..2] == [text[0], text[1]];
  }

  lemma OpenerEnds(u: string, bol: bool)
    requires |u| > 2 && u[0] == '/' && u[1] == '*'
    ensures RuleOf(u, bol).None?
  {
    NoWordRule(u, 0);
  }

  lemma OpenerScanned(libc: Libc, text: string, bol: bool, buf: string)
    ensures TokensOf(libc, Scan("/*" + text, bol, Initial, buf)) ==
            TokensOf(libc, Scan(text, false, InComment, buf))
  {
    var s := Scan("/*" + text, bol, Initial, buf);
    forall k | 0 < k <= |text| ensures RuleOf("/*" + text[..k], bol).None? {
      OpenerEnds("/*" + text[..k], bol);
    }
    PieceLength("/*", text, bol);
    MatchOfPiece(libc, s, 2);
    assert s.text[..2] == "/*" && s.text[2..] == text;
    TokensAfterStep(libc, s);
  }

  lemma CloserNotAtEnd(c: string)
    requires !HasCloser(c)
    ensures !HasCloser(c + "*")
  {
    var all := c + "*";
    forall i | 0 <= i < |all| - 1 ensures !(all[i] == '*' && all[i + 1] == '/') {
      if i < |c| - 1 {
        assert all[i] == c[i] && all[i + 1] == c[i + 1];
      }
    }
  }

  /** A comment between a slash with a star and the next star with a slash. */
  lemma BlockCommentSkipped(libc: Libc, c: string, rest: string, bol: bool)
    requires !HasCloser(c)
    ensures Toks(libc, "/*" + (c + ("*/" + rest)), bol) == Toks(libc, rest, false)
  {
    OpenerScanned(libc, c + ("*/" + rest), bol, "");
    CloserNotAtEnd(c);
    RestOfComment(libc, c, rest, false, "");
  }

  /** A comment that is not closed takes the rest of the text. */
  lemma {:induction false} InsideUnclosed(libc: Libc, c: string, bol: bool, buf: string)
    requires !HasCloser(c)
    ensures TokensOf(libc, Scan(c, bol, InComment, buf)) == []
    decreases |c|
  {
    if c != "" {
      assert |c| > 1 ==> c[..2] == [c[0], c[1]];
      OneCharacterOn(libc, c, bol, buf);
      assert forall i | 0 <= i < |c| - 1 :: c[1..][i] == c[i + 1];
      InsideUnclosed(libc, c[1..], c[0] == '\n', buf);
    }
  }

  lemma UnclosedCommentTakesAll(libc: Libc, c: string, bol: bool)
    requires !HasCloser(c)
    ensures Toks(libc, "/*" + c, bol) == []
  {
    OpenerScanned(libc, c, bol, "");
    InsideUnclosed(libc, c, false, "");
  }

  // ----- comments up to the end of the line -----

  predicate LineOpener(w: string) { w == "#" || w == "//" }

  /** Only the comment itself matches a text that starts like one. */
  lemma OnlyLineComment(u: string, bol: bool)
    requires |u| > 1 && (u[0] == '#' || (u[0] == '/' && u[1] == '/'))
    ensures RuleOf(u, bol) == if IsLineComment(u) then Some(RLineComment) else None
  {
    NoWordRule(u, 0);
  }

  lemma LineCommentIs(open: string, c: string)
    requires LineOpener(open) && '\n' !in c
    ensures IsLineComment(open + c + "\n")
  {
    var w := open + c + "\n";
    forall i | 0 <= i < |w| - 1 ensures w[i] != '\n' {
      if i >= |open| {
        assert w[i] == c[i - |open|];
      }
    }
  }

  lemma NothingBehindLineComment(w: string, rest: string, k: nat, bol: bool)
    requires IsLineComment(w) && 0 < k <= |rest|
    ensures RuleOf(w + rest[..k], bol).None?
  {
    var u := w + rest[..k];
    OnlyLineComment(u, bol);
    assert u[|w| - 1] == '\n';
  }

  lemma LineCommentLength(open: string, c: string, rest: string, bol: bool)
    requires LineOpener(open) && '\n' !in c
    ensures var w := open + c + "\n";
            RuleOf(w, bol) == Some(RLineComment) && Longest(w + rest, bol, |w + rest|) == |w|
  {
    var w := open + c + "\n";
    LineCommentIs(open, c);
    OnlyLineComment(w, bol);
    forall k | 0 < k <= |rest| ensures RuleOf(w + rest[..k], bol).None? {
      NothingBehindLineComment(w, rest, k, bol);
    }
    PieceLength(w, rest, bol);
  }

  lemma LineCommentGivesBack(libc: Libc, w: string, rest: string, bol: bool)
    requires |w| > 1 && w[|w| - 1] == '\n' && w[|w| - 2] != '\n'
    ensures MatchBy(libc, Scan(w + rest, bol, Initial, ""), |w|, RLineComment) ==
            Match(None, Scan(['\n'] + rest, false, Initial, ""))
  {
    assert (w + rest)[|w| - 1..] == ['\n'] + rest;
  }

  lemma LineCommentStep(libc: Libc, w: string, rest: string, bol: bool)
    requires |w| > 1 && w[|w| - 1] == '\n' && w[|w| - 2] != '\n'
    requires RuleOf(w, bol) == Some(RLineComment) && Longest(w + rest, bol, |w + rest|) == |w|
    ensures Toks(libc, w + rest, bol) == Toks(libc, ['\n'] + rest, false)
  {
    var s := Scan(w + rest, bol, Initial, "");
    assert s.text[..|w|] == w;
    StepByRule(libc, s, |w|, RLineComment);
    LineCommentGivesBack(libc, w, rest, bol);
    TokensAfterStep(libc, s);
  }

  /** A comment from a number sign or two slashes to the end of its line. */
  lemma LineCommentSkipped(libc: Libc, open: string, c: string, rest: string, bol: bool)
    requires LineOpener(open) && '\n' !in c
    ensures Toks(libc, open + c + "\n" + rest, bol) == Toks(libc, rest, true)
  {
    var w := open + c + "\n";
    LineCommentLength(open, c, rest, bol);
    LineCommentIs(open, c);
    LineCommentStep(libc, w, rest, bol);
    SingleScanned(libc, '\n', rest, false);
    NewlineGivesNothing(libc);
  }

  lemma NewlineGivesNothing(libc: Libc)
    ensures TokenFor(libc, RuleOf(['\n'], false).value, ['\n']) == None
  {
    assert ['\n'] == "\n" && !IsInclude("\n");
  }
}
