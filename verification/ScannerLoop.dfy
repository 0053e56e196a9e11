/** `libconfig_yylex` as it runs: a buffer position, a start condition and a string buffer that
    every match changes. */
module ScannerLoop {
  import opened Wrappers
  import opened ParseActions
  import opened Lexemes
  import opened Floats
  import opened Scanning

  lemma StepIs(libc: Libc, s: Scan, n: nat)
    requires s.text != "" && s.mode == Initial && n == Longest(s.text, s.bol, |s.text|) && n > 0
    ensures RuleOf(s.text[..n], s.bol).Some?
    ensures var rule := RuleOf(s.text[..n], s.bol).value;
            (rule.RLineComment? ==> n > 1) && LexStep(libc, s) == MatchBy(libc, s, n, rule)
  {
    SomethingMatches(s.text, s.bol);
    if RuleOf(s.text[..n], s.bol) == Some(RLineComment) {
      CommentIsLong(s.text[..n], s.bol);
    }
  }

  class Scanner {
    const libc: Libc
    const text: string
    var pos: nat              // yy_c_buf_p
    var atBol: bool           // yy_at_bol
    var mode: Mode            // the start condition
    var str: string           // the string buffer of the scan context

    ghost predicate Valid()
      reads this
    {
      pos <= |text|
    }

    /** What is left to scan. */
    ghost function State(): Scan
      reads this
      requires Valid()
    {
      Scan(text[pos..], atBol, mode, str)
    }

    constructor (libc: Libc, input: string)
      ensures this.libc == libc && Valid() && State() == Scan(input, true, Initial, "")
    {
      this.libc := libc;
      text := input;
      pos := 0;
      atBol := true;
      mode := Initial;
      str := "";
    }

    /** Runs over the rest of the text and remembers the last position at which a rule matched. */
    method LongestMatch() returns (n: nat)
      requires Valid() && pos < |text|
      ensures 0 < n <= |text| - pos && n == Longest(text[pos..], atBol, |text| - pos)
    {
      var rest := text[pos..];
      n := 0;
      var k := 0;
      while k < |rest|
        invariant 0 <= k <= |rest| && n <= k
        invariant n == Longest(rest, atBol, k)
      {
        k := k + 1;
        if RuleOf(rest[..k], atBol).Some? {
          n := k;
        }
      }
      SomethingMatches(rest, atBol);
    }

    /** The run of characters up to the next quote or backslash. */
    method PlainLength() returns (n: nat)
      requires Valid()
      ensures n == PlainRun(text[pos..])
    {
      n := 0;
      while pos + n < |text| && IsPlain(text[pos + n])
        invariant pos + n <= |text|
        invariant n + PlainRun(text[pos + n..]) == PlainRun(text[pos..])
      {
        assert text[pos + n..][1..] == text[pos + n + 1..];
        n := n + 1;
      }
    }

    /** Moves past a match. */
    method Advance(n: nat)
      requires Valid() && 0 < n <= |text| - pos
      modifies `pos, `atBol
      ensures Valid() && pos == old(pos) + n && atBol == (text[pos - 1] == '\n')
    {
      pos := pos + n;
      atBol := text[pos - 1] == '\n';
    }

    /** A match of `n` characters by the given rule. */
    method Accept(n: nat, rule: Rule) returns (token: Option<Token>)
      requires Valid() && 0 < n <= |text| - pos && (rule.RLineComment? ==> n > 1)
      modifies this
      ensures Valid() && Match(token, State()) == MatchBy(libc, old(State()), n, rule)
    {
      var word := text[pos..pos + n];
      assert word == text[pos..][..n];
      // yyless: the newline after a line comment is scanned again
      var used := if rule.RLineComment? then n - 1 else n;
      ghost var was := text[pos..];
      Advance(used);
      assert was[used - 1] == text[pos - 1] && was[used..] == text[pos..];
      mode := ModeAfter(rule);
      token := TokenFor(libc, rule, word);
    }

    /** The longest match and the first rule that makes it. */
    method FindMatch() returns (n: nat, rule: Rule)
      requires Valid() && pos < |text| && mode == Initial
      ensures 0 < n <= |text| - pos && (rule.RLineComment? ==> n > 1)
      ensures LexStep(libc, State()) == MatchBy(libc, State(), n, rule)
    {
      n := LongestMatch();
      StepIs(libc, State(), n);
      rule := RuleOf(text[pos..][..n], atBol).value;
    }

    /** One match outside strings and comments. */
    method LexPlain() returns (token: Option<Token>)
      requires Valid() && pos < |text| && mode == Initial
      modifies this
      ensures Valid() && Match(token, State()) == LexStep(libc, old(State()))
    {
      var n, rule := FindMatch();
      token := Accept(n, rule);
    }

    /** One match inside a comment. */
    method LexComment()
      requires Valid() && pos < |text| && mode == InComment
      modifies this
      ensures Valid() && Match(None, State()) == LexStep(libc, old(State()))
    {
      ghost var was := text[pos..];
      if |text| - pos > 1 && text[pos] == '*' && text[pos + 1] == '/' {
        assert was[..2] == "*/";
        Advance(2);
        mode := Initial;
        assert was[2..] == text[pos..];
      } else {
        assert |was| > 1 ==> was[..2][0] == text[pos] && was[..2][1] == text[pos + 1];
        Advance(1);
        assert was[1..] == text[pos..];
      }
    }

    /** One match inside a string. */
    method LexString() returns (token: Option<Token>)
      requires Valid() && pos < |text| && mode == InString
      modifies this
      ensures Valid() && Match(token, State()) == LexStep(libc, old(State()))
    {
      ghost var was := text[pos..];
      if text[pos] == '\"' {
        token := Some(TString(str));
        str := "";
        mode := Initial;
        Advance(1);
        assert was[1..] == text[pos..];
      } else {
        var n;
        if IsPlain(text[pos]) {
          n := PlainLength();
        } else {
          n := StringMatch(text[pos..]);
        }
        var word := text[pos..pos + n];
        assert word == was[..n];
        str := str + Unescape(word);
        token := None;
        Advance(n);
        assert was[n..] == text[pos..] && was[n - 1] == text[pos - 1];
      }
    }

    /** Matches until some rule returns a token; None stands for the end of the input. */
    method Yylex() returns (token: Option<Token>)
      requires Valid()
      modifies this
      ensures Valid() && Match(token, State()) == NextToken(libc, old(State()))
      ensures TokensOf(libc, old(State())) ==
              if token.None? then [] else [token.value] + TokensOf(libc, State())
    {
      token := None;
      while pos < |text| && token.None?
        invariant Valid()
        invariant token.Some? ==> Match(token, State()) == NextToken(libc, old(State()))
        invariant token.None? ==> NextToken(libc, State()) == NextToken(libc, old(State()))
        decreases |text| - pos
      {
        match mode
        case Initial => token := LexPlain();
        case InComment => LexComment();
        case InString => token := LexString();
      }
    }
  }
}
