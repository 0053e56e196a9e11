/** What `libconfig_yylex` computes: one match after another, until a rule returns a token. */
module Scanning {
  import opened Wrappers
  import opened Settings
  import opened ParseActions
  import opened Numerals
  import opened Lexemes
  import opened Floats

  /** The start conditions. */
  datatype Mode = Initial | InComment | InString

  /** The text still to be scanned, whether it is at the beginning of a line, the start
      condition, and the string collected so far. */
  datatype Scan = Scan(text: string, bol: bool, mode: Mode, buf: string)

  /** The outcome of one match: a token to return, if any, and the scanner afterwards. */
  datatype Match = Match(token: Option<Token>, scan: Scan)

  // ----- token values -----

  function Atoi(w: string): int { ToInt32(Clamp(SignedValue(w), -TWO63, TWO63 - 1)) }

  function Atoll(w: string): int { Clamp(SignedValue(DropSuffix(w)), -TWO63, TWO63 - 1) }

  /** strtoul in base 16, which saturates. */
  function HexValue(w: string): int {
    if |w| < 2 then 0 else Clamp(ValueOf(w[2..], 16), 0, TWO64 - 1)
  }

  /** The token that a rule of the INITIAL start condition returns for the text it matched. */
  function TokenFor(libc: Libc, rule: Rule, w: string): Option<Token> {
    match rule
    case RInclude => Some(TError)
    case REquals => Some(TEquals)
    case RComma => Some(TComma)
    case RGroupStart => Some(TGroupStart)
    case RGroupEnd => Some(TGroupEnd)
    case RTrue => Some(TBoolean(1))
    case RFalse => Some(TBoolean(0))
    case RName => Some(TName(w))
    case RFloat => Some(TFloat(libc.atof(w)))
    case RInteger => Some(TInteger(Atoi(w)))
    case RInteger64 => Some(TInteger64(Atoll(w)))
    case RHex => Some(THex(ToInt32(HexValue(w))))
    case RHex64 => Some(THex64(ToInt64(HexValue(DropSuffix(w)))))
    case RArrayStart => Some(TArrayStart)
    case RArrayEnd => Some(TArrayEnd)
    case RListStart => Some(TListStart)
    case RListEnd => Some(TListEnd)
    case RSemicolon => Some(TSemicolon)
    case RAny => Some(TGarbage)
    case _ => None
  }

  function ModeAfter(rule: Rule): Mode {
    match rule
    case RCommentStart => InComment
    case RQuote => InString
    case _ => Initial
  }

  // ----- strings -----

  predicate IsPlain(c: char) { c != '\"' && c != '\\' }

  /** The length of the longest run of characters that stand for themselves. */
  function PlainRun(s: string): (n: nat)
    ensures n <= |s| && (forall i | 0 <= i < n :: IsPlain(s[i]))
    ensures n < |s| ==> !IsPlain(s[n])
  {
    if s == "" || !IsPlain(s[0]) then 0 else 1 + PlainRun(s[1..])
  }

  /** A C string ends at its first NUL. */
  function CString(s: string): string {
    if s == "" || s[0] == '\0' then "" else [s[0]] + CString(s[1..])
  }

  /** The text of the longest match inside a string, which starts with `s[0]`. */
  function StringMatch(s: string): (n: nat)
    requires s != ""
    ensures 0 < n <= |s|
  {
    if IsPlain(s[0]) then PlainRun(s)
    else if s[0] == '\"' then 1
    else if |s| > 3 && (s[1] == 'x' || s[1] == 'X') && IsHexDigit(s[2]) && IsHexDigit(s[3]) then 4
    else if |s| > 1 && s[1] in "nrtf\\\"" then 2
    else 1
  }

  /** What a match inside a string appends to the string. */
  function Unescape(w: string): string
    requires w != ""
  {
    if IsPlain(w[0]) then CString(w)
    else if |w| == 4 then CString([(ValueOf(w[2..], 16) % 256) as char])
    else if |w| == 2 then
      match w[1]
      case 'n' => "\n"
      case 'r' => "\r"
      case 't' => "\t"
      case 'f' => [FORM_FEED]
      case c => [c]
    else "\\"
  }

  // ----- one match, one token, all tokens -----

  /** What a match of `n` characters by the given rule leads to. */
  function MatchBy(libc: Libc, s: Scan, n: nat, rule: Rule): Match
    requires 0 < n <= |s.text| && (rule.RLineComment? ==> n > 1)
  {
    // A line comment gives its newline back.
    var used := if rule.RLineComment? then n - 1 else n;
    Match(TokenFor(libc, rule, s.text[..n]),
          Scan(s.text[used..], s.text[used - 1] == '\n', ModeAfter(rule), s.buf))
  }

  lemma CommentIsLong(w: string, bol: bool)
    requires RuleOf(w, bol) == Some(RLineComment)
    ensures |w| > 1
  {
  }

  function InitialMatch(libc: Libc, s: Scan): (m: Match)
    requires s.text != ""
    ensures |m.scan.text| < |s.text|
  {
    SomethingMatches(s.text, s.bol);
    var n := Longest(s.text, s.bol, |s.text|);
    var w := s.text[..n];
    var rule := RuleOf(w, s.bol).value;
    assert rule.RLineComment? ==> n > 1 by { if rule.RLineComment? { CommentIsLong(w, s.bol); } }
    MatchBy(libc, s, n, rule)
  }

  function CommentMatch(s: Scan): (m: Match)
    requires s.text != ""
    ensures |m.scan.text| < |s.text|
  {
    if |s.text| > 1 && s.text[..2] == "*/" then
      Match(None, Scan(s.text[2..], false, Initial, s.buf))
    else Match(None, Scan(s.text[1..], s.text[0] == '\n', InComment, s.buf))
  }

  function StringStep(s: Scan): (m: Match)
    requires s.text != ""
    ensures |m.scan.text| < |s.text|
  {
    var n := StringMatch(s.text);
    var bol := s.text[n - 1] == '\n';
    if s.text[0] == '\"' then Match(Some(TString(s.buf)), Scan(s.text[1..], bol, Initial, ""))
    else Match(None, Scan(s.text[n..], bol, InString, s.buf + Unescape(s.text[..n])))
  }

  function LexStep(libc: Libc, s: Scan): (m: Match)
    requires s.text != ""
    ensures |m.scan.text| < |s.text|
  {
    match s.mode
    case Initial => InitialMatch(libc, s)
    case InComment => CommentMatch(s)
    case InString => StringStep(s)
  }

  /** One call of `libconfig_yylex`; no token at the end of the text. */
  function NextToken(libc: Libc, s: Scan): (m: Match)
    ensures m.token.Some? ==> |m.scan.text| < |s.text|
    decreases |s.text|
  {
    if s.text == "" then Match(None, s)
    else
      var m := LexStep(libc, s);
      if m.token.Some? then m else NextToken(libc, m.scan)
  }

  /** The tokens of the rest of the text. */
  function TokensOf(libc: Libc, s: Scan): seq<Token>
    decreases |s.text|
  {
    var m := NextToken(libc, s);
    if m.token.None? then [] else [m.token.value] + TokensOf(libc, m.scan)
  }

  /** The tokens of a whole text. */
  function Tokenize(libc: Libc, text: string): seq<Token> { TokensOf(libc, Scan(text, true, Initial, "")) }

  lemma TokensAfterStep(libc: Libc, s: Scan)
    requires s.text != ""
    ensures var m := LexStep(libc, s);
            TokensOf(libc, s) == (if m.token.Some? then [m.token.value] else []) + TokensOf(libc, m.scan)
  {
    if LexStep(libc, s).token.None? {
      assert NextToken(libc, s) == NextToken(libc, LexStep(libc, s).scan);
    }
  }
}
