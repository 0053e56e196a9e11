/** The patterns of the scanner, one predicate each, and the choice of the longest match. */
module Lexemes {
  import opened Wrappers
  import opened Settings
  import opened Numerals

  /** The rules of the INITIAL start condition in order of precedence. */
  datatype Rule =
    | RCommentStart | RQuote | RInclude | RNewline | RBlank | REquals | RComma
    | RGroupStart | RGroupEnd | RTrue | RFalse | RName | RFloat | RInteger | RInteger64
    | RHex | RHex64 | RArrayStart | RArrayEnd | RListStart | RListEnd | RSemicolon
    | RLineComment | RAny

  const FORM_FEED: char := '\U{0C}'

  predicate IsBlank(c: char) { c == ' ' || c == '\t' }

  predicate IsHexDigit(c: char) { IsDigit(c) || 'a' <= c <= 'f' || 'A' <= c <= 'F' }

  predicate AllBlank(w: string) { w != "" && forall i | 0 <= i < |w| :: IsBlank(w[i]) }

  function Lower(c: char): char { if 'A' <= c <= 'Z' then c - 'A' + 'a' else c }

  predicate IsTrue(w: string) {
    |w| == 4 && Lower(w[0]) == 't' && Lower(w[1]) == 'r' && Lower(w[2]) == 'u' && Lower(w[3]) == 'e'
  }

  predicate IsFalse(w: string) {
    |w| == 5 && Lower(w[0]) == 'f' && Lower(w[1]) == 'a' && Lower(w[2]) == 'l'
    && Lower(w[3]) == 's' && Lower(w[4]) == 'e'
  }

  /** Names that the scanner takes for truth values. */
  predicate IsBooleanWord(w: string) { IsTrue(w) || IsFalse(w) }

  predicate IsInteger(w: string) { AllDigits(DropSign(w), 10) }

  /** Some digits with a decimal point among them. */
  predicate HasPoint(w: string) {
    exists i | 0 <= i < |w| ::
      w[i] == '.' && forall j | 0 <= j < |w| && j != i :: IsDigit(w[j])
  }

  /** Position `i` separates a mantissa from an exponent. */
  predicate ExponentAt(u: string, i: nat) {
    && i < |u| && (u[i] == 'e' || u[i] == 'E')
    && (HasPoint(u[..i]) || AllDigits(u[..i], 10)) && IsInteger(u[i + 1..])
  }

  predicate IsFloat(w: string) {
    var u := DropSign(w);
    HasPoint(u) || exists i | 0 <= i < |u| :: ExponentAt(u, i)
  }

  /** The text without a suffix L or LL. */
  function DropSuffix(w: string): string {
    if |w| > 1 && w[|w| - 1] == 'L' then
      if |w| > 2 && w[|w| - 2] == 'L' then w[..|w| - 2] else w[..|w| - 1]
    else w
  }

  predicate IsInteger64(w: string) { DropSuffix(w) != w && IsInteger(DropSuffix(w)) }

  predicate IsHex(w: string) {
    |w| > 2 && w[0] == '0' && (w[1] == 'x' || w[1] == 'X') && AllDigits(w[2..], 16)
  }

  predicate IsHex64(w: string) { DropSuffix(w) != w && IsHex(DropSuffix(w)) }

  /** The word `@include` stands at position `i`, with blanks around it and then a quote. */
  predicate IncludeAt(w: string, i: nat) {
    && i + 10 <= |w| && w[i] == '@' && w[i..i + 8] == "@include"
    && (forall j | 0 <= j < i :: IsBlank(w[j]))
    && AllBlank(w[i + 8..|w| - 1]) && w[|w| - 1] == '\"'
  }

  /** The opening of an include directive; matched only at the start of a line. */
  predicate IsInclude(w: string) { exists i | 0 <= i < |w| :: IncludeAt(w, i) }

  /** A comment to the end of the line, with the newline that ends it. */
  predicate IsLineComment(w: string) {
    && |w| > 1 && (w[0] == '#' || (|w| > 2 && w[0] == '/' && w[1] == '/'))
    && w[|w| - 1] == '\n' && forall i | 0 <= i < |w| - 1 :: w[i] != '\n'
  }

  /** The first rule that matches all of `w`. */
  function RuleOf(w: string, bol: bool): Option<Rule> {
    if w == "/*" then Some(RCommentStart)
    else if w == "\"" then Some(RQuote)
    else if bol && IsInclude(w) then Some(RInclude)
    else if w == "\n" || w == "\r" || w == [FORM_FEED] then Some(RNewline)
    else if AllBlank(w) then Some(RBlank)
    else if w == "=" || w == ":" then Some(REquals)
    else if w == "," then Some(RComma)
    else if w == "{" then Some(RGroupStart)
    else if w == "}" then Some(RGroupEnd)
    else if IsTrue(w) then Some(RTrue)
    else if IsFalse(w) then Some(RFalse)
    else if ValidName(w) then Some(RName)
    else LateRuleOf(w)
  }

  /** The same among the rules after that for names. */
  function LateRuleOf(w: string): Option<Rule> {
    if IsFloat(w) then Some(RFloat)
    else if IsInteger(w) then Some(RInteger)
    else if IsInteger64(w) then Some(RInteger64)
    else if IsHex(w) then Some(RHex)
    else if IsHex64(w) then Some(RHex64)
    else if w == "[" then Some(RArrayStart)
    else if w == "]" then Some(RArrayEnd)
    else if w == "(" then Some(RListStart)
    else if w == ")" then Some(RListEnd)
    else if w == ";" then Some(RSemicolon)
    else if IsLineComment(w) then Some(RLineComment)
    else if |w| == 1 then Some(RAny)
    else None
  }

  /** The longest prefix of at most `n` characters that some rule matches. */
  function Longest(s: string, bol: bool, n: nat): (m: nat)
    requires n <= |s|
    ensures m <= n
    ensures m > 0 ==> RuleOf(s[..m], bol).Some?
    ensures forall k | m < k <= n :: RuleOf(s[..k], bol).None?
  {
    if n == 0 || RuleOf(s[..n], bol).Some? then n else Longest(s, bol, n - 1)
  }

  /** Every character is matched by some rule. */
  lemma SomethingMatches(s: string, bol: bool)
    requires s != ""
    ensures Longest(s, bol, |s|) > 0
  {
    assert s[..1] == [s[0]];
    assert RuleOf(s[..1], bol).Some?;
  }
}
