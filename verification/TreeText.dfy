/** Trees survive printing and scanning: the tokens of a printed tree are those that its
    structure calls for. */
module TreeText {
  import opened Wrappers
  import opened Settings
  import opened ParseActions
  import opened Numerals
  import opened Lexemes
  import opened Floats
  import opened Scanning
  import opened Writer
  import opened ScanLemmas
  import opened ScalarText

  // ----- trees that can be written and read back -----

  /** A scalar in the range of its type, without NUL in a string; truth values are 0 or 1. */
  predicate GoodScalar(v: Value) {
    match v
    case IntV(i, _) => Int32(i)
    case Int64V(l, _) => Int64(l)
    case FloatV(_) => true
    case StringV(s) => '\0' !in s
    case BoolV(b) => b == 0 || b == 1
    case _ => false
  }

  /** A name that the library accepts and the scanner takes for a name. */
  predicate GoodName(name: string) { ValidName(name) && !IsBooleanWord(name) }

  predicate DistinctNames(list: seq<Setting>) {
    forall i, j | 0 <= i < j < |list| :: list[i].name != list[j].name
  }

  /** Elements of an array: nameless scalars of one type. */
  predicate GoodArray(list: seq<Setting>) {
    forall i | 0 <= i < |list| ::
      list[i].name.None? && GoodScalar(list[i].value) && SameType(list[0].value, list[i].value)
  }

  predicate GoodValue(v: Value) {
    match v
    case GroupV(list) =>
      && DistinctNames(list)
      && forall i | 0 <= i < |list| ::
           list[i].name.Some? && GoodName(list[i].name.value) && GoodValue(list[i].value)
    case ArrayV(list) => GoodArray(list)
    case ListV(list) => forall i | 0 <= i < |list| :: list[i].name.None? && GoodValue(list[i].value)
    case _ => GoodScalar(v)
  }

  // ----- the tokens of a tree -----

  function ScalarToken(v: Value): Token {
    match v
    case IntV(i, hex) => if hex then THex(i) else TInteger(i)
    case Int64V(l, hex) => if hex then THex64(l) else TInteger64(l)
    case FloatV(d) => TFloat(d)
    case StringV(s) => TString(s)
    case BoolV(b) => TBoolean(b)
    case _ => TError
  }

  /** The tokens of a scalar, given those of the doubles. */
  function ScalarTokens(float: Double -> seq<Token>, v: Value): seq<Token> {
    if v.FloatV? then float(v.fval) else [ScalarToken(v)]
  }

  /** The tokens that would stand for a double if printing lost nothing. */
  function Exactly(d: Double): seq<Token> { [TFloat(d)] }

  /** The tokens of a double's text: one for a number; the odd texts are a name and a number,
      with a stray sign or not. */
  function FloatTokens(libc: Libc, d: Double): seq<Token> {
    var w := FloatText(libc, d);
    if IsFloat(w) || |w| < 5 then [TFloat(libc.atof(w))]
    else
      (if w[0] == '-' then [TGarbage] else []) + [TName(w[|w| - 5..|w| - 2]), TFloat(libc.atof(".0"))]
  }

  function Printed(libc: Libc): Double -> seq<Token> { d => FloatTokens(libc, d) }

  function ValueTokens(float: Double -> seq<Token>, v: Value): seq<Token>
    decreases v, 1
  {
    match v
    case GroupV(list) => [TGroupStart] + MemberTokens(float, list) + [TGroupEnd]
    case ArrayV(list) => [TArrayStart] + ElemTokens(float, list) + [TArrayEnd]
    case ListV(list) => [TListStart] + ElemTokens(float, list) + [TListEnd]
    case _ => ScalarTokens(float, v)
  }

  function SettingValueTokens(float: Double -> seq<Token>, s: Setting): seq<Token>
    decreases s, 2
  {
    ValueTokens(float, s.value)
  }

  function ElemTokens(float: Double -> seq<Token>, list: seq<Setting>): seq<Token>
    decreases list, 0
  {
    if list == [] then []
    else
      SettingValueTokens(float, list[0]) + (if |list| > 1 then [TComma] else []) + ElemTokens(float, list[1..])
  }

  function SettingTokens(float: Double -> seq<Token>, s: Setting): seq<Token>
    requires s.name.Some?
    decreases s, 3
  {
    [TName(s.name.value), TEquals] + SettingValueTokens(float, s) + [TSemicolon]
  }

  function MemberTokens(float: Double -> seq<Token>, list: seq<Setting>): seq<Token>
    decreases list, 0
  {
    if list == [] then []
    else (if list[0].name.Some? then SettingTokens(float, list[0]) else []) + MemberTokens(float, list[1..])
  }

  // ----- scanning a printed tree -----

  /** The text goes on with something that ends a run of blanks and is no directive. */
  predicate Solid(text: string) { text != "" && !IsBlank(text[0]) && text[0] != '@' }

  lemma ScalarSolid(libc: Libc, v: Value)
    requires GoodScalar(v)
    ensures Solid(WriteScalar(libc, v))
  {
    match v
    case IntV(i, hex) => DecimalStart(i);
    case Int64V(l, hex) => DecimalStart(l);
    case FloatV(d) => FloatSolid(libc, d);
    case _ =>
  }

  lemma ValueSolid(libc: Libc, v: Value, depth: nat, width: nat)
    requires GoodValue(v) && depth > 0
    ensures Solid(WriteValue(libc, v, depth, width))
  {
    if !v.IsAggregate() {
      ScalarSolid(libc, v);
    }
  }

  lemma FloatSolid(libc: Libc, d: Double)
    ensures Solid(FloatText(libc, d))
  {
    FloatTextShape(libc, d);
    if IsFinite(libc, d) {
      FloatStart(FloatText(libc, d));
    }
  }

  lemma PrintedFloatScanned(libc: Libc, d: Double, rest: string, bol: bool)
    requires Delimited(rest)
    ensures Toks(libc, FloatText(libc, d) + rest, bol) == Printed(libc)(d) + Toks(libc, rest, false)
  {
    var w := FloatText(libc, d);
    FloatTextShape(libc, d);
    if IsFloat(w) {
      FloatScanned(libc, w, rest, bol);
    } else {
      OddTextScanned(libc, w, rest, bol);
    }
  }

  lemma OddParts(w: string, rest: string)
    requires IsOddText(w)
    ensures var name := w[|w| - 5..|w| - 2];
      && (name == "inf" || name == "nan") && IsAlpha(name[0])
      && w + rest == if w[0] == '-' then "-" + (name + (".0" + rest)) else name + (".0" + rest)
  {
    var name := w[|w| - 5..|w| - 2];
    assert name == [w[|w| - 5], w[|w| - 4], w[|w| - 3]];
    assert w == (if w[0] == '-' then "-" else "") + name + ".0";
  }

  lemma OddTextScanned(libc: Libc, w: string, rest: string, bol: bool)
    requires IsOddText(w) && Delimited(rest)
    ensures Toks(libc, w + rest, bol) ==
            (if w[0] == '-' then [TGarbage] else []) + [TName(w[|w| - 5..|w| - 2]), TFloat(libc.atof(".0"))]
            + Toks(libc, rest, false)
  {
    var name := w[|w| - 5..|w| - 2];
    OddParts(w, rest);
    OddWordScanned(libc, name, rest, w[0] != '-' && bol);
    if w[0] == '-' {
      MinusScanned(libc, name + (".0" + rest), bol);
      JoinTokens([TGarbage], [TName(name), TFloat(libc.atof(".0"))], Toks(libc, rest, false));
    } else {
      assert [] + [TName(name), TFloat(libc.atof(".0"))] == [TName(name), TFloat(libc.atof(".0"))];
    }
  }

  lemma ScalarScanned(libc: Libc, v: Value, rest: string, bol: bool)
    requires GoodScalar(v) && Delimited(rest)
    ensures Toks(libc, WriteScalar(libc, v) + rest, bol) == ScalarTokens(Printed(libc), v) + Toks(libc, rest, false)
  {
    match v
    case IntV(i, hex) => IntScanned(libc, i, hex, rest, bol);
    case Int64V(l, hex) => Int64Scanned(libc, l, hex, rest, bol);
    case FloatV(d) => PrintedFloatScanned(libc, d, rest, bol);
    case StringV(s) => StringScanned(libc, s, rest, bol);
    case BoolV(b) => BoolScanned(libc, b, rest, bol);
  }

  /** The token of a one-character rule. */
  function PunctToken(c: char): Token {
    if c == '=' || c == ':' then TEquals
    else if c == ',' then TComma
    else if c == '{' then TGroupStart
    else if c == '}' then TGroupEnd
    else if c == '[' then TArrayStart
    else if c == ']' then TArrayEnd
    else if c == '(' then TListStart
    else if c == ')' then TListEnd
    else TSemicolon
  }

  /** The signs whose rules come before the rules for words, and those that come after. */
  predicate EarlySign(c: char) { c == '=' || c == ':' || c == ',' || c == '{' || c == '}' }

  predicate LateSign(c: char) { c == '[' || c == ']' || c == '(' || c == ')' || c == ';' }

  lemma EarlySignRule(libc: Libc, c: char, bol: bool)
    requires EarlySign(c)
    ensures RuleOf([c], bol).Some? && TokenFor(libc, RuleOf([c], bol).value, [c]) == Some(PunctToken(c))
  {
    var w := [c];
    assert w[0] == c;
    assert !IsInclude(w) && !AllBlank(w);
  }

  lemma NoEarlySign(w: string, bol: bool)
    requires |w| == 1 && LateSign(w[0])
    ensures RuleOf(w, bol) == LateRuleOf(w)
  {
    NoWordRule(w, 0);
    assert !IsInclude(w) && !AllBlank(w);
  }

  /** The rule for each of the late signs. */
  function LateSignRuleOf(c: char): Rule {
    if c == '[' then RArrayStart
    else if c == ']' then RArrayEnd
    else if c == '(' then RListStart
    else if c == ')' then RListEnd
    else RSemicolon
  }

  lemma OnlySignRule(w: string)
    requires |w| == 1 && LateSign(w[0])
    ensures LateRuleOf(w) == Some(LateSignRuleOf(w[0]))
  {
    NoWordRule(w, 0);
  }

  lemma LateSignRule(libc: Libc, c: char, bol: bool)
    requires LateSign(c)
    ensures RuleOf([c], bol) == Some(LateSignRuleOf(c))
    ensures TokenFor(libc, LateSignRuleOf(c), [c]) == Some(PunctToken(c))
  {
    NoEarlySign([c], bol);
    OnlySignRule([c]);
  }

  lemma PunctScanned(libc: Libc, c: char, rest: string, bol: bool)
    requires Single(c) && c != '\n' && c != '\"'
    ensures Toks(libc, [c] + rest, bol) == [PunctToken(c)] + Toks(libc, rest, false)
  {
    if EarlySign(c) {
      EarlySignRule(libc, c, bol);
    } else {
      LateSignRule(libc, c, bol);
    }
    SingleScanned(libc, c, rest, bol);
  }

  lemma NewlineScanned(libc: Libc, rest: string, bol: bool)
    ensures Toks(libc, "\n" + rest, bol) == Toks(libc, rest, true)
  {
    SingleScanned(libc, '\n', rest, bol);
    assert !IsInclude("\n");
  }

  lemma BlankScanned(libc: Libc, rest: string, bol: bool)
    requires Solid(rest)
    ensures Toks(libc, " " + rest, bol) == Toks(libc, rest, false)
  {
    BlanksScanned(libc, " ", rest, bol);
  }

  lemma SpacesAreBlank(n: nat)
    requires n > 0
    ensures AllBlank(Spaces(n)) && AllBlank(Tabs(n))
  {
  }

  lemma IndentIsBlank(depth: nat, width: nat)
    requires depth > 1
    ensures AllBlank(Indent(depth, width))
  {
    if width > 0 {
      ProductPositive(depth - 1, width);
      SpacesAreBlank((depth - 1) * width);
    } else {
      SpacesAreBlank(depth - 1);
    }
  }

  lemma ProductPositive(a: nat, b: nat)
    requires a > 0 && b > 0
    ensures a * b > 0
  {
  }

  /** An indentation, or none, before solid text. */
  lemma IndentScanned(libc: Libc, depth: nat, width: nat, rest: string, bol: bool)
    requires Solid(rest)
    ensures Toks(libc, IndentFor(depth, width) + rest, bol) == Toks(libc, rest, depth <= 1 && bol)
  {
    if depth > 1 {
      IndentIsBlank(depth, width);
      BlanksScanned(libc, Indent(depth, width), rest, bol);
    } else {
      assert "" + rest == rest;
    }
  }

  // ----- the layout of aggregates -----

  function IndentFor(depth: nat, width: nat): string {
    if depth > 1 then Indent(depth, width) else ""
  }

  lemma SettingPieces(indent: string, name: string, sign: char, value: string, more: string)
    ensures indent + (name + [' ', sign, ' ']) + value + ";\n" + more ==
            indent + (name + (" " + ([sign] + (" " + (value + ([';'] + ("\n" + more)))))))
  {
    Regroup(indent + (name + [' ', sign, ' ']) + value, ";\n", more);
    Regroup(indent + (name + [' ', sign, ' ']), value, ";\n" + more);
    Regroup(indent, name + [' ', sign, ' '], value + (";\n" + more));
    Regroup(name, [' ', sign, ' '], value + (";\n" + more));
    assert ";\n" + more == [';'] + ("\n" + more);
    var tail := value + ([';'] + ("\n" + more));
    assert [' ', sign, ' '] + tail == " " + ([sign] + (" " + tail));
  }

  lemma SettingLayout(libc: Libc, name: string, v: Value, depth: nat, width: nat, more: string)
    requires depth > 0
    ensures WriteSetting(libc, Setting(Some(name), v), depth, width) + more ==
            IndentFor(depth, width) + (name + (" " + ([if v.GroupV? then ':' else '='] + (" " +
              (WriteValue(libc, v, depth, width) + ([';'] + ("\n" + more)))))))
  {
    var sign := if v.GroupV? then ':' else '=';
    assert [' ', sign, ' '] == if v.GroupV? then " : " else " = ";
    SettingPieces(IndentFor(depth, width), name, sign, WriteValue(libc, v, depth, width), more);
  }

  lemma GroupPieces(indent: string, body: string, rest: string)
    ensures ("\n" + indent + "{\n") + body + (indent + "}") + rest ==
            "\n" + (indent + (['{'] + ("\n" + (body + (indent + (['}'] + rest))))))
  {
    var tail := indent + (['}'] + rest);
    Regroup("\n" + indent + "{\n" + body, indent + "}", rest);
    Regroup(indent, "}", rest);
    assert ['}'] == "}";
    Regroup("\n" + indent + "{\n", body, tail);
    Regroup("\n" + indent, "{\n", body + tail);
    Regroup("\n", indent, "{\n" + (body + tail));
    assert "{\n" + (body + tail) == ['{'] + ("\n" + (body + tail));
  }

  lemma GroupLayout(libc: Libc, list: seq<Setting>, depth: nat, width: nat, rest: string)
    requires depth > 0
    ensures WriteValue(libc, GroupV(list), depth, width) + rest ==
            "\n" + (IndentFor(depth, width) + (['{'] + ("\n" +
              (WriteMembers(libc, list, depth, width) + (IndentFor(depth, width) + (['}'] + rest))))))
  {
    GroupPieces(IndentFor(depth, width), WriteMembers(libc, list, depth, width), rest);
  }

  lemma BracketLayout(open: char, body: string, close: char, rest: string)
    ensures [open, ' '] + body + [close] + rest == [open] + (" " + (body + ([close] + rest)))
  {
  }

  lemma ElemLayout(value: string, more: bool, others: string, rest: string)
    ensures value + (if more then ", " else " ") + others + rest ==
            value + (if more then [','] + (" " + (others + rest)) else " " + (others + rest))
  {
  }

  // ----- scanning aggregates -----

  lemma JoinBrackets(open: Token, body: seq<Token>, close: Token, rest: seq<Token>)
    ensures [open] + (body + ([close] + rest)) == [open] + body + [close] + rest
  {
  }

  lemma JoinSetting(name: Token, value: seq<Token>, rest: seq<Token>)
    ensures [name] + ([TEquals] + (value + ([TSemicolon] + rest))) ==
            [name, TEquals] + value + [TSemicolon] + rest
  {
  }

  lemma JoinTokens(a: seq<Token>, b: seq<Token>, c: seq<Token>)
    ensures a + (b + c) == a + b + c
  {
  }

  lemma {:induction false} ValueScanned(libc: Libc, v: Value, depth: nat, width: nat, rest: string, bol: bool)
    requires GoodValue(v) && depth > 0 && Delimited(rest)
    ensures Toks(libc, WriteValue(libc, v, depth, width) + rest, bol) ==
            ValueTokens(Printed(libc), v) + Toks(libc, rest, false)
    decreases v, 1
  {
    if v.ListV? {
      ListScanned(libc, v, v.list, depth, width, rest, bol);
    } else if v.ArrayV? {
      ArrayScanned(libc, v, v.list, depth, width, rest, bol);
    } else if v.GroupV? {
      GroupScanned(libc, v.list, depth, width, rest, bol);
    } else {
      ScalarValue(libc, v, depth, width);
      ScalarScanned(libc, v, rest, bol);
    }
  }

  lemma ScalarValue(libc: Libc, v: Value, depth: nat, width: nat)
    requires !v.IsAggregate()
    ensures WriteValue(libc, v, depth, width) == WriteScalar(libc, v)
            && ValueTokens(Printed(libc), v) == ScalarTokens(Printed(libc), v)
  {
  }

  lemma ListLayout(libc: Libc, list: seq<Setting>, depth: nat, width: nat)
    ensures WriteValue(libc, ListV(list), depth, width) ==
            ['(', ' '] + WriteElems(libc, list, depth, width) + [')']
    ensures ValueTokens(Printed(libc), ListV(list)) ==
            [PunctToken('(')] + ElemTokens(Printed(libc), list) + [PunctToken(')')]
  {
    assert ['(', ' '] == "( " && [')'] == ")";
  }

  lemma ArrayLayout(libc: Libc, list: seq<Setting>, depth: nat, width: nat)
    ensures WriteValue(libc, ArrayV(list), depth, width) ==
            ['[', ' '] + WriteElems(libc, list, depth, width) + [']']
    ensures ValueTokens(Printed(libc), ArrayV(list)) ==
            [PunctToken('[')] + ElemTokens(Printed(libc), list) + [PunctToken(']')]
  {
    assert ['[', ' '] == "[ " && [']'] == "]";
  }

  lemma {:induction false} ListScanned(libc: Libc, v: Value, list: seq<Setting>, depth: nat, width: nat,
                                       rest: string, bol: bool)
    requires v == ListV(list) && GoodValue(v) && Delimited(rest)
    ensures Toks(libc, WriteValue(libc, v, depth, width) + rest, bol) ==
            ValueTokens(Printed(libc), v) + Toks(libc, rest, false)
    decreases v, 0
  {
    BracketScanned(libc, '(', list, ')', depth, width, rest, bol);
    ListLayout(libc, list, depth, width);
  }

  lemma GoodElements(list: seq<Setting>, i: nat)
    requires GoodArray(list) && i < |list|
    ensures GoodValue(list[i].value)
  {
  }

  lemma {:induction false} ArrayScanned(libc: Libc, v: Value, list: seq<Setting>, depth: nat, width: nat,
                                        rest: string, bol: bool)
    requires v == ArrayV(list) && GoodArray(list) && Delimited(rest)
    ensures Toks(libc, WriteValue(libc, v, depth, width) + rest, bol) ==
            ValueTokens(Printed(libc), v) + Toks(libc, rest, false)
    decreases v, 0
  {
    forall i | 0 <= i < |list| ensures GoodValue(list[i].value) {
      GoodElements(list, i);
    }
    BracketScanned(libc, '[', list, ']', depth, width, rest, bol);
    ArrayLayout(libc, list, depth, width);
  }

  lemma {:induction false} ElemScanned(libc: Libc, s: Setting, depth: nat, width: nat, rest: string, bol: bool)
    requires GoodValue(s.value) && depth > 0 && Delimited(rest)
    ensures Toks(libc, WriteElem(libc, s, depth, width) + rest, bol) ==
            SettingValueTokens(Printed(libc), s) + Toks(libc, rest, false)
    decreases s, 2
  {
    ValueScanned(libc, s.value, depth, width, rest, bol);
  }

  lemma {:induction false} BracketScanned(libc: Libc, open: char, list: seq<Setting>, close: char,
                                          depth: nat, width: nat, rest: string, bol: bool)
    requires (open == '(' && close == ')') || (open == '[' && close == ']')
    requires forall i | 0 <= i < |list| :: GoodValue(list[i].value)
    ensures Toks(libc, [open, ' '] + WriteElems(libc, list, depth, width) + [close] + rest, bol) ==
            [PunctToken(open)] + ElemTokens(Printed(libc), list) + [PunctToken(close)] + Toks(libc, rest, false)
    decreases list, 1
  {
    var tail := [close] + rest;
    var body := WriteElems(libc, list, depth, width);
    BracketLayout(open, body, close, rest);
    PunctScanned(libc, open, " " + (body + tail), bol);
    ElemsSolid(libc, list, depth, width, tail);
    BlankScanned(libc, body + tail, false);
    ElemsScanned(libc, list, depth, width, tail);
    PunctScanned(libc, close, rest, false);
    JoinBrackets(PunctToken(open), ElemTokens(Printed(libc), list), PunctToken(close), Toks(libc, rest, false));
  }

  lemma ElemsSolid(libc: Libc, list: seq<Setting>, depth: nat, width: nat, rest: string)
    requires (forall i | 0 <= i < |list| :: GoodValue(list[i].value)) && Solid(rest)
    ensures Solid(WriteElems(libc, list, depth, width) + rest)
  {
    if list != [] {
      ValueSolid(libc, list[0].value, depth + 1, width);
    }
  }

  /** The separator after an element. */
  lemma SeparatorScanned(libc: Libc, more: bool, rest: string)
    requires Solid(rest)
    ensures var sep := if more then [','] + (" " + rest) else " " + rest;
            Delimited(sep) && Toks(libc, sep, false) == (if more then [TComma] else []) + Toks(libc, rest, false)
  {
    BlankScanned(libc, rest, false);
    if more {
      PunctScanned(libc, ',', " " + rest, false);
    }
  }

  lemma {:induction false} ElemsScanned(libc: Libc, list: seq<Setting>, depth: nat, width: nat, rest: string)
    requires (forall i | 0 <= i < |list| :: GoodValue(list[i].value)) && Solid(rest)
    ensures Toks(libc, WriteElems(libc, list, depth, width) + rest, false) ==
            ElemTokens(Printed(libc), list) + Toks(libc, rest, false)
    decreases list, 0
  {
    if list == [] {
      assert "" + rest == rest;
    } else {
      var more := |list| > 1;
      var others := WriteElems(libc, list[1..], depth, width);
      var sep := if more then [','] + (" " + (others + rest)) else " " + (others + rest);
      ElemLayout(WriteElem(libc, list[0], depth + 1, width), more, others, rest);
      ElemsSolid(libc, list[1..], depth, width, rest);
      SeparatorScanned(libc, more, others + rest);
      ElemScanned(libc, list[0], depth + 1, width, sep, false);
      ElemsScanned(libc, list[1..], depth, width, rest);
      var first, comma := SettingValueTokens(Printed(libc), list[0]), if more then [TComma] else [];
      JoinTokens(comma, ElemTokens(Printed(libc), list[1..]), Toks(libc, rest, false));
      JoinTokens(first, comma + ElemTokens(Printed(libc), list[1..]), Toks(libc, rest, false));
      JoinTokens(first, comma, ElemTokens(Printed(libc), list[1..]));
    }
  }

  /** From the value's first character to the brace, and from the last brace on. */
  lemma GroupFrame(libc: Libc, depth: nat, width: nat, body: string, rest: string, bol: bool)
    ensures Toks(libc, "\n" + (IndentFor(depth, width) + (['{'] + ("\n" + body))), bol) ==
            [TGroupStart] + Toks(libc, body, true)
    ensures Toks(libc, IndentFor(depth, width) + (['}'] + rest), true) ==
            [TGroupEnd] + Toks(libc, rest, false)
  {
    var inner := "\n" + body;
    NewlineScanned(libc, IndentFor(depth, width) + (['{'] + inner), bol);
    IndentScanned(libc, depth, width, ['{'] + inner, true);
    PunctScanned(libc, '{', inner, depth <= 1);
    NewlineScanned(libc, body, false);
    IndentScanned(libc, depth, width, ['}'] + rest, true);
    PunctScanned(libc, '}', rest, depth <= 1);
  }

  lemma {:induction false} GroupScanned(libc: Libc, list: seq<Setting>, depth: nat, width: nat, rest: string,
                                        bol: bool)
    requires GoodValue(GroupV(list)) && depth > 0
    ensures Toks(libc, WriteValue(libc, GroupV(list), depth, width) + rest, bol) ==
            ValueTokens(Printed(libc), GroupV(list)) + Toks(libc, rest, false)
    decreases list, 1
  {
    var tail := IndentFor(depth, width) + (['}'] + rest);
    GroupLayout(libc, list, depth, width, rest);
    GroupFrame(libc, depth, width, WriteMembers(libc, list, depth, width) + tail, rest, bol);
    MembersScanned(libc, list, depth, width, tail);
    JoinBrackets(TGroupStart, MemberTokens(Printed(libc), list), TGroupEnd, Toks(libc, rest, false));
  }

  lemma {:induction false} MembersScanned(libc: Libc, list: seq<Setting>, depth: nat, width: nat, rest: string)
    requires forall i | 0 <= i < |list| ::
               list[i].name.Some? && GoodName(list[i].name.value) && GoodValue(list[i].value)
    ensures Toks(libc, WriteMembers(libc, list, depth, width) + rest, true) ==
            MemberTokens(Printed(libc), list) + Toks(libc, rest, true)
    decreases list, 0
  {
    if list == [] {
      assert "" + rest == rest;
    } else {
      var more := WriteMembers(libc, list[1..], depth, width) + rest;
      Regroup(WriteSetting(libc, list[0], depth + 1, width), WriteMembers(libc, list[1..], depth, width), rest);
      SettingScanned(libc, list[0], depth + 1, width, more);
      MembersScanned(libc, list[1..], depth, width, rest);
      JoinTokens(SettingTokens(Printed(libc), list[0]), MemberTokens(Printed(libc), list[1..]), Toks(libc, rest, true));
    }
  }

  /** The name and the sign before a value. */
  lemma AssignScanned(libc: Libc, name: string, sign: char, depth: nat, width: nat, value: string)
    requires GoodName(name) && (sign == ':' || sign == '=') && Solid(value)
    ensures Toks(libc, IndentFor(depth, width) + (name + (" " + ([sign] + (" " + value)))), true) ==
            [TName(name)] + ([TEquals] + Toks(libc, value, false))
  {
    var assign := " " + ([sign] + (" " + value));
    IndentScanned(libc, depth, width, name + assign, true);
    NameScanned(libc, name, assign, depth <= 1);
    BlankScanned(libc, [sign] + (" " + value), false);
    PunctScanned(libc, sign, " " + value, false);
    BlankScanned(libc, value, false);
  }

  lemma {:induction false} SettingScanned(libc: Libc, s: Setting, depth: nat, width: nat, more: string)
    requires s.name.Some? && GoodName(s.name.value) && GoodValue(s.value) && depth > 0
    ensures Toks(libc, WriteSetting(libc, s, depth, width) + more, true) ==
            SettingTokens(Printed(libc), s) + Toks(libc, more, true)
    decreases s, 3
  {
    var sign := if s.value.GroupV? then ':' else '=';
    var end := [';'] + ("\n" + more);
    SettingLayout(libc, s.name.value, s.value, depth, width, more);
    ValueSolid(libc, s.value, depth, width);
    AssignScanned(libc, s.name.value, sign, depth, width, WriteValue(libc, s.value, depth, width) + end);
    ElemScanned(libc, s, depth, width, end, false);
    PunctScanned(libc, ';', "\n" + more, false);
    NewlineScanned(libc, more, false);
    JoinSetting(TName(s.name.value), SettingValueTokens(Printed(libc), s), Toks(libc, more, true));
  }
}
