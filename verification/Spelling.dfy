/** Parsing loses nothing, adds nothing and keeps the order: apart from separators and from how
    strings are cut into pieces, the tokens of the input spell the settings that are read. */
module Spelling {
  import opened Wrappers
  import opened Settings
  import opened ParseActions
  import opened GrammarTables
  import opened LrParser
  import opened Derivations
  import opened Meaning
  import opened TreeShapes
  import TreeEffects
  import opened ParserTheorems
  import opened StackNeeds

  /** Tokens that stand between others. */
  predicate IsSeparator(t: Token) { t.TComma? || t.TSemicolon? || t.TEquals? }

  /** The tokens without separators, and with adjacent strings joined. */
  function Squeeze(tokens: seq<Token>): (r: seq<Token>)
    ensures tokens != [] && tokens[0].TString? ==> r != [] && r[0].TString?
  {
    if tokens == [] then []
    else
      var rest := Squeeze(tokens[1..]);
      if IsSeparator(tokens[0]) then rest
      else if tokens[0].TString? && |tokens| > 1 && tokens[1].TString? then
        [TString(tokens[0].sval + rest[0].sval)] + rest[1..]
      else [tokens[0]] + rest
  }

  function SpellValue(v: Value): seq<Token> {
    match v
    case NoneV => []
    case IntV(i, hex) => [if hex then THex(i) else TInteger(i)]
    case Int64V(l, hex) => [if hex then THex64(l) else TInteger64(l)]
    case FloatV(d) => [TFloat(d)]
    case StringV(s) => [TString(s)]
    case BoolV(b) => [TBoolean(b)]
    case GroupV(list) => [TGroupStart] + SpellItems(list) + [TGroupEnd]
    case ArrayV(list) => [TArrayStart] + SpellItems(list) + [TArrayEnd]
    case ListV(list) => [TListStart] + SpellItems(list) + [TListEnd]
  }

  function SpellSetting(s: Setting): seq<Token> {
    (if s.name.Some? then [TName(s.name.value)] else []) + SpellValue(s.value)
  }

  function SpellItems(list: seq<Setting>): seq<Token> {
    if list == [] then [] else SpellSetting(list[0]) + SpellItems(list[1..])
  }

  // ----- squeezing and spelling piece by piece -----

  /** No string is cut between the two. */
  predicate Apart(a: seq<Token>, b: seq<Token>) {
    a == [] || b == [] || !a[|a| - 1].TString? || !b[0].TString?
  }

  lemma {:induction false} SqueezeConcat(a: seq<Token>, b: seq<Token>)
    requires Apart(a, b)
    ensures Squeeze(a + b) == Squeeze(a) + Squeeze(b)
  {
    if a == [] {
      assert a + b == b;
    } else {
      assert (a + b)[0] == a[0] && (a + b)[1..] == a[1..] + b;
      SqueezeConcat(a[1..], b);
      assert |a| > 1 ==> (a + b)[1] == a[1];
    }
  }

  lemma SqueezeAfter(t: Token, b: seq<Token>)
    requires !t.TString?
    ensures Squeeze([t] + b) == (if IsSeparator(t) then [] else [t]) + Squeeze(b)
  {
    assert ([t] + b)[1..] == b;
  }

  lemma SqueezeBefore(a: seq<Token>, t: Token)
    requires !t.TString?
    ensures Squeeze(a + [t]) == Squeeze(a) + if IsSeparator(t) then [] else [t]
  {
    SqueezeConcat(a, [t]);
    SqueezeAfter(t, []);
    assert [t] + [] == [t];
  }

  lemma {:induction false} SpellConcat(a: seq<Setting>, b: seq<Setting>)
    ensures SpellItems(a + b) == SpellItems(a) + SpellItems(b)
  {
    if a == [] {
      assert a + b == b;
    } else {
      assert (a + b)[1..] == a[1..] + b;
      SpellConcat(a[1..], b);
    }
  }

  lemma SpellOne(s: Setting)
    ensures SpellItems([s]) == SpellSetting(s)
  {
    assert [s][1..] == [];
  }

  // ----- yields -----

  lemma YieldOne(ts: seq<Tree>)
    requires |ts| == 1
    ensures YieldAll(ts) == Yield(ts[0])
  {
    assert ts[1..] == [];
  }

  lemma YieldTwo(ts: seq<Tree>)
    requires |ts| == 2
    ensures YieldAll(ts) == Yield(ts[0]) + Yield(ts[1])
  {
    YieldOne(ts[1..]);
  }

  lemma YieldThree(ts: seq<Tree>)
    requires |ts| == 3
    ensures YieldAll(ts) == Yield(ts[0]) + (Yield(ts[1]) + Yield(ts[2]))
  {
    YieldTwo(ts[1..]);
  }

  lemma YieldFour(ts: seq<Tree>)
    requires |ts| == 4
    ensures YieldAll(ts) == Yield(ts[0]) + (Yield(ts[1]) + (Yield(ts[2]) + Yield(ts[3])))
  {
    YieldThree(ts[1..]);
  }

  lemma YieldFive(ts: seq<Tree>)
    requires |ts| == 5
    ensures YieldAll(ts) == Yield(ts[0]) + (Yield(ts[1]) + (Yield(ts[2]) + (Yield(ts[3]) + Yield(ts[4]))))
  {
    YieldFour(ts[1..]);
  }

  // ----- every construct -----

  /** A string may come in pieces. */
  lemma {:induction false} PiecesSpell(t: Tree)
    requires Valid(t) && Sym(t) == 35
    ensures Yield(t) != [] && forall i | 0 <= i < |Yield(t)| :: Yield(t)[i].TString?
    ensures Squeeze(Yield(t)) == [TString(Text(t))]
    decreases t
  {
    StringShape(t);
    if t.rule == 21 {
      YieldOne(t.kids);
      TreeEffects.OneText(t.kids);
      assert Squeeze([t.kids[0].token]) == [t.kids[0].token];
    } else {
      YieldTwo(t.kids);
      PiecesSpell(t.kids[0]);
      OneMorePiece(Yield(t.kids[0]), Text(t.kids[0]), t.kids[1].token.sval);
      TreeEffects.TwoTexts(t.kids);
    }
  }

  lemma {:induction false} OneMorePiece(tokens: seq<Token>, text: string, more: string)
    requires tokens != [] && (forall i | 0 <= i < |tokens| :: tokens[i].TString?)
    requires Squeeze(tokens) == [TString(text)]
    ensures Squeeze(tokens + [TString(more)]) == [TString(text + more)]
  {
    var all := tokens + [TString(more)];
    assert all[1..] == tokens[1..] + [TString(more)] && all[0] == tokens[0] && all[1].TString?;
    var rest := tokens[1..];
    if rest == [] {
      assert all[1..] == [TString(more)];
      assert Squeeze([TString(more)]) == [TString(more)];
    } else {
      var tail := Squeeze(rest)[0].sval;
      assert Squeeze(tokens) == [TString(tokens[0].sval + tail)] + Squeeze(rest)[1..];
      assert Squeeze(rest) == [TString(tail)];
      OneMorePiece(rest, tail, more);
      assert tokens[0].sval + (tail + more) == tokens[0].sval + tail + more;
    }
  }

  lemma {:induction false} ValueSpells(t: Tree)
    requires Valid(t) && Sym(t) in {30, 32, 34, 36, 41}
    ensures Squeeze(Yield(t)) == SpellValue(Denote(t))
    decreases t
  {
    if Sym(t) == 34 {
      ValueShape(t);
      YieldOne(t.kids);
      ValueSpells(t.kids[0]);
    } else if Sym(t) == 36 {
      SimpleSpells(t);
    } else {
      BracketShape(t);
      ItemsSpell(t.kids[2]);
      BracketSpells(t);
    }
  }

  lemma SimpleSpells(t: Tree)
    requires Valid(t) && Sym(t) == 36
    ensures Squeeze(Yield(t)) == SpellValue(Denote(t))
  {
    SimpleShape(t);
    YieldOne(t.kids);
    if t.rule == 29 {
      PiecesSpell(t.kids[0]);
      TreeEffects.OneText(t.kids);
    } else {
      var token := t.kids[0].token;
      assert Code(token) == RhsAt(t.rule, 0);
      ScalarSpells(t.rule, token);
      assert Squeeze([token]) == [token] + Squeeze([]);
    }
  }

  lemma ScalarSpells(r: int, token: Token)
    requires 23 <= r <= 28 && Code(token) == RhsAt(r, 0)
    ensures SpellValue(TokenValue(token)) == [token] && !IsSeparator(token)
  {
    assert r == 23 || r == 24 || r == 25 || r == 26 || r == 27 || r == 28;
  }

  predicate IsBracket(t: Token) {
    t.TArrayStart? || t.TArrayEnd? || t.TListStart? || t.TListEnd? || t.TGroupStart? || t.TGroupEnd?
  }

  /** The kind of aggregate that a grammar symbol stands for. */
  function KindOf(x: int): Kind { if x == 30 then KArray else if x == 32 then KList else KGroup }

  function StartOf(kind: Kind): Token {
    match kind
    case KArray => TArrayStart
    case KList => TListStart
    case KGroup => TGroupStart
  }

  function EndOf(kind: Kind): Token {
    match kind
    case KArray => TArrayEnd
    case KList => TListEnd
    case KGroup => TGroupEnd
  }

  lemma SpellAggregate(kind: Kind, list: seq<Setting>)
    ensures SpellValue(Aggregate(kind, list)) == [StartOf(kind)] + SpellItems(list) + [EndOf(kind)]
  {
  }

  lemma BracketTokens(t: Tree)
    requires Valid(t) && Sym(t) in {30, 32, 41}
    ensures t.Node? && |t.kids| == 4 && t.kids[0].Leaf? && t.kids[3].Leaf?
    ensures t.kids[0].token == StartOf(KindOf(Sym(t))) && t.kids[3].token == EndOf(KindOf(Sym(t)))
  {
    BracketShape(t);
    assert Sym(t.kids[0]) == RhsAt(t.rule, 0) && Sym(t.kids[3]) == RhsAt(t.rule, 3);
  }

  lemma Enclosed(start: Token, middle: seq<Token>, end: Token)
    requires IsBracket(start) && IsBracket(end)
    ensures Squeeze([start] + (middle + [end])) == [start] + Squeeze(middle) + [end]
  {
    SqueezeAfter(start, middle + [end]);
    SqueezeBefore(middle, end);
  }

  lemma BracketYield(t: Tree)
    requires Valid(t) && Sym(t) in {30, 32, 41}
    ensures t.Node? && |t.kids| == 4 && t.kids[0].Leaf? && t.kids[3].Leaf?
    ensures IsBracket(t.kids[0].token) && IsBracket(t.kids[3].token)
    ensures Yield(t) == [t.kids[0].token] + (Yield(t.kids[2]) + [t.kids[3].token])
  {
    BracketShape(t);
    BracketTokens(t);
    YieldFour(t.kids);
    assert Yield(t.kids[1]) == [];
  }

  lemma DenotesAggregate(t: Tree)
    requires Valid(t) && Sym(t) in {30, 32, 41}
    ensures t.Node? && |t.kids| == 4
    ensures Denote(t) == Aggregate(KindOf(Sym(t)), Items(t.kids[2]))
  {
    BracketShape(t);
  }

  lemma BracketDenotes(t: Tree)
    requires Valid(t) && Sym(t) in {30, 32, 41}
    ensures t.Node? && |t.kids| == 4 && t.kids[0].Leaf? && t.kids[3].Leaf?
    ensures SpellValue(Denote(t)) == [t.kids[0].token] + SpellItems(Items(t.kids[2])) + [t.kids[3].token]
  {
    BracketTokens(t);
    DenotesAggregate(t);
    SpellAggregate(KindOf(Sym(t)), Items(t.kids[2]));
  }

  lemma BracketSpells(t: Tree)
    requires Valid(t) && Sym(t) in {30, 32, 41}
    requires t.Node? && |t.kids| == 4 && Squeeze(Yield(t.kids[2])) == SpellItems(Items(t.kids[2]))
    ensures Squeeze(Yield(t)) == SpellValue(Denote(t))
  {
    BracketYield(t);
    BracketDenotes(t);
    Enclosed(t.kids[0].token, Yield(t.kids[2]), t.kids[3].token);
  }

  lemma MemberYield(t: Tree)
    requires Valid(t) && Sym(t) == 28
    ensures t.Node? && |t.kids| == 5 && t.kids[0].Leaf? && t.kids[0].token.TName?
    ensures Valid(t.kids[3]) && Sym(t.kids[3]) == 34 && Valid(t.kids[4]) && Sym(t.kids[4]) == 27
    ensures Yield(t) == [t.kids[0].token] + ([TEquals] + (Yield(t.kids[3]) + Yield(t.kids[4])))
  {
    SettingShape(t);
    YieldFive(t.kids);
    assert Yield(t.kids[1]) == [] && Yield(t.kids[2]) == [TEquals];
  }

  lemma Assigned(name: Token, value: seq<Token>, end: seq<Token>)
    requires name.TName? && Squeeze(end) == [] && (end != [] ==> !end[0].TString?)
    ensures Squeeze([name] + ([TEquals] + (value + end))) == [name] + Squeeze(value)
  {
    SqueezeAfter(name, [TEquals] + (value + end));
    SqueezeAfter(TEquals, value + end);
    SqueezeConcat(value, end);
  }

  lemma MemberDenotes(t: Tree)
    requires Valid(t) && Sym(t) == 28
    ensures t.Node? && |t.kids| == 5 && t.kids[0].Leaf?
    ensures SpellSetting(Member(t)) == [t.kids[0].token] + SpellValue(Denote(t.kids[3]))
  {
    SettingShape(t);
  }

  lemma {:induction false} MemberSpells(t: Tree)
    requires Valid(t) && Sym(t) == 28
    ensures Squeeze(Yield(t)) == SpellSetting(Member(t)) && Yield(t) != [] && Yield(t)[0].TName?
    decreases t
  {
    MemberYield(t);
    MemberDenotes(t);
    ValueSpells(t.kids[3]);
    TerminatorSpells(t.kids[4]);
    Assigned(t.kids[0].token, Yield(t.kids[3]), Yield(t.kids[4]));
  }

  lemma TerminatorSpells(t: Tree)
    requires Valid(t) && Sym(t) == 27
    ensures Squeeze(Yield(t)) == [] && (Yield(t) != [] ==> !Yield(t)[0].TString?)
  {
    TerminatorShape(t);
    if t.kids != [] {
      YieldOne(t.kids);
      assert Sym(t.kids[0]) == RhsAt(t.rule, 0);
      var token := t.kids[0].token;
      assert IsSeparator(token);
      SqueezeAfter(token, []);
      assert [token] + [] == [token];
    }
  }

  /** A list of settings or values, empty or not. */
  lemma {:induction false} ItemsSpell(t: Tree)
    requires Valid(t) && Sym(t) in {24, 25, 26, 37, 38, 39, 40}
    ensures Squeeze(Yield(t)) == SpellItems(Items(t))
    decreases t
  {
    if IsOptional(Sym(t)) {
      OptionalShape(t);
      if t.kids != [] {
        YieldOne(t.kids);
        ItemsSpell(t.kids[0]);
      }
    } else {
      ListShape(t);
      if |t.kids| == 1 {
        YieldOne(t.kids);
        LastSpells(t);
      } else {
        ItemsSpell(t.kids[0]);
        LastSpells(t);
        MoreSpells(t);
      }
    }
  }

  /** The last item of a list. */
  function LastItem(t: Tree): Setting
    requires t.Node? && t.kids != []
  {
    var k := t.kids[|t.kids| - 1];
    if Sym(t) == 25 then Member(k) else Setting(None, Denote(k))
  }

  lemma {:induction false} LastSpells(t: Tree)
    requires Valid(t) && Sym(t) in {25, 37, 39}
    ensures t.Node? && t.kids != []
    ensures var k := t.kids[|t.kids| - 1];
            Squeeze(Yield(k)) == SpellSetting(LastItem(t)) == SpellItems([LastItem(t)])
            && (Sym(t) == 25 ==> Yield(k) != [] && Yield(k)[0].TName?)
    decreases t, 0
  {
    ListShape(t);
    var k := t.kids[|t.kids| - 1];
    SpellOne(LastItem(t));
    if Sym(t) == 25 {
      MemberSpells(k);
    } else {
      ValueSpells(k);
    }
  }

  lemma MoreSpells(t: Tree)
    requires Valid(t) && Sym(t) in {25, 37, 39} && t.Node? && |t.kids| > 1
    requires Squeeze(Yield(t.kids[0])) == SpellItems(Items(t.kids[0]))
    requires var k := t.kids[|t.kids| - 1];
             Squeeze(Yield(k)) == SpellItems([LastItem(t)]) && (Sym(t) == 25 ==> Yield(k) != [] && Yield(k)[0].TName?)
    ensures Squeeze(Yield(t)) == SpellItems(Items(t))
  {
    ListShape(t);
    SpellConcat(Items(t.kids[0]), [LastItem(t)]);
    if Sym(t) == 25 {
      YieldTwo(t.kids);
      SqueezeConcat(Yield(t.kids[0]), Yield(t.kids[1]));
    } else {
      YieldThree(t.kids);
      SqueezeConcat(Yield(t.kids[0]), [TComma] + Yield(t.kids[2]));
      SqueezeAfter(TComma, Yield(t.kids[2]));
    }
  }

  // ----- the spelling tells the settings -----

  /** Everything has a value, members of groups have names and elements have none. */
  predicate Whole(v: Value)
    decreases v, 0
  {
    match v
    case NoneV => false
    case GroupV(list) => WholeItems(list, true)
    case ArrayV(list) => WholeItems(list, false)
    case ListV(list) => WholeItems(list, false)
    case _ => true
  }

  predicate WholeItems(list: seq<Setting>, named: bool)
    decreases list, 0
  {
    list == [] || (WholeSetting(list[0], named) && WholeItems(list[1..], named))
  }

  predicate WholeSetting(s: Setting, named: bool)
    decreases s, 0
  {
    s.name.Some? == named && Whole(s.value)
  }

  predicate IsEnd(t: Token) { t.TArrayEnd? || t.TListEnd? || t.TGroupEnd? }

  lemma FirstOfValue(v: Value)
    requires Whole(v)
    ensures SpellValue(v) != [] && !IsEnd(SpellValue(v)[0])
  {
  }

  lemma {:induction false} ValueIsSpelled(v: Value, w: Value, r: seq<Token>, q: seq<Token>)
    requires Whole(v) && Whole(w) && SpellValue(v) + r == SpellValue(w) + q
    ensures v == w && r == q
    decreases v
  {
    FirstOfValue(v);
    FirstOfValue(w);
    assert SpellValue(v)[0] == (SpellValue(v) + r)[0] == SpellValue(w)[0];
    if v.IsAggregate() {
      assert w.IsAggregate();
      var start, end := SpellValue(v)[0], SpellValue(v)[|SpellValue(v)| - 1];
      Opened(start, SpellItems(v.list), end, r);
      Opened(start, SpellItems(w.list), end, q);
      ItemsAreSpelled(v.list, w.list, v.GroupV?, [end] + r, [end] + q);
      assert ([end] + r)[1..] == r && ([end] + q)[1..] == q;
    } else {
      assert (SpellValue(v) + r)[1..] == r && (SpellValue(w) + q)[1..] == q;
    }
  }

  lemma Opened(start: Token, middle: seq<Token>, end: Token, r: seq<Token>)
    ensures ([start] + middle + [end] + r)[1..] == middle + ([end] + r)
  {
  }

  lemma {:induction false} ItemsAreSpelled(a: seq<Setting>, b: seq<Setting>, named: bool, r: seq<Token>, q: seq<Token>)
    requires WholeItems(a, named) && WholeItems(b, named) && SpellItems(a) + r == SpellItems(b) + q
    requires (r == [] || IsEnd(r[0])) && (q == [] || IsEnd(q[0]))
    ensures a == b && r == q
    decreases a
  {
    FirstOfItems(a, named, r);
    FirstOfItems(b, named, q);
    if a == [] || b == [] {
      assert a == b == [] && [] + r == r && [] + q == q;
    } else {
      Regroup(a[0], a[1..], r);
      Regroup(b[0], b[1..], q);
      SettingIsSpelled(a[0], b[0], named, SpellItems(a[1..]) + r, SpellItems(b[1..]) + q);
      ItemsAreSpelled(a[1..], b[1..], named, r, q);
      assert a == [a[0]] + a[1..] && b == [b[0]] + b[1..];
    }
  }

  lemma {:induction false} SettingIsSpelled(s: Setting, u: Setting, named: bool, r: seq<Token>, q: seq<Token>)
    requires WholeSetting(s, named) && WholeSetting(u, named) && SpellSetting(s) + r == SpellSetting(u) + q
    ensures s == u && r == q
    decreases s
  {
    Unnamed(s, r);
    Unnamed(u, q);
    ValueIsSpelled(s.value, u.value, r, q);
  }

  lemma Regroup(s: Setting, rest: seq<Setting>, r: seq<Token>)
    ensures SpellSetting(s) + SpellItems(rest) + r == SpellSetting(s) + (SpellItems(rest) + r)
  {
  }

  lemma Unnamed(s: Setting, r: seq<Token>)
    ensures s.name.Some? ==> (SpellSetting(s) + r)[0] == TName(s.name.value)
    ensures s.name.Some? ==> (SpellSetting(s) + r)[1..] == SpellValue(s.value) + r
    ensures s.name.None? ==> SpellSetting(s) == SpellValue(s.value)
  {
  }

  /** Where there are more items the next token is not one that ends them. */
  lemma FirstOfItems(list: seq<Setting>, named: bool, r: seq<Token>)
    requires WholeItems(list, named) && (r == [] || IsEnd(r[0]))
    ensures var all := SpellItems(list) + r; list == [] <==> all == [] || IsEnd(all[0])
  {
    if list != [] {
      FirstOfValue(list[0].value);
    }
  }

  lemma {:induction false} WholeConcat(a: seq<Setting>, b: seq<Setting>, named: bool)
    requires WholeItems(a, named) && WholeItems(b, named)
    ensures WholeItems(a + b, named)
  {
    if a == [] {
      assert a + b == b;
    } else {
      assert (a + b)[0] == a[0] && (a + b)[1..] == a[1..] + b;
      WholeConcat(a[1..], b, named);
    }
  }

  lemma {:induction false} ValueIsWhole(t: Tree)
    requires Valid(t) && Sym(t) in {30, 32, 34, 36, 41}
    ensures Whole(Denote(t))
    decreases t
  {
    if Sym(t) == 34 {
      ValueShape(t);
      ValueIsWhole(t.kids[0]);
    } else if Sym(t) == 36 {
      SimpleShape(t);
      if t.rule != 29 {
        assert Sym(t.kids[0]) == RhsAt(t.rule, 0);
        ScalarSpells(t.rule, t.kids[0].token);
        assert Denote(t) == TokenValue(t.kids[0].token);
      }
    } else {
      BracketShape(t);
      ItemsAreWhole(t.kids[2]);
    }
  }

  lemma {:induction false} LastIsWhole(t: Tree)
    requires Valid(t) && Sym(t) in {25, 37, 39}
    ensures t.Node? && t.kids != [] && WholeItems([LastItem(t)], Sym(t) == 25)
    decreases t, 0
  {
    ListShape(t);
    var k := t.kids[|t.kids| - 1];
    if Sym(t) == 25 {
      SettingShape(k);
      ValueIsWhole(k.kids[3]);
    } else {
      ValueIsWhole(k);
    }
    assert [LastItem(t)][1..] == [];
  }

  lemma {:induction false} ItemsAreWhole(t: Tree)
    requires Valid(t) && Sym(t) in {24, 25, 26, 37, 38, 39, 40}
    ensures WholeItems(Items(t), Sym(t) in {24, 25, 26})
    decreases t
  {
    if IsOptional(Sym(t)) {
      OptionalShape(t);
      if t.kids != [] {
        ItemsAreWhole(t.kids[0]);
      }
    } else {
      ListShape(t);
      LastIsWhole(t);
      if |t.kids| > 1 {
        ItemsAreWhole(t.kids[0]);
        WholeConcat(Items(t.kids[0]), [LastItem(t)], Sym(t) == 25);
      }
    }
  }

  // ----- what the parser reads -----

  /** Whatever the parser accepts, the tokens spell the settings it has read. */
  lemma TokensSpellSettings(tokens: seq<Token>)
    requires Parse(tokens).Accepted?
    ensures var spine := Parse(tokens).ctx.spine;
            |spine| == 1 && spine[0].kind == KGroup && Squeeze(tokens) == SpellItems(spine[0].done)
  {
    var t := ParserIsSound(tokens);
    AcceptedIffLegal(t, tokens);
    ItemsSpell(t);
  }

  /** Two inputs that are accepted are read as the same settings exactly if they are the same
      apart from separators and from how strings are cut into pieces. */
  lemma SameMeaning(tokens: seq<Token>, others: seq<Token>)
    requires Parse(tokens).Accepted? && Parse(others).Accepted?
    ensures Parse(tokens).ctx.spine == Parse(others).ctx.spine <==> Squeeze(tokens) == Squeeze(others)
  {
    var t := ParserIsSound(tokens);
    var u := ParserIsSound(others);
    AcceptedIffLegal(t, tokens);
    AcceptedIffLegal(u, others);
    ItemsSpell(t);
    ItemsSpell(u);
    ItemsAreWhole(t);
    ItemsAreWhole(u);
    if SpellItems(Items(t)) == SpellItems(Items(u)) {
      ItemsAreSpelled(Items(t), Items(u), true, [], []);
    }
  }
}
