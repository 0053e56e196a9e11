/** The derivation of the tokens that a tree of settings is printed as. */
module CanonicalTrees {
  import opened Wrappers
  import opened Settings
  import opened ParseActions
  import opened GrammarTables
  import opened Derivations
  import opened Meaning
  import opened TreeShapes
  import opened TreeEffects
  import opened StackNeeds
  import opened TreeText
  import opened ReadTrees

  function ScalarTree(v: Value): Tree {
    match v
    case BoolV(b) => Node(23, [Leaf(TBoolean(b))])
    case IntV(i, hex) => if hex then Node(26, [Leaf(THex(i))]) else Node(24, [Leaf(TInteger(i))])
    case Int64V(l, hex) =>
      if hex then Node(27, [Leaf(THex64(l))]) else Node(25, [Leaf(TInteger64(l))])
    case FloatV(f) => Node(28, [Leaf(TFloat(f))])
    case StringV(s) => Node(29, [Node(21, [Leaf(TString(s))])])
    case _ => Leaf(TError)
  }

  function OpenToken(kind: Kind): Token {
    match kind case KGroup => TGroupStart case KArray => TArrayStart case KList => TListStart
  }

  function CloseToken(kind: Kind): Token {
    match kind case KGroup => TGroupEnd case KArray => TArrayEnd case KList => TListEnd
  }

  function UnitRule(kind: Kind): int {
    match kind case KGroup => 20 case KArray => 18 case KList => 19
  }

  function BracketTree(kind: Kind, items: Tree): Tree {
    Node(UnitRule(kind), [Node(BracketRule(kind), [
      Leaf(OpenToken(kind)), Node(MarkerRule(kind), []), items, Leaf(CloseToken(kind))])])
  }

  function ValueTree(v: Value): Tree
    decreases v, 1
  {
    match v
    case GroupV(list) => BracketTree(KGroup, ItemsTree(KGroup, list))
    case ArrayV(list) => BracketTree(KArray, ItemsTree(KArray, list))
    case ListV(list) => BracketTree(KList, ItemsTree(KList, list))
    case _ => Node(17, [ScalarTree(v)])
  }

  function MemberTree(name: string, value: Tree): Tree {
    Node(12, [Leaf(TName(name)), Node(11, []), Leaf(TEquals), value, Node(9, [Leaf(TSemicolon)])])
  }

  function ItemTree(kind: Kind, s: Setting): Tree
    decreases s, 2
  {
    match kind
    case KGroup => MemberTree(if s.name.Some? then s.name.value else "", ValueTree(s.value))
    case KArray => ScalarTree(s.value)
    case KList => ValueTree(s.value)
  }

  function FirstRule(kind: Kind): int {
    match kind case KGroup => 4 case KArray => 34 case KList => 30
  }

  /** A list with one more item. */
  function SnocTree(kind: Kind, list: Tree, item: Tree): Tree {
    match kind
    case KGroup => Node(5, [list, item])
    case KArray => Node(35, [list, Leaf(TComma), item])
    case KList => Node(31, [list, Leaf(TComma), item])
  }

  function ListTree(kind: Kind, list: seq<Setting>): Tree
    requires list != []
    decreases list, 0
  {
    if |list| == 1 then Node(FirstRule(kind), [ItemTree(kind, list[0])])
    else SnocTree(kind, ListTree(kind, list[..|list| - 1]), ItemTree(kind, list[|list| - 1]))
  }

  function ItemsRule(kind: Kind): int {
    match kind case KGroup => 7 case KArray => 37 case KList => 33
  }

  function ItemsTree(kind: Kind, list: seq<Setting>): Tree
    decreases list, 1
  {
    if list == [] then Node(match kind case KGroup => 6 case KArray => 36 case KList => 32, [])
    else Node(ItemsRule(kind), [ListTree(kind, list)])
  }

  // ----- symbols, yields and heights of nodes -----

  predicate Fits(t: Tree, x: int, tokens: seq<Token>, need: nat) {
    Valid(t) && Sym(t) == x && Yield(t) == tokens && Height(t) == need
  }

  lemma Leaves1(ts: seq<Tree>)
    requires |ts| == 1
    ensures YieldAll(ts) == Yield(ts[0]) && HeightAll(ts) == Max(Height(ts[0]), 1)
  {
    assert YieldAll(ts[1..]) == [] && HeightAll(ts[1..]) == 0;
    assert Yield(ts[0]) + [] == Yield(ts[0]);
  }

  lemma Leaves2(ts: seq<Tree>)
    requires |ts| == 2
    ensures YieldAll(ts) == Yield(ts[0]) + Yield(ts[1])
    ensures HeightAll(ts) == Max(Height(ts[0]), 1 + Max(Height(ts[1]), 1))
  {
    Leaves1(ts[1..]);
  }

  lemma Leaves3(ts: seq<Tree>)
    requires |ts| == 3
    ensures YieldAll(ts) == Yield(ts[0]) + (Yield(ts[1]) + Yield(ts[2]))
    ensures HeightAll(ts) ==
            Max(Height(ts[0]), 1 + Max(Height(ts[1]), 1 + Max(Height(ts[2]), 1)))
  {
    Leaves2(ts[1..]);
  }

  lemma Leaves4(ts: seq<Tree>)
    requires |ts| == 4
    ensures YieldAll(ts) == Yield(ts[0]) + (Yield(ts[1]) + (Yield(ts[2]) + Yield(ts[3])))
    ensures HeightAll(ts) ==
            Max(Height(ts[0]), 1 + Max(Height(ts[1]), 1 + Max(Height(ts[2]), 1 +
              Max(Height(ts[3]), 1))))
  {
    Leaves3(ts[1..]);
  }

  lemma Leaves5(ts: seq<Tree>)
    requires |ts| == 5
    ensures YieldAll(ts) ==
            Yield(ts[0]) + (Yield(ts[1]) + (Yield(ts[2]) + (Yield(ts[3]) + Yield(ts[4]))))
    ensures HeightAll(ts) ==
            Max(Height(ts[0]), 1 + Max(Height(ts[1]), 1 + Max(Height(ts[2]), 1 +
              Max(Height(ts[3]), 1 + Max(Height(ts[4]), 1)))))
  {
    Leaves4(ts[1..]);
  }

  lemma UnitNode(r: int, t: Tree, x: int, tokens: seq<Token>, need: nat)
    requires 1 < r <= NRULES && R2(r) == 1 && RhsAt(r, 0) == x && Fits(t, x, tokens, need)
    ensures need >= 1 ==> Fits(Node(r, [t]), R1(r), tokens, need)
  {
    Leaves1([t]);
  }

  // ----- scalars -----

  lemma ScalarNode(r: int, token: Token)
    requires 23 <= r <= 28 && Code(token) == RhsAt(r, 0)
    ensures Fits(Node(r, [Leaf(token)]), 36, [token], 1)
    ensures Denote(Node(r, [Leaf(token)])) == TokenValue(token)
  {
    assert R2(r) == 1 && R1(r) == 36;
    UnitNode(r, Leaf(token), Code(token), [token], 1);
    assert Denote(Leaf(token)) == TokenValue(token);
  }

  lemma StringNode(s: string)
    ensures Fits(ScalarTree(StringV(s)), 36, [TString(s)], 1)
    ensures Denote(ScalarTree(StringV(s))) == StringV(s)
  {
    var leaf := Leaf(TString(s));
    UnitNode(21, leaf, 9, [TString(s)], 1);
    UnitNode(29, Node(21, [leaf]), 35, [TString(s)], 1);
    OneText([leaf]);
    OneText([Node(21, [leaf])]);
  }

  lemma ScalarFits(v: Value)
    requires GoodScalar(v)
    ensures Fits(ScalarTree(v), 36, [TreeText.ScalarToken(v)], 1) && Denote(ScalarTree(v)) == v
  {
    match v
    case BoolV(b) => ScalarNode(23, TBoolean(b));
    case IntV(i, hex) => ScalarNode(if hex then 26 else 24, if hex then THex(i) else TInteger(i));
    case Int64V(l, hex) =>
      ScalarNode(if hex then 27 else 25, if hex then THex64(l) else TInteger64(l));
    case FloatV(f) => ScalarNode(28, TFloat(f));
    case StringV(s) => StringNode(s);
  }

  // ----- aggregates -----

  function ItemsSym(kind: Kind): int { match kind case KGroup => 26 case KArray => 40 case KList => 38 }

  function ListSym(kind: Kind): int { match kind case KGroup => 25 case KArray => 39 case KList => 37 }

  function ItemSym(kind: Kind): int { match kind case KGroup => 28 case KArray => 36 case KList => 34 }

  function BracketSym(kind: Kind): int { match kind case KGroup => 41 case KArray => 30 case KList => 32 }

  lemma Valid3(r: int, a: Tree, b: Tree, c: Tree)
    requires 1 < r <= NRULES && R2(r) == 3 && Valid(a) && Valid(b) && Valid(c)
    requires Sym(a) == RhsAt(r, 0) && Sym(b) == RhsAt(r, 1) && Sym(c) == RhsAt(r, 2)
    ensures Valid(Node(r, [a, b, c]))
  {
  }

  /** The rules that turn a bracket into a value, and a list into an optional list. */
  lemma UnitRules(kind: Kind)
    ensures R1(BracketRule(kind)) == BracketSym(kind)
    ensures R2(UnitRule(kind)) == 1 && RhsAt(UnitRule(kind), 0) == BracketSym(kind)
    ensures R1(UnitRule(kind)) == 34
    ensures R2(ItemsRule(kind)) == 1 && RhsAt(ItemsRule(kind), 0) == ListSym(kind)
    ensures R1(ItemsRule(kind)) == ItemsSym(kind)
  {
  }

  lemma MarkerValid(r: int)
    requires r == 13 || r == 15 || r == 38
    ensures Valid(Node(r, [])) && Sym(Node(r, [])) == if r == 13 then 31 else if r == 15 then 33 else 42
  {
  }

  lemma GroupValid(items: Tree)
    requires Valid(items) && Sym(items) == 26
    ensures Valid(Node(39, [Leaf(TGroupStart), Node(38, []), items, Leaf(TGroupEnd)]))
  {
    MarkerValid(38);
  }

  lemma ArrayValid(items: Tree)
    requires Valid(items) && Sym(items) == 40
    ensures Valid(Node(14, [Leaf(TArrayStart), Node(13, []), items, Leaf(TArrayEnd)]))
  {
    MarkerValid(13);
  }

  lemma ListValid(items: Tree)
    requires Valid(items) && Sym(items) == 38
    ensures Valid(Node(16, [Leaf(TListStart), Node(15, []), items, Leaf(TListEnd)]))
  {
    MarkerValid(15);
  }

  lemma BracketsValid(kind: Kind, items: Tree)
    requires Valid(items) && Sym(items) == ItemsSym(kind)
    ensures Valid(BracketTree(kind, items).kids[0])
  {
    match kind
    case KGroup => GroupValid(items);
    case KArray => ArrayValid(items);
    case KList => ListValid(items);
  }

  lemma UnitValid(r: int, t: Tree)
    requires 1 < r <= NRULES && R2(r) == 1 && Valid(t) && Sym(t) == RhsAt(r, 0)
    ensures Valid(Node(r, [t]))
  {
  }

  lemma BracketValid(kind: Kind, items: Tree)
    requires Valid(items) && Sym(items) == ItemsSym(kind)
    ensures Valid(BracketTree(kind, items)) && Sym(BracketTree(kind, items)) == 34
  {
    BracketsValid(kind, items);
    UnitRules(kind);
    UnitValid(UnitRule(kind), BracketTree(kind, items).kids[0]);
  }

  lemma BracketMeasures(kind: Kind, items: Tree)
    ensures Yield(BracketTree(kind, items)) ==
            [OpenToken(kind)] + Yield(items) + [CloseToken(kind)]
    ensures Height(items) >= 1 ==> Height(BracketTree(kind, items)) == Max(4, 2 + Height(items))
    ensures Denote(BracketTree(kind, items)) == Aggregate(kind, Items(items))
  {
    var t := BracketTree(kind, items);
    Leaves1(t.kids);
    Leaves4(t.kids[0].kids);
    assert Yield(t.kids[0].kids[1]) == [] && Height(t.kids[0].kids[1]) == 1;
    assert Denote(t) == Denote(t.kids[0]);
  }

  lemma MemberValid(name: string, value: Tree)
    requires Valid(value) && Sym(value) == 34
    ensures Valid(MemberTree(name, value)) && Sym(MemberTree(name, value)) == 28
  {
    var end := Node(9, [Leaf(TSemicolon)]);
    assert Valid(end) && Sym(end) == 27;
    assert Valid(Node(11, [])) && Sym(Node(11, [])) == 29;
  }

  lemma MemberMeasures(name: string, value: Tree)
    ensures Yield(MemberTree(name, value)) == [TName(name), TEquals] + Yield(value) + [TSemicolon]
    ensures Height(MemberTree(name, value)) == Max(5, 3 + Height(value))
    ensures Member(MemberTree(name, value)) == Setting(Some(name), Denote(value))
  {
    var t := MemberTree(name, value);
    Leaves5(t.kids);
    Leaves1(t.kids[4].kids);
    assert Yield(t.kids[4]) == [TSemicolon] && Height(t.kids[4]) == 1;
    assert Yield(t.kids[1]) == [] && Height(t.kids[1]) == 1;
  }

  /** The tokens of an item on its own. */
  function ItemTokens(float: Double -> seq<Token>, kind: Kind, s: Setting): seq<Token> {
    if kind.KGroup? && s.name.Some? then SettingTokens(float, s) else SettingValueTokens(float, s)
  }

  function ItemsTokens(float: Double -> seq<Token>, kind: Kind, list: seq<Setting>): seq<Token> {
    if kind.KGroup? then MemberTokens(float, list) else ElemTokens(float, list)
  }

  lemma {:induction false} MemberTokensSnoc(list: seq<Setting>, s: Setting)
    requires s.name.Some?
    ensures MemberTokens(Exactly, list + [s]) == MemberTokens(Exactly, list) + SettingTokens(Exactly, s)
  {
    var all := list + [s];
    if list == [] {
      assert all[1..] == [];
    } else {
      assert all[1..] == list[1..] + [s] && all[0] == list[0];
      MemberTokensSnoc(list[1..], s);
    }
  }

  lemma {:induction false} ElemTokensSnoc(list: seq<Setting>, s: Setting)
    ensures ElemTokens(Exactly, list + [s]) ==
            ElemTokens(Exactly, list) + (if list == [] then [] else [TComma]) + SettingValueTokens(Exactly, s)
  {
    var all := list + [s];
    if list == [] {
      assert all[1..] == [];
    } else {
      assert all[1..] == list[1..] + [s] && all[0] == list[0];
      ElemTokensSnoc(list[1..], s);
      if |list| == 1 {
        assert list[1..] == [];
      }
    }
  }

  lemma SnocValid(kind: Kind, list: Tree, item: Tree)
    requires Valid(list) && Sym(list) == ListSym(kind) && Valid(item) && Sym(item) == ItemSym(kind)
    ensures Valid(SnocTree(kind, list, item)) && Sym(SnocTree(kind, list, item)) == ListSym(kind)
  {
    match kind
    case KGroup =>
    case KArray => Valid3(35, list, Leaf(TComma), item);
    case KList => Valid3(31, list, Leaf(TComma), item);
  }

  lemma SnocMeasures(kind: Kind, list: Tree, item: Tree)
    requires Height(item) >= 1
    ensures Yield(SnocTree(kind, list, item)) ==
            Yield(list) + (if kind.KGroup? then [] else [TComma]) + Yield(item)
    ensures Height(SnocTree(kind, list, item)) ==
            Max(Height(list), (if kind.KGroup? then 1 else 2) + Height(item))
    ensures Items(SnocTree(kind, list, item)) == Items(list) + [ItemOf(kind, item)]
  {
    var t := SnocTree(kind, list, item);
    if kind.KGroup? {
      Leaves2(t.kids);
    } else {
      Leaves3(t.kids);
    }
  }

  lemma FirstValid(kind: Kind, item: Tree)
    requires Valid(item) && Sym(item) == ItemSym(kind)
    ensures var t := Node(FirstRule(kind), [item]); Valid(t) && Sym(t) == ListSym(kind)
    ensures Items(Node(FirstRule(kind), [item])) == [ItemOf(kind, item)]
  {
  }

  // ----- the derivation of a whole tree -----

  lemma ScalarValueFits(v: Value)
    requires GoodValue(v) && !v.IsAggregate()
    ensures Fits(ValueTree(v), 34, ValueTokens(Exactly, v), Need(v)) && Denote(ValueTree(v)) == v
  {
    ScalarFits(v);
    UnitNode(17, ScalarTree(v), 36, [TreeText.ScalarToken(v)], 1);
    assert Denote(Node(17, [ScalarTree(v)])) == Denote(ScalarTree(v));
  }

  lemma {:induction false} ValueFits(v: Value)
    requires GoodValue(v)
    ensures Fits(ValueTree(v), 34, ValueTokens(Exactly, v), Need(v)) && Denote(ValueTree(v)) == v
    decreases v, 1
  {
    if v.IsAggregate() {
      var kind := if v.GroupV? then KGroup else if v.ArrayV? then KArray else KList;
      assert v == Aggregate(kind, v.list);
      ItemsFit(kind, v.list);
      var items := ItemsTree(kind, v.list);
      assert ValueTree(v) == BracketTree(kind, items);
      BracketValid(kind, items);
      BracketMeasures(kind, items);
      AggregateNeed(kind, v.list);
    } else {
      ScalarValueFits(v);
    }
  }

  lemma TokensOfValue(s: Setting)
    ensures SettingValueTokens(Exactly, s) == ValueTokens(Exactly, s.value)
  {
  }

  lemma ScalarTokens(s: Setting)
    requires GoodScalar(s.value)
    ensures SettingValueTokens(Exactly, s) == [TreeText.ScalarToken(s.value)] && Need(s.value) == 1
  {
    assert ValueTokens(Exactly, s.value) == [TreeText.ScalarToken(s.value)];
  }

  lemma {:induction false} ItemFits(kind: Kind, s: Setting)
    requires GoodItem(kind, s)
    ensures Fits(ItemTree(kind, s), ItemSym(kind), ItemTokens(Exactly, kind, s), ItemNeed(kind, s))
    ensures ItemOf(kind, ItemTree(kind, s)) == s
    decreases s, 2
  {
    match kind
    case KGroup =>
      TokensOfValue(s);
      ValueFits(s.value);
      MemberValid(s.name.value, ValueTree(s.value));
      MemberMeasures(s.name.value, ValueTree(s.value));
    case KArray =>
      ScalarFits(s.value);
      ScalarTokens(s);
    case KList => ValueFits(s.value);
  }

  lemma GoodPrefix(kind: Kind, list: seq<Setting>)
    requires GoodItems(kind, list) && list != []
    ensures GoodItem(kind, list[|list| - 1]) && GoodItems(kind, list[..|list| - 1])
  {
    if kind.KArray? {
      assert GoodArray(list[..|list| - 1]);
    }
  }

  lemma TokensSnoc(kind: Kind, list: seq<Setting>, s: Setting)
    requires GoodItem(kind, s)
    ensures ItemsTokens(Exactly, kind, list + [s]) ==
            ItemsTokens(Exactly, kind, list) + (if kind.KGroup? || list == [] then [] else [TComma])
            + ItemTokens(Exactly, kind, s)
  {
    if kind.KGroup? {
      MemberTokensSnoc(list, s);
    } else {
      ElemTokensSnoc(list, s);
    }
  }

  lemma {:induction false} ListFits(kind: Kind, list: seq<Setting>)
    requires GoodItems(kind, list) && list != []
    ensures Fits(ListTree(kind, list), ListSym(kind), ItemsTokens(Exactly, kind, list), ItemsNeed(kind, list))
    ensures Items(ListTree(kind, list)) == list
    decreases list, 0, 1
  {
    var before, s := list[..|list| - 1], list[|list| - 1];
    if |list| == 1 {
      assert list == [s];
      FirstFits(kind, s);
    } else {
      assert list == before + [s];
      GoodPrefix(kind, list);
      ListFits(kind, before);
      ItemFits(kind, s);
      OneMoreFits(kind, before, s);
    }
  }

  lemma OneMoreFits(kind: Kind, before: seq<Setting>, s: Setting)
    requires before != [] && GoodItems(kind, before + [s])
    requires Fits(ListTree(kind, before), ListSym(kind), ItemsTokens(Exactly, kind, before), ItemsNeed(kind, before))
    requires Items(ListTree(kind, before)) == before
    requires Fits(ItemTree(kind, s), ItemSym(kind), ItemTokens(Exactly, kind, s), ItemNeed(kind, s))
             && ItemOf(kind, ItemTree(kind, s)) == s
    ensures Fits(ListTree(kind, before + [s]), ListSym(kind), ItemsTokens(Exactly, kind, before + [s]),
                 ItemsNeed(kind, before + [s]))
    ensures Items(ListTree(kind, before + [s])) == before + [s]
  {
    var item := ItemTree(kind, s);
    GoodPrefix(kind, before + [s]);
    TokensSnoc(kind, before, s);
    NeedSnoc(kind, before, s);
    ItemNeedPositive(kind, s);
    SnocValid(kind, ListTree(kind, before), item);
    SnocMeasures(kind, ListTree(kind, before), item);
    ListTreeSnoc(kind, before, s);
  }

  lemma ListTreeSnoc(kind: Kind, before: seq<Setting>, s: Setting)
    requires before != []
    ensures ListTree(kind, before + [s]) == SnocTree(kind, ListTree(kind, before), ItemTree(kind, s))
  {
    var list := before + [s];
    assert list[..|list| - 1] == before;
  }

  lemma {:induction false} FirstFits(kind: Kind, s: Setting)
    requires GoodItems(kind, [s])
    ensures Fits(ListTree(kind, [s]), ListSym(kind), ItemsTokens(Exactly, kind, [s]), ItemsNeed(kind, [s]))
    ensures Items(ListTree(kind, [s])) == [s]
    decreases [s], 0, 0
  {
    var item := ItemTree(kind, s);
    assert [s][..0] == [];
    GoodPrefix(kind, [s]);
    ItemFits(kind, s);
    ItemNeedPositive(kind, s);
    TokensSnoc(kind, [], s);
    NeedSnoc(kind, [], s);
    FirstValid(kind, item);
    Leaves1([item]);
    assert [] + [s] == [s] && ItemsTokens(Exactly, kind, []) == [];
    assert ListTree(kind, [s]) == Node(FirstRule(kind), [item]);
  }

  lemma ItemNeedPositive(kind: Kind, s: Setting)
    ensures ItemNeed(kind, s) >= 1
  {
    NeedPositive(s.value);
  }

  lemma {:induction false} ItemsNeedPositive(kind: Kind, list: seq<Setting>)
    ensures ItemsNeed(kind, list) >= 1
  {
    if list != [] {
      ItemNeedPositive(kind, list[0]);
      ItemNeedPositive(kind, list[|list| - 1]);
    }
  }

  lemma {:induction false} ItemsFit(kind: Kind, list: seq<Setting>)
    requires GoodItems(kind, list)
    ensures Fits(ItemsTree(kind, list), ItemsSym(kind), ItemsTokens(Exactly, kind, list), ItemsNeed(kind, list))
    ensures Items(ItemsTree(kind, list)) == list
    decreases list, 1
  {
    var t := ItemsTree(kind, list);
    ItemsNeedPositive(kind, list);
    if list != [] {
      ListFits(kind, list);
      UnitRules(kind);
      UnitNode(ItemsRule(kind), ListTree(kind, list), ListSym(kind), ItemsTokens(Exactly, kind, list),
               ItemsNeed(kind, list));
      assert Items(t) == Items(ListTree(kind, list));
    }
  }
}
