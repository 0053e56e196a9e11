/** The doubles in a tree of settings: what the tree becomes when every double is printed and
    read again, and why a text with an infinity in it is no configuration. */
module FloatTrees {
  import opened Wrappers
  import opened Settings
  import opened ParseActions
  import opened GrammarTables
  import opened Derivations
  import opened TreeShapes
  import opened StackNeeds
  import opened Lexemes
  import opened Floats
  import opened Writer
  import opened TreeText
  import opened ReadTrees

  /** `p` holds of every double in the value. */
  predicate AllFloats(p: Double -> bool, v: Value)
    decreases v, 0
  {
    match v
    case FloatV(d) => p(d)
    case GroupV(list) => forall i | 0 <= i < |list| :: AllFloats(p, list[i].value)
    case ArrayV(list) => forall i | 0 <= i < |list| :: AllFloats(p, list[i].value)
    case ListV(list) => forall i | 0 <= i < |list| :: AllFloats(p, list[i].value)
    case _ => true
  }

  predicate AllIn(p: Double -> bool, list: seq<Setting>) {
    forall i | 0 <= i < |list| :: AllFloats(p, list[i].value)
  }

  /** Printed as a number. */
  function Finite(libc: Libc): Double -> bool { d => IsFinite(libc, d) }

  /** Printed as a number that is read as the same double: ten digits are enough. */
  function Kept(libc: Libc): Double -> bool { d => IsFinite(libc, d) && Reread(libc, d) == d }

  /** What is read back is printed as before, although it may be another double. */
  function Stable(libc: Libc): Double -> bool {
    d => IsFinite(libc, d) && FloatText(libc, Reread(libc, d)) == FloatText(libc, d)
  }

  /** The value with every double printed and read again. */
  function RereadValue(libc: Libc, v: Value): Value
    decreases v, 1
  {
    match v
    case FloatV(d) => FloatV(Reread(libc, d))
    case GroupV(list) => GroupV(RereadList(libc, list))
    case ArrayV(list) => ArrayV(RereadList(libc, list))
    case ListV(list) => ListV(RereadList(libc, list))
    case _ => v
  }

  function RereadSetting(libc: Libc, s: Setting): Setting
    decreases s, 2
  {
    Setting(s.name, RereadValue(libc, s.value))
  }

  function RereadList(libc: Libc, list: seq<Setting>): seq<Setting>
    decreases list, 0
  {
    if list == [] then [] else [RereadSetting(libc, list[0])] + RereadList(libc, list[1..])
  }

  lemma {:induction false} RereadAt(libc: Libc, list: seq<Setting>)
    ensures |RereadList(libc, list)| == |list|
    ensures forall i | 0 <= i < |list| :: RereadList(libc, list)[i] == RereadSetting(libc, list[i])
  {
    if list != [] {
      RereadAt(libc, list[1..]);
    }
  }

  lemma RereadSnoc(libc: Libc, list: seq<Setting>, s: Setting)
    ensures RereadList(libc, list + [s]) == RereadList(libc, list) + [RereadSetting(libc, s)]
  {
    RereadAt(libc, list);
    RereadAt(libc, list + [s]);
  }

  // ----- which trees stay as they are -----

  lemma {:induction false} KeptValue(libc: Libc, v: Value)
    requires AllFloats(Finite(libc), v)
    ensures RereadValue(libc, v) == v <==> AllFloats(Kept(libc), v)
    decreases v, 1
  {
    if v.IsAggregate() {
      KeptList(libc, v.list);
    }
  }

  lemma {:induction false} KeptSetting(libc: Libc, s: Setting)
    requires AllFloats(Finite(libc), s.value)
    ensures RereadSetting(libc, s) == s <==> AllFloats(Kept(libc), s.value)
    decreases s, 2
  {
    KeptValue(libc, s.value);
  }

  lemma {:induction false} KeptList(libc: Libc, list: seq<Setting>)
    requires AllIn(Finite(libc), list)
    ensures RereadList(libc, list) == list <==> AllIn(Kept(libc), list)
    decreases list, 0
  {
    RereadAt(libc, list);
    forall i | 0 <= i < |list|
      ensures RereadSetting(libc, list[i]) == list[i] <==> AllFloats(Kept(libc), list[i].value)
    {
      KeptSetting(libc, list[i]);
    }
    if RereadList(libc, list) == list {
      forall i | 0 <= i < |list| ensures AllFloats(Kept(libc), list[i].value) {
        assert RereadList(libc, list)[i] == list[i];
      }
    }
  }

  lemma {:induction false} Weaker(p: Double -> bool, q: Double -> bool, v: Value)
    requires AllFloats(p, v) && forall d :: p(d) ==> q(d)
    ensures AllFloats(q, v)
    decreases v
  {
    if v.IsAggregate() {
      forall i | 0 <= i < |v.list| ensures AllFloats(q, v.list[i].value) {
        Weaker(p, q, v.list[i].value);
      }
    }
  }

  lemma WeakerList(p: Double -> bool, q: Double -> bool, list: seq<Setting>)
    requires AllIn(p, list) && forall d :: p(d) ==> q(d)
    ensures AllIn(q, list)
  {
    forall i | 0 <= i < |list| ensures AllFloats(q, list[i].value) {
      Weaker(p, q, list[i].value);
    }
  }

  // ----- rereading keeps what makes a tree good, and its nesting -----

  lemma SameScalarType(libc: Libc, a: Value, b: Value)
    ensures SameType(RereadValue(libc, a), RereadValue(libc, b)) == SameType(a, b)
  {
  }

  lemma {:induction false} RereadGood(libc: Libc, v: Value)
    requires GoodValue(v)
    ensures GoodValue(RereadValue(libc, v))
    decreases v, 1
  {
    if v.IsAggregate() {
      var kind := if v.GroupV? then KGroup else if v.ArrayV? then KArray else KList;
      assert v == Aggregate(kind, v.list);
      RereadGoodItems(libc, kind, v.list);
      assert RereadValue(libc, v) == Aggregate(kind, RereadList(libc, v.list));
    }
  }

  lemma {:induction false} RereadGoodItems(libc: Libc, kind: Kind, list: seq<Setting>)
    requires GoodItems(kind, list)
    ensures GoodItems(kind, RereadList(libc, list))
    decreases list, 0
  {
    RereadAt(libc, list);
    var all := RereadList(libc, list);
    match kind
    case KArray =>
      assert GoodArray(list);
      forall i | 0 <= i < |all|
        ensures all[i].name.None? && GoodScalar(all[i].value) && SameType(all[0].value, all[i].value)
      {
        SameScalarType(libc, list[0].value, list[i].value);
      }
      assert GoodArray(all);
    case _ =>
      forall i | 0 <= i < |list| ensures GoodValue(RereadValue(libc, list[i].value)) {
        assert GoodValue(list[i].value);
        RereadGood(libc, list[i].value);
      }
  }

  lemma {:induction false} RereadNeed(libc: Libc, v: Value)
    ensures Need(RereadValue(libc, v)) == Need(v)
    decreases v, 1
  {
    if v.IsAggregate() {
      var kind := if v.GroupV? then KGroup else if v.ArrayV? then KArray else KList;
      RereadItemsNeed(libc, kind, v.list);
    }
  }

  lemma {:induction false} RereadItemNeed(libc: Libc, kind: Kind, s: Setting)
    ensures ItemNeed(kind, RereadSetting(libc, s)) == ItemNeed(kind, s)
    decreases s, 2
  {
    RereadNeed(libc, s.value);
  }

  lemma {:induction false} RereadItemsNeed(libc: Libc, kind: Kind, list: seq<Setting>)
    ensures ItemsNeed(kind, RereadList(libc, list)) == ItemsNeed(kind, list)
    decreases list, 0
  {
    if list != [] {
      var before, s := list[..|list| - 1], list[|list| - 1];
      assert list == before + [s];
      RereadItemNeed(libc, kind, s);
      RereadItemsNeed(libc, kind, before);
      RereadSnoc(libc, before, s);
      RereadAt(libc, before);
      NeedSnoc(kind, before, s);
      NeedSnoc(kind, RereadList(libc, before), RereadSetting(libc, s));
    }
  }

  // ----- the tokens of a finite tree -----

  lemma {:induction false} RereadTokens(libc: Libc, v: Value)
    requires AllFloats(Finite(libc), v)
    ensures ValueTokens(Printed(libc), v) == ValueTokens(Exactly, RereadValue(libc, v))
    decreases v, 1
  {
    match v
    case GroupV(list) => RereadMemberTokens(libc, list);
    case ArrayV(list) => RereadElemTokens(libc, list);
    case ListV(list) => RereadElemTokens(libc, list);
    case _ =>
  }

  lemma {:induction false} RereadElemTokens(libc: Libc, list: seq<Setting>)
    requires AllIn(Finite(libc), list)
    ensures ElemTokens(Printed(libc), list) == ElemTokens(Exactly, RereadList(libc, list))
    decreases list, 0
  {
    if list != [] {
      RereadAt(libc, list);
      RereadSettingTokens(libc, list[0]);
      RereadElemTokens(libc, list[1..]);
    }
  }

  lemma {:induction false} RereadSettingTokens(libc: Libc, s: Setting)
    requires AllFloats(Finite(libc), s.value)
    ensures SettingValueTokens(Printed(libc), s) == SettingValueTokens(Exactly, RereadSetting(libc, s))
    decreases s, 2
  {
    RereadTokens(libc, s.value);
  }

  lemma {:induction false} RereadMemberTokens(libc: Libc, list: seq<Setting>)
    requires AllIn(Finite(libc), list)
    ensures MemberTokens(Printed(libc), list) == MemberTokens(Exactly, RereadList(libc, list))
    decreases list, 0
  {
    if list != [] {
      RereadAt(libc, list);
      RereadSettingTokens(libc, list[0]);
      RereadMemberTokens(libc, list[1..]);
    }
  }

  // ----- the text of a stable tree -----

  lemma {:induction false} StableText(libc: Libc, v: Value, depth: nat, width: nat)
    requires AllFloats(Stable(libc), v)
    ensures WriteValue(libc, RereadValue(libc, v), depth, width) == WriteValue(libc, v, depth, width)
    decreases v, 1
  {
    match v
    case GroupV(list) => StableMembers(libc, list, depth, width);
    case ArrayV(list) => StableElems(libc, list, depth, width);
    case ListV(list) => StableElems(libc, list, depth, width);
    case _ =>
  }

  lemma {:induction false} StableSetting(libc: Libc, s: Setting, depth: nat, width: nat)
    requires AllFloats(Stable(libc), s.value)
    ensures WriteSetting(libc, RereadSetting(libc, s), depth, width) == WriteSetting(libc, s, depth, width)
    ensures WriteElem(libc, RereadSetting(libc, s), depth, width) == WriteElem(libc, s, depth, width)
    decreases s, 2
  {
    StableText(libc, s.value, depth, width);
  }

  lemma {:induction false} StableMembers(libc: Libc, list: seq<Setting>, depth: nat, width: nat)
    requires AllIn(Stable(libc), list)
    ensures WriteMembers(libc, RereadList(libc, list), depth, width) == WriteMembers(libc, list, depth, width)
    decreases list, 0
  {
    if list != [] {
      RereadAt(libc, list);
      StableSetting(libc, list[0], depth + 1, width);
      StableMembers(libc, list[1..], depth, width);
    }
  }

  lemma {:induction false} StableElems(libc: Libc, list: seq<Setting>, depth: nat, width: nat)
    requires AllIn(Stable(libc), list)
    ensures WriteElems(libc, RereadList(libc, list), depth, width) == WriteElems(libc, list, depth, width)
    decreases list, 0
  {
    if list != [] {
      RereadAt(libc, list);
      StableSetting(libc, list[0], depth + 1, width);
      StableElems(libc, list[1..], depth, width);
    }
  }

  // ----- a name without a value -----

  /** Every name is followed by an equals sign. */
  predicate NamesAssigned(tokens: seq<Token>) {
    forall i | 0 <= i < |tokens| && tokens[i].TName? :: i + 1 < |tokens| && tokens[i + 1].TEquals?
  }

  /** Somewhere a name is followed by something else. */
  predicate HasStray(tokens: seq<Token>) {
    exists i | 0 <= i < |tokens| - 1 :: tokens[i].TName? && !tokens[i + 1].TEquals?
  }

  lemma AssignedConcat(a: seq<Token>, b: seq<Token>)
    requires NamesAssigned(a) && NamesAssigned(b)
    ensures NamesAssigned(a + b)
  {
    var all := a + b;
    forall i | 0 <= i < |all| && all[i].TName? ensures i + 1 < |all| && all[i + 1].TEquals? {
      if i < |a| {
        assert a[i].TName?;
      } else {
        assert b[i - |a|].TName?;
      }
    }
  }

  lemma StrayIn(a: seq<Token>, b: seq<Token>, c: seq<Token>)
    requires HasStray(b)
    ensures HasStray(a + b + c)
  {
    var i :| 0 <= i < |b| - 1 && b[i].TName? && !b[i + 1].TEquals?;
    assert (a + b + c)[|a| + i] == b[i] && (a + b + c)[|a| + i + 1] == b[i + 1];
  }

  lemma StrayInEither(a: seq<Token>, b: seq<Token>)
    requires HasStray(a) || HasStray(b)
    ensures HasStray(a + b)
  {
    if HasStray(a) {
      StrayIn([], a, b);
      assert [] + a + b == a + b;
    } else {
      StrayIn(a, b, []);
      assert a + b + [] == a + b;
    }
  }

  /** Names stand only at the start of a setting. */
  lemma NameSymbol(r: int, i: int)
    requires 1 < r <= NRULES && 0 <= i < R2(r) && RhsAt(r, i) == 10
    ensures r == 12
  {
  }

  lemma {:induction false} YieldAssigned(t: Tree)
    requires Valid(t) && Sym(t) != 10
    ensures NamesAssigned(Yield(t))
    decreases t, 0
  {
    if t.Node? {
      if t.rule == 12 {
        MemberAssigned(t);
      } else {
        forall i | 0 <= i < |t.kids| ensures Valid(t.kids[i]) && Sym(t.kids[i]) != 10 {
          if Sym(t.kids[i]) == 10 {
            NameSymbol(t.rule, i);
          }
        }
        YieldsAssigned(t.kids);
      }
    }
  }

  lemma {:induction false} YieldsAssigned(ts: seq<Tree>)
    requires forall i | 0 <= i < |ts| :: Valid(ts[i]) && Sym(ts[i]) != 10
    ensures NamesAssigned(YieldAll(ts))
    decreases ts
  {
    if ts != [] {
      YieldAssigned(ts[0]);
      YieldsAssigned(ts[1..]);
      AssignedConcat(Yield(ts[0]), YieldAll(ts[1..]));
    }
  }

  lemma MemberYield(kids: seq<Tree>)
    requires |kids| == 5 && kids[0].Leaf? && kids[1] == Node(11, []) && kids[2] == Leaf(TEquals)
    ensures YieldAll(kids) == [kids[0].token, TEquals] + YieldAll(kids[3..])
  {
    assert YieldAll(kids[2..]) == [TEquals] + YieldAll(kids[3..]);
    assert YieldAll(kids[1..]) == [] + YieldAll(kids[2..]);
  }

  lemma {:induction false} MemberAssigned(t: Tree)
    requires Valid(t) && t.Node? && t.rule == 12
    ensures NamesAssigned(Yield(t))
    decreases t.kids
  {
    SettingShape(t);
    MemberYield(t.kids);
    var value := t.kids[3..];
    assert value == [t.kids[3], t.kids[4]];
    YieldsAssigned(value);
    AssignedConcat([t.kids[0].token, TEquals], YieldAll(value));
  }

  lemma {:induction false} StrayFloat(libc: Libc, d: Double)
    requires !IsFinite(libc, d)
    ensures HasStray(Printed(libc)(d))
  {
    FloatTextShape(libc, d);
    var w := FloatText(libc, d);
    var tokens := [TName(w[|w| - 5..|w| - 2]), TFloat(libc.atof(".0"))];
    assert tokens[0].TName? && !tokens[1].TEquals?;
    var sign := if w[0] == '-' then [TGarbage] else [];
    StrayIn(sign, tokens, []);
    assert FloatTokens(libc, d) == sign + tokens + [];
  }

  lemma {:induction false} StrayValue(libc: Libc, v: Value)
    requires GoodValue(v) && !AllFloats(Finite(libc), v)
    ensures HasStray(ValueTokens(Printed(libc), v))
    decreases v, 1
  {
    match v
    case FloatV(d) => StrayFloat(libc, d);
    case GroupV(list) =>
      StrayMember(libc, list);
      StrayIn([TGroupStart], MemberTokens(Printed(libc), list), [TGroupEnd]);
    case ArrayV(list) =>
      assert GoodArray(list);
      StrayElem(libc, list);
      StrayIn([TArrayStart], ElemTokens(Printed(libc), list), [TArrayEnd]);
    case ListV(list) =>
      StrayElem(libc, list);
      StrayIn([TListStart], ElemTokens(Printed(libc), list), [TListEnd]);
    case _ =>
  }

  lemma {:induction false} StraySetting(libc: Libc, s: Setting)
    requires GoodValue(s.value) && !AllFloats(Finite(libc), s.value)
    ensures HasStray(SettingValueTokens(Printed(libc), s))
    decreases s, 2
  {
    StrayValue(libc, s.value);
  }

  lemma {:induction false} StrayElem(libc: Libc, list: seq<Setting>)
    requires (forall i | 0 <= i < |list| :: GoodValue(list[i].value)) && !AllIn(Finite(libc), list)
    ensures HasStray(ElemTokens(Printed(libc), list))
    decreases list, 0
  {
    var first, others := SettingValueTokens(Printed(libc), list[0]), ElemTokens(Printed(libc), list[1..]);
    var comma := if |list| > 1 then [TComma] else [];
    if !AllFloats(Finite(libc), list[0].value) {
      StraySetting(libc, list[0]);
      StrayInEither(first, comma);
    } else {
      StrayElem(libc, list[1..]);
    }
    StrayInEither(first + comma, others);
  }

  lemma {:induction false} StrayMember(libc: Libc, list: seq<Setting>)
    requires forall i | 0 <= i < |list| :: list[i].name.Some? && GoodValue(list[i].value)
    requires !AllIn(Finite(libc), list)
    ensures HasStray(MemberTokens(Printed(libc), list))
    decreases list, 0
  {
    var first, others := SettingTokens(Printed(libc), list[0]), MemberTokens(Printed(libc), list[1..]);
    if !AllFloats(Finite(libc), list[0].value) {
      StraySetting(libc, list[0]);
      StrayIn([TName(list[0].name.value), TEquals], SettingValueTokens(Printed(libc), list[0]), [TSemicolon]);
    } else {
      StrayMember(libc, list[1..]);
    }
    StrayInEither(first, others);
  }

  /** No derivation yields the tokens of a printed tree with a double that is no number. */
  lemma OddFloatsDoNotParse(libc: Libc, list: seq<Setting>, t: Tree)
    requires GoodItems(KGroup, list) && !AllIn(Finite(libc), list)
    ensures !Derives(t, MemberTokens(Printed(libc), list))
  {
    StrayMember(libc, list);
    if Derives(t, MemberTokens(Printed(libc), list)) {
      YieldAssigned(t);
    }
  }
}
