/** Every tree that is read back from any text is one that can be written and read again. */
module ReadTrees {
  import opened Wrappers
  import opened Settings
  import opened ParseActions
  import opened Numerals
  import opened Lexemes
  import opened Floats
  import opened Scanning
  import opened TreeText
  import opened GrammarTables
  import opened Derivations
  import opened Meaning
  import opened TreeShapes
  import opened TreeEffects

  // ----- tokens that the scanner produces -----

  predicate GoodToken(t: Token) {
    match t
    case TBoolean(b) => b == 0 || b == 1
    case TInteger(i) => Int32(i)
    case THex(i) => Int32(i)
    case TInteger64(l) => Int64(l)
    case THex64(l) => Int64(l)
    case TString(s) => '\0' !in s
    case TName(n) => GoodName(n)
    case _ => true
  }

  lemma {:induction false} CStringHasNoNul(s: string)
    ensures '\0' !in CString(s)
  {
    if s != "" && s[0] != '\0' {
      CStringHasNoNul(s[1..]);
    }
  }

  lemma UnescapeHasNoNul(text: string)
    requires text != "" && text[0] != '\"'
    ensures '\0' !in Unescape(text[..StringMatch(text)])
  {
    var w := text[..StringMatch(text)];
    CStringHasNoNul(w);
    if |w| == 4 {
      CStringHasNoNul([(ValueOf(w[2..], 16) % 256) as char]);
    }
  }

  lemma RuleMeans(w: string, bol: bool)
    ensures RuleOf(w, bol) == Some(RName) ==> GoodName(w)
  {
  }

  lemma TokenForGood(libc: Libc, rule: Rule, w: string)
    requires rule.RName? ==> GoodName(w)
    ensures var token := TokenFor(libc, rule, w); token.Some? ==> GoodToken(token.value)
  {
  }

  lemma StepTokenGood(libc: Libc, s: Scan)
    requires s.text != "" && '\0' !in s.buf
    ensures var m := LexStep(libc, s);
            (m.token.Some? ==> GoodToken(m.token.value)) && '\0' !in m.scan.buf
  {
    match s.mode
    case Initial =>
      SomethingMatches(s.text, s.bol);
      var w := s.text[..Longest(s.text, s.bol, |s.text|)];
      RuleMeans(w, s.bol);
      TokenForGood(libc, RuleOf(w, s.bol).value, w);
    case InComment =>
    case InString =>
      if s.text[0] != '\"' {
        UnescapeHasNoNul(s.text);
      }
  }

  /** Integers in range, truth values 0 or 1, no NUL in strings, no names like `true`. */
  lemma {:induction false} ScannedTokensGood(libc: Libc, s: Scan, i: nat)
    requires '\0' !in s.buf && i < |TokensOf(libc, s)|
    ensures GoodToken(TokensOf(libc, s)[i])
    decreases |s.text|
  {
    if s.text != "" {
      StepTokenGood(libc, s);
      TokensAfterStep(libc, s);
      var m := LexStep(libc, s);
      if m.token.None? {
        ScannedTokensGood(libc, m.scan, i);
      } else if i > 0 {
        ScannedTokensGood(libc, m.scan, i - 1);
      }
    }
  }

  // ----- what good tokens denote -----

  predicate GoodTree(t: Tree) {
    match t
    case Leaf(token) => GoodToken(token)
    case Node(_, kids) => forall i | 0 <= i < |kids| :: GoodTree(kids[i])
  }

  lemma {:induction false} GoodYield(t: Tree)
    requires forall i | 0 <= i < |Yield(t)| :: GoodToken(Yield(t)[i])
    ensures GoodTree(t)
    decreases t
  {
    match t
    case Leaf(token) => assert Yield(t)[0] == token;
    case Node(_, kids) =>
      assert Yield(t) == YieldAll(kids);
      GoodYields(kids);
  }

  lemma {:induction false} GoodYields(ts: seq<Tree>)
    requires forall i | 0 <= i < |YieldAll(ts)| :: GoodToken(YieldAll(ts)[i])
    ensures forall i | 0 <= i < |ts| :: GoodTree(ts[i])
    decreases ts
  {
    if ts != [] {
      var a, b := Yield(ts[0]), YieldAll(ts[1..]);
      forall i | 0 <= i < |a| ensures GoodToken(a[i]) {
        assert YieldAll(ts)[i] == a[i];
      }
      forall i | 0 <= i < |b| ensures GoodToken(b[i]) {
        assert YieldAll(ts)[|a| + i] == b[i];
      }
      GoodYield(ts[0]);
      GoodYields(ts[1..]);
      forall i | 0 <= i < |ts| ensures GoodTree(ts[i]) {
        assert i > 0 ==> ts[i] == ts[1..][i - 1];
      }
    }
  }

  predicate GoodItems(kind: Kind, list: seq<Setting>) { GoodValue(Aggregate(kind, list)) }

  predicate GoodItem(kind: Kind, s: Setting) {
    match kind
    case KGroup => s.name.Some? && GoodName(s.name.value) && GoodValue(s.value)
    case KArray => s.name.None? && GoodScalar(s.value)
    case KList => s.name.None? && GoodValue(s.value)
  }

  lemma {:induction false} StringTreeGood(t: Tree)
    requires Valid(t) && Sym(t) == 35 && GoodTree(t)
    ensures '\0' !in Text(t)
    decreases t
  {
    StringShape(t);
    if t.rule == 21 {
      OneText(t.kids);
    } else {
      StringTreeGood(t.kids[0]);
      TwoTexts(t.kids);
    }
  }

  lemma SimpleGood(t: Tree)
    requires Valid(t) && Sym(t) == 36 && GoodTree(t)
    ensures GoodScalar(Denote(t))
  {
    SimpleShape(t);
    if t.rule == 29 {
      StringTreeGood(t.kids[0]);
      OneText(t.kids);
    } else {
      ScalarTokenGood(t.rule, t.kids[0].token);
      assert Denote(t.kids[0]) == TokenValue(t.kids[0].token);
    }
  }

  lemma ScalarTokenGood(r: int, token: Token)
    requires 23 <= r <= 28 && Code(token) == RhsAt(r, 0) && GoodToken(token)
    ensures GoodScalar(TokenValue(token))
  {
  }

  lemma {:induction false} ValueGood(t: Tree)
    requires Valid(t) && Sym(t) == 34 && GoodTree(t) && Legal(Denote(t))
    ensures GoodValue(Denote(t))
    decreases t, 0
  {
    ValueShape(t);
    if t.rule == 17 {
      SimpleGood(t.kids[0]);
    } else {
      BracketGood(t.kids[0]);
    }
  }

  lemma {:induction false} BracketGood(t: Tree)
    requires Valid(t) && (Sym(t) == 30 || Sym(t) == 32 || Sym(t) == 41)
    requires GoodTree(t) && Legal(Denote(t))
    ensures GoodValue(Denote(t))
    decreases t, 0
  {
    BracketShape(t);
    var kind, list := KindOf(Sym(t)), Items(t.kids[2]);
    assert KindOf(Sym(t.kids[2])) == kind && Denote(t) == Aggregate(kind, list);
    LegalAggregate(kind, list);
    assert GoodTree(t.kids[2]);
    ItemsGood(t.kids[2]);
  }

  lemma {:induction false} ElementGood(t: Tree, kind: Kind, before: seq<Setting>)
    requires Valid(t) && GoodTree(t)
    requires Sym(t) == match kind case KGroup => 28 case KArray => 36 case KList => 34
    requires LegalNext(kind, before, ItemOf(kind, t))
    ensures GoodItem(kind, ItemOf(kind, t))
    decreases t, 1
  {
    match kind
    case KGroup =>
      SettingShape(t);
      LegalMember(before, t.kids[0].token.sval, Denote(t.kids[3]));
      assert GoodTree(t.kids[0]) && GoodTree(t.kids[3]);
      ValueGood(t.kids[3]);
    case KArray => SimpleGood(t);
    case KList =>
      LegalElement(before, ItemOf(kind, t));
      ValueGood(t);
  }

  lemma GroupSnoc(list: seq<Setting>, s: Setting)
    requires GoodItems(KGroup, list) && GoodItem(KGroup, s) && !HasMember(list, s.name.value)
    ensures GoodItems(KGroup, list + [s])
  {
    var all := list + [s];
    SegmentOfValidName(s.name.value);
    forall i | 0 <= i < |list| ensures list[i].name != s.name {
      assert list[i].name.Some? && Segment(list[i].name.value) != Segment(s.name.value);
    }
    assert DistinctNames(all);
    forall i | 0 <= i < |all| ensures GoodItem(KGroup, all[i]) {
      assert i < |list| ==> all[i] == list[i] && GoodItem(KGroup, list[i]);
    }
  }

  lemma ArraySnoc(list: seq<Setting>, s: Setting)
    requires GoodItems(KArray, list) && GoodItem(KArray, s)
    requires list == [] || SameType(list[0].value, s.value)
    ensures GoodItems(KArray, list + [s])
  {
    var all := list + [s];
    assert GoodArray(list);
    forall i | 0 <= i < |all| ensures GoodItem(KArray, all[i]) && SameType(all[0].value, all[i].value) {
      assert i < |list| ==> all[i] == list[i];
      assert list != [] ==> all[0] == list[0];
    }
    assert GoodArray(all);
  }

  lemma ListSnoc(list: seq<Setting>, s: Setting)
    requires GoodItems(KList, list) && GoodItem(KList, s)
    ensures GoodItems(KList, list + [s])
  {
    var all := list + [s];
    forall i | 0 <= i < |all| ensures GoodItem(KList, all[i]) {
      assert i < |list| ==> all[i] == list[i] && GoodItem(KList, list[i]);
    }
  }

  lemma GoodSnoc(kind: Kind, list: seq<Setting>, s: Setting)
    requires GoodItems(kind, list) && GoodItem(kind, s) && LegalNext(kind, list, s)
    ensures GoodItems(kind, list + [s])
  {
    match kind
    case KGroup => GroupSnoc(list, s);
    case KArray => ArraySnoc(list, s);
    case KList => ListSnoc(list, s);
  }

  lemma NoItemsGood(kind: Kind)
    ensures GoodItems(kind, [])
  {
  }

  lemma {:induction false} ItemsGood(t: Tree)
    requires Valid(t) && IsItems(Sym(t)) && GoodTree(t) && LegalItems(KindOf(Sym(t)), Items(t))
    ensures GoodItems(KindOf(Sym(t)), Items(t))
    decreases t, 2
  {
    var kind := KindOf(Sym(t));
    NoItemsGood(kind);
    if IsOptional(Sym(t)) {
      OptionalShape(t);
      if t.kids != [] {
        ItemsGood(t.kids[0]);
      }
    } else {
      ListShape(t);
      ItemsSnoc(t);
      var last := t.kids[|t.kids| - 1];
      LegalSnoc(kind, PrefixItems(t), ItemOf(kind, last));
      if |t.kids| > 1 {
        ItemsGood(t.kids[0]);
      }
      ElementGood(last, kind, PrefixItems(t));
      GoodSnoc(kind, PrefixItems(t), ItemOf(kind, last));
    }
  }
}
