/** The semantic actions build what a derivation denotes, and refuse exactly the derivations
    whose meaning is not legal. */
module TreeEffects {
  import opened Wrappers
  import opened Settings
  import opened ParseActions
  import opened GrammarTables
  import opened LrParser
  import opened Derivations
  import opened Meaning
  import opened TreeShapes

  /** The outcome is success with this spine, or some failure, as `ok` says. */
  ghost predicate Yields(next: SemNext, ok: bool, spine: seq<Frame>) {
    if ok then next.SemGo? && next.sem.ctx.spine == spine && next.sem.ctx.str == ""
    else next.SemStop?
  }

  /** The context can take a value that grammar symbol `x` derives. */
  predicate Slot(ctx: Ctx, x: int) {
    && ctx.spine != [] && ctx.str == ""
    && (TopKind(ctx.spine).KGroup? ==> Fresh(ctx))
    && (TopKind(ctx.spine).KArray? ==> x == 36)
  }

  /** The value's type is one that the open aggregate accepts. */
  predicate Suits(spine: seq<Frame>, v: Value)
    requires spine != []
  {
    TopKind(spine).KArray? && TopDone(spine) != [] ==> SameType(TopDone(spine)[0].value, v)
  }

  /** A group's newest member receives the value; an array or list gets a new element. */
  function Place(spine: seq<Frame>, v: Value): seq<Frame>
    requires spine != [] && (TopKind(spine).KGroup? ==> TopDone(spine) != [])
  {
    var done := TopDone(spine);
    if TopKind(spine).KGroup? then
      WithDone(spine, done[..|done| - 1] + [Setting(done[|done| - 1].name, v)])
    else WithDone(spine, done + [Setting(None, v)])
  }

  // ----- simple values -----

  lemma ScalarPlaced(ctx: Ctx, v: Value)
    requires Slot(ctx, 36)
    ensures match Scalar(ctx, v)
            case Done(ctx') => Suits(ctx.spine, v) && ctx'.spine == Place(ctx.spine, v) && ctx'.str == ""
            case Fail(_) => !Suits(ctx.spine, v)
            case Fault => false
  {
  }

  lemma ScalarAct(r: int, ctx: Ctx, vs: seq<SemVal>, token: Token)
    requires 23 <= r <= 28 && Code(token) == RhsAt(r, 0)
    requires ctx.spine != [] && vs != [] && vs[|vs| - 1] == Lval(token)
    ensures Act(r, ctx, vs) == Scalar(ctx, TokenValue(token))
  {
    assert r == 23 || r == 24 || r == 25 || r == 26 || r == 27 || r == 28;
  }

  lemma LeafEffect(t: Tree, sem: Sem)
    requires t.Leaf? && sem.vs != []
    ensures Effect(t, sem) == SemGo(sem.(vs := sem.vs + [Lval(t.token)]))
  {
  }

  lemma {:induction false} StringEffect(t: Tree, sem: Sem)
    requires Valid(t) && Sym(t) == 35 && sem.vs != [] && sem.ctx.spine != []
    ensures var next := Effect(t, sem);
            next.SemGo? && next.sem.ctx == sem.ctx.(str := sem.ctx.str + Text(t))
    decreases t
  {
    StringShape(t);
    NodeEffect(t, sem);
    if t.rule == 21 {
      EffectAll1(t.kids, sem);
      LeafEffect(t.kids[0], sem);
      OneText(t.kids);
    } else {
      StringEffect(t.kids[0], sem);
      EffectAll2(t.kids, sem);
      var sem' := Effect(t.kids[0], sem).sem;
      LeafEffect(t.kids[1], sem');
      TwoTexts(t.kids);
      Append(sem.ctx.str, Text(t.kids[0]), Text(t.kids[1]));
    }
  }

  lemma Append(a: string, b: string, c: string)
    ensures a + b + c == a + (b + c)
  {
  }

  lemma OneText(ts: seq<Tree>)
    requires |ts| == 1
    ensures TextAll(ts) == Text(ts[0])
  {
    assert ts[1..] == [];
  }

  lemma TwoTexts(ts: seq<Tree>)
    requires |ts| == 2
    ensures TextAll(ts) == Text(ts[0]) + Text(ts[1])
  {
    OneText(ts[1..]);
  }

  lemma SimpleEffect(t: Tree, sem: Sem)
    requires Valid(t) && Sym(t) == 36 && Slot(sem.ctx, 36) && sem.vs != []
    ensures !Denote(t).IsAggregate()
    ensures Yields(Effect(t, sem), Suits(sem.ctx.spine, Denote(t)), Place(sem.ctx.spine, Denote(t)))
  {
    SimpleShape(t);
    NodeEffect(t, sem);
    EffectAll1(t.kids, sem);
    if t.rule == 29 {
      StringEffect(t.kids[0], sem);
      OneText(t.kids);
      ScalarPlaced(sem.ctx, StringV(Text(t.kids[0])));
      StringAct(Effect(t.kids[0], sem).sem, Text(t.kids[0]));
      assert sem.ctx.(str := "") == sem.ctx;
    } else {
      LeafEffect(t.kids[0], sem);
      var token := t.kids[0].token;
      var sem' := Effect(t.kids[0], sem).sem;
      ScalarAct(t.rule, sem'.ctx, sem'.vs, token);
      ScalarPlaced(sem.ctx, TokenValue(token));
    }
  }

  lemma StringAct(sem: Sem, text: string)
    requires sem.ctx.spine != [] && sem.vs != [] && sem.ctx.str == "" + text
    ensures Act(29, sem.ctx, sem.vs) == Scalar(sem.ctx.(str := ""), StringV(text))
  {
    assert "" + text == text;
  }

  // ----- opening and closing -----

  function BracketRule(kind: Kind): int {
    match kind case KArray => 14 case KList => 16 case KGroup => 39
  }

  function MarkerRule(kind: Kind): int {
    match kind case KArray => 13 case KList => 15 case KGroup => 38
  }

  lemma OpenAct(kind: Kind, ctx: Ctx, vs: seq<SemVal>)
    requires ctx.spine != [] && vs != []
    ensures Act(MarkerRule(kind), ctx, vs) == Open(ctx, kind)
    ensures Act(BracketRule(kind), ctx, vs) == Close(ctx)
  {
  }

  /** The spine while the aggregate's items are read. */
  function Entered(spine: seq<Frame>, kind: Kind, list: seq<Setting>): seq<Frame>
    requires spine != [] && (TopKind(spine).KGroup? ==> TopDone(spine) != [])
  {
    var done := TopDone(spine);
    if TopKind(spine).KGroup? then
      WithDone(spine, done[..|done| - 1]) + [Frame(done[|done| - 1].name, kind, list)]
    else spine + [Frame(None, kind, list)]
  }

  lemma OpenEnters(ctx: Ctx, kind: Kind)
    requires Slot(ctx, 34)
    ensures Open(ctx, kind).Done?
    ensures Open(ctx, kind).ctx.spine == Entered(ctx.spine, kind, []) && Open(ctx, kind).ctx.str == ""
  {
  }

  lemma CloseLeaves(spine: seq<Frame>, kind: Kind, list: seq<Setting>, ctx: Ctx)
    requires spine != [] && (TopKind(spine).KGroup? ==> TopDone(spine) != [])
    requires ctx.spine == Entered(spine, kind, list) && ctx.str == ""
    ensures Close(ctx).Done? && Close(ctx).ctx.str == ""
    ensures Close(ctx).ctx.spine == Place(spine, Aggregate(kind, list))
  {
    var n := |ctx.spine| - 1;
    assert ctx.spine[..n] ==
           if TopKind(spine).KGroup? then WithDone(spine, TopDone(spine)[..|TopDone(spine)| - 1])
           else spine;
  }

  lemma EnteredWith(spine: seq<Frame>, kind: Kind, list: seq<Setting>)
    requires spine != [] && (TopKind(spine).KGroup? ==> TopDone(spine) != [])
    ensures WithDone(Entered(spine, kind, []), list) == Entered(spine, kind, list)
  {
  }

  // ----- values and lists of values -----

  function KindOf(x: int): Kind {
    if x == 37 || x == 38 || x == 32 then KList
    else if x == 39 || x == 40 || x == 30 then KArray else KGroup
  }

  lemma {:induction false} ValueEffect(t: Tree, sem: Sem)
    requires Valid(t) && Sym(t) == 34 && Slot(sem.ctx, 34) && sem.vs != []
    ensures Yields(Effect(t, sem), Legal(Denote(t)), Place(sem.ctx.spine, Denote(t)))
    decreases t, 0
  {
    ValueShape(t);
    NodeEffect(t, sem);
    EffectAll1(t.kids, sem);
    if t.rule == 17 {
      SimpleEffect(t.kids[0], sem);
    } else {
      BracketEffect(t.kids[0], sem);
    }
    if Effect(t.kids[0], sem).SemGo? {
      UnitAct(t.rule, Effect(t.kids[0], sem).sem);
    }
  }

  lemma UnitAct(r: int, sem: Sem)
    requires 17 <= r <= 20 && sem.ctx.spine != [] && sem.vs != []
    ensures Act(r, sem.ctx, sem.vs) == Done(sem.ctx)
  {
  }

  /** The opening bracket and its marker. */
  lemma OpenEffect(kind: Kind, open: Tree, sem: Sem)
    requires open.Leaf? && Slot(sem.ctx, 34) && sem.vs != []
    requires Valid(Node(MarkerRule(kind), []))
    ensures Yields(Then(Effect(open, sem), Node(MarkerRule(kind), [])), true,
                   Entered(sem.ctx.spine, kind, []))
  {
    LeafEffect(open, sem);
    var sem' := Effect(open, sem).sem;
    NodeEffect(Node(MarkerRule(kind), []), sem');
    OpenAct(kind, sem'.ctx, sem'.vs);
    OpenEnters(sem.ctx, kind);
  }

  /** The closing bracket and the rule's action. */
  lemma CloseEffect(kind: Kind, next: SemNext, close: Tree, ok: bool, spine: seq<Frame>, list: seq<Setting>)
    requires spine != [] && (TopKind(spine).KGroup? ==> TopDone(spine) != []) && close.Leaf?
    requires Yields(next, ok, Entered(spine, kind, list)) && (next.SemGo? ==> |next.sem.vs| > 3)
    ensures Yields(Finish(Then(next, close), BracketRule(kind)), ok, Place(spine, Aggregate(kind, list)))
  {
    if ok {
      LeafEffect(close, next.sem);
      var sem := Effect(close, next.sem).sem;
      OpenAct(kind, sem.ctx, sem.vs);
      CloseLeaves(spine, kind, list, sem.ctx);
    }
  }

  lemma BracketMeans(t: Tree)
    requires Valid(t) && (Sym(t) == 30 || Sym(t) == 32 || Sym(t) == 41)
    ensures t.Node? && |t.kids| == 4 && t.rule == BracketRule(KindOf(Sym(t)))
    ensures Denote(t) == Aggregate(KindOf(Sym(t)), Items(t.kids[2]))
  {
    BracketShape(t);
  }

  lemma {:induction false} BracketEffect(t: Tree, sem: Sem)
    requires Valid(t) && (Sym(t) == 30 || Sym(t) == 32 || Sym(t) == 41)
    requires Slot(sem.ctx, 34) && sem.vs != []
    ensures Yields(Effect(t, sem), Legal(Denote(t)), Place(sem.ctx.spine, Denote(t)))
    decreases t, 0
  {
    BracketShape(t);
    BracketMeans(t);
    NodeEffect(t, sem);
    EffectAll4(t.kids, sem);
    var kind, list := KindOf(Sym(t)), Items(t.kids[2]);
    LegalAggregate(kind, list);
    OpenEffect(kind, t.kids[0], sem);
    ItemsEffect(t.kids[2], Then(Effect(t.kids[0], sem), t.kids[1]).sem);
    EnteredWith(sem.ctx.spine, kind, list);
    var next := Then(Then(Effect(t.kids[0], sem), t.kids[1]), t.kids[2]);
    CloseEffect(kind, next, t.kids[3], LegalItems(kind, list), sem.ctx.spine, list);
  }

  /** The item that an element of a list denotes. */
  function ItemOf(kind: Kind, t: Tree): Setting {
    if kind.KGroup? then Member(t) else Setting(None, Denote(t))
  }

  lemma LegalElement(before: seq<Setting>, s: Setting)
    ensures LegalNext(KList, before, s) <==> Legal(s.value)
  {
    assert LegalSetting(s) == Legal(s.value);
  }

  lemma LegalMember(before: seq<Setting>, name: string, v: Value)
    ensures LegalNext(KGroup, before, Setting(Some(name), v)) <==>
            ValidName(name) && !HasMember(before, name) && Legal(v)
  {
    assert LegalSetting(Setting(Some(name), v)) == Legal(v);
  }

  lemma {:induction false} ElementEffect(t: Tree, kind: Kind, sem: Sem)
    requires Valid(t) && sem.ctx.spine != [] && sem.ctx.str == "" && sem.vs != []
    requires TopKind(sem.ctx.spine) == kind
    requires Sym(t) == match kind case KGroup => 28 case KArray => 36 case KList => 34
    ensures var done, s := TopDone(sem.ctx.spine), ItemOf(kind, t);
            Yields(Effect(t, sem), LegalNext(kind, done, s), WithDone(sem.ctx.spine, done + [s]))
    decreases t, 1
  {
    match kind
    case KGroup => SettingEffect(t, sem);
    case KArray => SimpleEffect(t, sem);
    case KList =>
      ValueEffect(t, sem);
      LegalElement(TopDone(sem.ctx.spine), ItemOf(kind, t));
  }

  lemma LegalSnoc(kind: Kind, list: seq<Setting>, s: Setting)
    ensures LegalItems(kind, list + [s]) <==> LegalItems(kind, list) && LegalNext(kind, list, s)
  {
    assert (list + [s])[..|list|] == list;
  }

  predicate IsItems(x: int) { IsOptional(x) || x == 25 || x == 37 || x == 39 }

  lemma {:induction false} ItemsEffect(t: Tree, sem: Sem)
    requires Valid(t) && IsItems(Sym(t)) && sem.ctx.spine != [] && sem.ctx.str == "" && sem.vs != []
    requires TopKind(sem.ctx.spine) == KindOf(Sym(t)) && TopDone(sem.ctx.spine) == []
    ensures Yields(Effect(t, sem), LegalItems(KindOf(Sym(t)), Items(t)),
                   WithDone(sem.ctx.spine, Items(t)))
    decreases t, 2
  {
    if IsOptional(Sym(t)) {
      OptionalEffect(t, sem);
    } else {
      ListEffect(t, sem);
    }
  }

  lemma PlainAct(r: int, sem: Sem)
    requires (2 <= r <= 12 && r != 11) || 30 <= r <= 37
    requires sem.ctx.spine != [] && sem.vs != []
    ensures Act(r, sem.ctx, sem.vs) == Done(sem.ctx)
  {
  }

  lemma {:induction false} OptionalEffect(t: Tree, sem: Sem)
    requires Valid(t) && IsOptional(Sym(t))
    requires sem.ctx.spine != [] && sem.ctx.str == "" && sem.vs != []
    requires TopKind(sem.ctx.spine) == KindOf(Sym(t)) && TopDone(sem.ctx.spine) == []
    ensures Yields(Effect(t, sem), LegalItems(KindOf(Sym(t)), Items(t)),
                   WithDone(sem.ctx.spine, Items(t)))
    decreases t, 1
  {
    OptionalShape(t);
    NodeEffect(t, sem);
    if t.kids == [] {
      PlainAct(t.rule, sem);
      assert WithDone(sem.ctx.spine, []) == sem.ctx.spine;
    } else {
      EffectAll1(t.kids, sem);
      ItemsEffect(t.kids[0], sem);
      if Effect(t.kids[0], sem).SemGo? {
        PlainAct(t.rule, Effect(t.kids[0], sem).sem);
      }
    }
  }

  /** One more item after those that are there. */
  lemma WithSnoc(spine: seq<Frame>, list: seq<Setting>, s: Setting)
    requires spine != []
    ensures var grown := WithDone(spine, list);
            TopDone(grown) == list && TopKind(grown) == TopKind(spine)
            && WithDone(grown, list + [s]) == WithDone(spine, list + [s])
  {
  }

  /** What a list's children before its last element do. */
  lemma {:induction false} PrefixEffect(t: Tree, sem: Sem)
    requires Valid(t) && (Sym(t) == 25 || Sym(t) == 37 || Sym(t) == 39)
    requires sem.ctx.spine != [] && sem.ctx.str == "" && sem.vs != []
    requires TopKind(sem.ctx.spine) == KindOf(Sym(t)) && TopDone(sem.ctx.spine) == []
    requires t.Node? && |t.kids| > 1 && Valid(t.kids[0]) && Sym(t.kids[0]) == Sym(t)
    requires |t.kids| == 3 ==> t.kids[1].Leaf?
    ensures Yields(if |t.kids| == 3 then Then(Effect(t.kids[0], sem), t.kids[1])
                   else Effect(t.kids[0], sem),
                   LegalItems(KindOf(Sym(t)), Items(t.kids[0])),
                   WithDone(sem.ctx.spine, Items(t.kids[0])))
    decreases t, 0, 0
  {
    ItemsEffect(t.kids[0], sem);
    if |t.kids| == 3 && Effect(t.kids[0], sem).SemGo? {
      LeafEffect(t.kids[1], Effect(t.kids[0], sem).sem);
    }
  }

  function PrefixItems(t: Tree): seq<Setting>
    requires t.Node?
  {
    if |t.kids| > 1 then Items(t.kids[0]) else []
  }

  lemma ItemsOfNode(r: int, kids: seq<Tree>)
    requires r in {4, 5, 30, 31, 34, 35} && |kids| == if r in {4, 30, 34} then 1 else if r == 5 then 2 else 3
    ensures Items(Node(r, kids)) == (if |kids| > 1 then Items(kids[0]) else [])
              + [ItemOf(if r <= 5 then KGroup else if r <= 31 then KList else KArray, kids[|kids| - 1])]
  {
  }

  lemma ListKind(t: Tree)
    requires Valid(t) && (Sym(t) == 25 || Sym(t) == 37 || Sym(t) == 39)
    ensures t.Node? && t.rule in {4, 5, 30, 31, 34, 35}
    ensures |t.kids| == if t.rule in {4, 30, 34} then 1 else if t.rule == 5 then 2 else 3
    ensures KindOf(Sym(t)) == if t.rule <= 5 then KGroup else if t.rule <= 31 then KList else KArray
  {
    ListShape(t);
  }

  lemma ItemsSnoc(t: Tree)
    requires Valid(t) && (Sym(t) == 25 || Sym(t) == 37 || Sym(t) == 39)
    ensures t.Node? && t.kids != []
    ensures Items(t) == PrefixItems(t) + [ItemOf(KindOf(Sym(t)), t.kids[|t.kids| - 1])]
  {
    ListKind(t);
    ItemsOfNode(t.rule, t.kids);
  }

  /** The outcome before the last of one to three trees. */
  function BeforeLastOf(kids: seq<Tree>, sem: Sem): (next: SemNext)
    requires ValidAll(kids) && 1 <= |kids| <= 3 && sem.vs != []
    ensures next.SemGo? ==> next.sem.vs != []
  {
    if |kids| == 1 then SemGo(sem)
    else if |kids| == 2 then Effect(kids[0], sem)
    else Then(Effect(kids[0], sem), kids[1])
  }

  /** The outcome before a list's last element. */
  function BeforeLast(t: Tree, sem: Sem): (next: SemNext)
    requires Valid(t) && t.Node? && 1 <= |t.kids| <= 3 && sem.vs != []
    ensures next.SemGo? ==> next.sem.vs != []
  {
    BeforeLastOf(t.kids, sem)
  }

  lemma ListNode(t: Tree, sem: Sem)
    requires Valid(t) && t.Node? && 1 <= |t.kids| <= 3 && sem.vs != []
    ensures 1 < t.rule <= NRULES && R2(t.rule) == |t.kids|
    ensures Effect(t, sem) == Finish(Then(BeforeLast(t, sem), t.kids[|t.kids| - 1]), t.rule)
  {
    NodeEffect(t, sem);
    ListKids(t.kids, sem);
  }

  lemma ListKids(kids: seq<Tree>, sem: Sem)
    requires ValidAll(kids) && 1 <= |kids| <= 3 && sem.vs != []
    ensures EffectAll(kids, sem) == Then(BeforeLastOf(kids, sem), kids[|kids| - 1])
  {
    if |kids| == 1 {
      EffectAll1(kids, sem);
    } else if |kids| == 2 {
      EffectAll2(kids, sem);
    } else {
      EffectAll3(kids, sem);
    }
  }

  lemma {:induction false} ListEffect(t: Tree, sem: Sem)
    requires Valid(t) && (Sym(t) == 25 || Sym(t) == 37 || Sym(t) == 39)
    requires sem.ctx.spine != [] && sem.ctx.str == "" && sem.vs != []
    requires TopKind(sem.ctx.spine) == KindOf(Sym(t)) && TopDone(sem.ctx.spine) == []
    ensures Yields(Effect(t, sem), LegalItems(KindOf(Sym(t)), Items(t)),
                   WithDone(sem.ctx.spine, Items(t)))
    decreases t, 1
  {
    ListShape(t);
    ItemsSnoc(t);
    ListNode(t, sem);
    BeforeLastEffect(t, sem);
    var last := t.kids[|t.kids| - 1];
    LastItem(t.rule, last, KindOf(Sym(t)), BeforeLast(t, sem), sem.ctx.spine, PrefixItems(t));
  }

  /** The last element after those before it. */
  lemma {:induction false} LastItem(r: int, last: Tree, kind: Kind, next: SemNext, spine: seq<Frame>,
                                    before: seq<Setting>)
    requires r in {4, 5, 30, 31, 34, 35} && Valid(last) && spine != [] && TopKind(spine) == kind
    requires Sym(last) == match kind case KGroup => 28 case KArray => 36 case KList => 34
    requires Yields(next, LegalItems(kind, before), WithDone(spine, before)) && (next.SemGo? ==> next.sem.vs != [])
    requires Then(next, last).SemGo? ==> 0 <= R2(r) < |Then(next, last).sem.vs|
    ensures var items := before + [ItemOf(kind, last)];
            Yields(Finish(Then(next, last), r), LegalItems(kind, items), WithDone(spine, items))
    decreases last, 3
  {
    WithSnoc(spine, before, ItemOf(kind, last));
    LegalSnoc(kind, before, ItemOf(kind, last));
    if next.SemGo? {
      LastElement(r, last, kind, next.sem);
    }
  }

  lemma {:induction false} BeforeLastEffect(t: Tree, sem: Sem)
    requires Valid(t) && (Sym(t) == 25 || Sym(t) == 37 || Sym(t) == 39)
    requires sem.ctx.spine != [] && sem.ctx.str == "" && sem.vs != []
    requires TopKind(sem.ctx.spine) == KindOf(Sym(t)) && TopDone(sem.ctx.spine) == []
    ensures t.Node? && 1 <= |t.kids| <= 3
    ensures Yields(BeforeLast(t, sem), LegalItems(KindOf(Sym(t)), PrefixItems(t)),
                   WithDone(sem.ctx.spine, PrefixItems(t)))
    decreases t, 0, 1
  {
    ListShape(t);
    if |t.kids| > 1 {
      PrefixEffect(t, sem);
    } else {
      assert WithDone(sem.ctx.spine, []) == sem.ctx.spine;
    }
  }

  /** What a list's last element and the end of its rule do. */
  lemma {:induction false} LastElement(r: int, last: Tree, kind: Kind, sem: Sem)
    requires r in {4, 5, 30, 31, 34, 35}
    requires Valid(last) && sem.ctx.spine != [] && sem.ctx.str == "" && sem.vs != []
    requires TopKind(sem.ctx.spine) == kind
    requires Sym(last) == match kind case KGroup => 28 case KArray => 36 case KList => 34
    requires Effect(last, sem).SemGo? ==> 0 <= R2(r) < |Effect(last, sem).sem.vs|
    ensures var done, s := TopDone(sem.ctx.spine), ItemOf(kind, last);
            Yields(Finish(Effect(last, sem), r), LegalNext(kind, done, s), WithDone(sem.ctx.spine, done + [s]))
    decreases last, 2
  {
    ElementEffect(last, kind, sem);
    if Effect(last, sem).SemGo? {
      PlainAct(r, Effect(last, sem).sem);
    }
  }

  // ----- settings -----

  /** The spine after a member's name has been read. */
  function Named(spine: seq<Frame>, name: string): seq<Frame>
    requires spine != []
  {
    WithDone(spine, TopDone(spine) + [Setting(Some(name), NoneV)])
  }

  lemma NameEffect(t: Tree, sem: Sem)
    requires t.Leaf? && t.token.TName? && sem.ctx.spine != [] && sem.ctx.str == ""
    requires TopKind(sem.ctx.spine).KGroup? && sem.vs != [] && Valid(Node(11, []))
    ensures var name := t.token.sval;
            var next := Then(Effect(t, sem), Node(11, []));
            var ok := ValidName(name) && !HasMember(TopDone(sem.ctx.spine), name);
            Yields(next, ok, Named(sem.ctx.spine, name)) && (ok ==> Slot(next.sem.ctx, 34))
  {
    LeafEffect(t, sem);
    var sem' := Effect(t, sem).sem;
    NodeEffect(Node(11, []), sem');
    assert Act(11, sem'.ctx, sem'.vs) == BeginSetting(sem'.ctx, t.token.sval);
  }

  lemma NamedPlace(spine: seq<Frame>, name: string, v: Value)
    requires spine != [] && TopKind(spine).KGroup?
    ensures Place(Named(spine, name), v) ==
            WithDone(spine, TopDone(spine) + [Setting(Some(name), v)])
  {
    var done := TopDone(Named(spine, name));
    assert done[..|done| - 1] == TopDone(spine);
  }

  lemma TerminatorEffect(t: Tree, sem: Sem)
    requires Valid(t) && Sym(t) == 27 && sem.ctx.spine != [] && sem.vs != []
    ensures Effect(t, sem).SemGo? && Effect(t, sem).sem.ctx == sem.ctx
  {
    TerminatorShape(t);
    NodeEffect(t, sem);
    if t.kids == [] {
      PlainAct(t.rule, sem);
    } else {
      EffectAll1(t.kids, sem);
      LeafEffect(t.kids[0], sem);
      PlainAct(t.rule, Effect(t.kids[0], sem).sem);
    }
  }

  lemma {:induction false} SettingEffect(t: Tree, sem: Sem)
    requires Valid(t) && Sym(t) == 28 && sem.ctx.spine != [] && sem.ctx.str == "" && sem.vs != []
    requires TopKind(sem.ctx.spine).KGroup?
    ensures var done, s := TopDone(sem.ctx.spine), Member(t);
            Yields(Effect(t, sem), LegalNext(KGroup, done, s), WithDone(sem.ctx.spine, done + [s]))
    decreases t, 0
  {
    SettingShape(t);
    NodeEffect(t, sem);
    EffectAll5(t.kids, sem);
    var name, v := t.kids[0].token.sval, Denote(t.kids[3]);
    LegalMember(TopDone(sem.ctx.spine), name, v);
    NameEffect(t.kids[0], sem);
    var named := Then(Effect(t.kids[0], sem), t.kids[1]);
    if named.SemGo? {
      LeafEffect(t.kids[2], named.sem);
      var sem' := Effect(t.kids[2], named.sem).sem;
      ValueEffect(t.kids[3], sem');
      NamedPlace(sem.ctx.spine, name, v);
      if Effect(t.kids[3], sem').SemGo? {
        var sem'' := Effect(t.kids[3], sem').sem;
        TerminatorEffect(t.kids[4], sem'');
        PlainAct(12, Effect(t.kids[4], sem'').sem);
      }
    }
  }
}
