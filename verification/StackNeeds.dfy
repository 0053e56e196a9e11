/** When exactly the parser accepts, and how much stack reading a tree of settings takes. */
module StackNeeds {
  import opened Wrappers
  import opened Settings
  import opened ParseActions
  import opened GrammarTables
  import opened LrParser
  import opened Derivations
  import opened ParserTheorems
  import opened Meaning
  import opened TreeShapes
  import opened TreeEffects

  /** An input with a derivation is accepted exactly if what the derivation denotes is legal
      and its evaluation fits the stacks; the result is then what the derivation denotes. */
  lemma AcceptedIffLegal(t: Tree, tokens: seq<Token>)
    requires Derives(t, tokens)
    ensures Parse(tokens).Accepted? <==>
              LegalItems(KGroup, Items(t)) && 1 + Height(t) < YYMAXDEPTH
    ensures Parse(tokens).Accepted? ==>
              Parse(tokens).ctx.spine == [Frame(None, KGroup, Items(t))]
    ensures LegalItems(KGroup, Items(t)) && 1 + Height(t) >= YYMAXDEPTH ==>
              Parse(tokens) == Rejected(MemoryExhausted)
  {
    ParserIsComplete(t, tokens);
    EvalIsEffect(t, InitialSem);
    ItemsEffect(t, InitialSem);
    EvalNeverAccepts(t, InitialSem);
  }

  /** Stopping in the middle of a derivation is never acceptance. */
  lemma {:induction false} EvalNeverAccepts(t: Tree, sem: Sem)
    requires Valid(t) && sem.vs != []
    ensures Eval(t, sem).SemStop? ==> !Eval(t, sem).result.Accepted?
    decreases t
  {
    if t.Node? {
      EvalAllNeverAccepts(t.kids, sem);
    }
  }

  lemma {:induction false} EvalAllNeverAccepts(ts: seq<Tree>, sem: Sem)
    requires ValidAll(ts) && sem.vs != []
    ensures EvalAll(ts, sem).SemStop? ==> !EvalAll(ts, sem).result.Accepted?
    decreases ts
  {
    if ts != [] {
      EvalNeverAccepts(ts[0], sem);
      if Eval(ts[0], sem).SemGo? {
        EvalAllNeverAccepts(ts[1..], Eval(ts[0], sem).sem);
      }
    }
  }

  // ----- stack entries that a tree of settings takes -----

  /** Stack entries for a value, above those that are there before it. */
  function Need(v: Value): nat
    decreases v, 1
  {
    match v
    case GroupV(list) => Max(4, 2 + ItemsNeed(KGroup, list))
    case ArrayV(list) => Max(4, 2 + ItemsNeed(KArray, list))
    case ListV(list) => Max(4, 2 + ItemsNeed(KList, list))
    case _ => 1
  }

  /** Stack entries for one element, or for one member with its name and terminator. */
  function ItemNeed(kind: Kind, s: Setting): nat
    decreases s, 2
  {
    if kind.KGroup? then Max(5, 3 + Need(s.value)) else Need(s.value)
  }

  /** Lists are read from the left: everything before the last item is one entry by then. */
  function ItemsNeed(kind: Kind, list: seq<Setting>): nat
    decreases list, 0
  {
    if list == [] then 1
    else if |list| == 1 then ItemNeed(kind, list[0])
    else
      Max(ItemsNeed(kind, list[..|list| - 1]),
          (if kind.KGroup? then 1 else 2) + ItemNeed(kind, list[|list| - 1]))
  }

  lemma {:induction false} NeedPositive(v: Value)
    ensures Need(v) >= 1
  {
  }

  // ----- no derivation takes less -----

  lemma {:induction false} KidHeight(ts: seq<Tree>, i: nat)
    requires i < |ts|
    ensures HeightAll(ts) >= i + Height(ts[i]) && HeightAll(ts) >= |ts|
  {
    HeightAtLeast(ts);
    if i > 0 {
      KidHeight(ts[1..], i - 1);
    }
  }

  /** A node is at least as high as its number of children and as each child on its place. */
  lemma NodeHeight(t: Tree, i: nat)
    requires t.Node? && i < |t.kids|
    ensures Height(t) >= i + Height(t.kids[i]) && Height(t) >= |t.kids|
  {
    KidHeight(t.kids, i);
  }

  lemma SimpleNeed(t: Tree)
    requires Valid(t) && Sym(t) == 36
    ensures !Denote(t).IsAggregate() && Need(Denote(t)) == 1
  {
    SimpleShape(t);
  }

  lemma {:induction false} ValueNeed(t: Tree)
    requires Valid(t) && (Sym(t) == 34 || Sym(t) == 36)
    ensures Need(Denote(t)) <= Height(t)
    decreases t, 0
  {
    if Sym(t) == 36 {
      SimpleNeed(t);
    } else {
      ValueShape(t);
      NodeHeight(t, 0);
      if t.rule == 17 {
        SimpleNeed(t.kids[0]);
      } else {
        BracketNeed(t.kids[0]);
      }
    }
  }

  lemma {:induction false} BracketNeed(t: Tree)
    requires Valid(t) && (Sym(t) == 30 || Sym(t) == 32 || Sym(t) == 41)
    ensures Need(Denote(t)) <= Height(t)
    decreases t, 0
  {
    BracketShape(t);
    NodeHeight(t, 2);
    var kind, list := KindOf(Sym(t)), Items(t.kids[2]);
    assert KindOf(Sym(t.kids[2])) == kind && Denote(t) == Aggregate(kind, list);
    ItemsNeedIsMet(t.kids[2]);
    AggregateNeed(kind, list);
  }

  lemma AggregateNeed(kind: Kind, list: seq<Setting>)
    ensures Need(Aggregate(kind, list)) == Max(4, 2 + ItemsNeed(kind, list))
  {
  }

  /** Reading one item of a list. */
  lemma {:induction false} ElementNeed(t: Tree, kind: Kind)
    requires Valid(t)
    requires Sym(t) == match kind case KGroup => 28 case KArray => 36 case KList => 34
    ensures ItemNeed(kind, ItemOf(kind, t)) <= Height(t)
    decreases t, 1
  {
    if kind.KGroup? {
      SettingShape(t);
      NodeHeight(t, 3);
      ValueNeed(t.kids[3]);
    } else {
      ValueNeed(t);
    }
  }

  lemma NeedSnoc(kind: Kind, list: seq<Setting>, s: Setting)
    ensures ItemsNeed(kind, list + [s]) ==
            if list == [] then ItemNeed(kind, s)
            else Max(ItemsNeed(kind, list), (if kind.KGroup? then 1 else 2) + ItemNeed(kind, s))
  {
    assert (list + [s])[..|list|] == list;
  }

  lemma {:induction false} ItemsNonEmpty(t: Tree)
    requires Valid(t) && (Sym(t) == 25 || Sym(t) == 37 || Sym(t) == 39)
    ensures Items(t) != []
  {
    ItemsSnoc(t);
  }

  lemma {:induction false} ItemsNeedIsMet(t: Tree)
    requires Valid(t) && IsItems(Sym(t))
    ensures ItemsNeed(KindOf(Sym(t)), Items(t)) <= Height(t)
    decreases t, 2
  {
    if IsOptional(Sym(t)) {
      OptionalShape(t);
      if t.kids != [] {
        NodeHeight(t, 0);
        ItemsNeedIsMet(t.kids[0]);
      }
    } else {
      ListNeed(t);
    }
  }

  lemma {:induction false} ListNeed(t: Tree)
    requires Valid(t) && (Sym(t) == 25 || Sym(t) == 37 || Sym(t) == 39)
    ensures ItemsNeed(KindOf(Sym(t)), Items(t)) <= Height(t)
    decreases t, 1
  {
    ListShape(t);
    ItemsSnoc(t);
    var kind, last := KindOf(Sym(t)), t.kids[|t.kids| - 1];
    ElementNeed(last, kind);
    NeedSnoc(kind, PrefixItems(t), ItemOf(kind, last));
    NodeHeight(t, |t.kids| - 1);
    PrefixNeed(t);
  }

  /** What comes before the last item, if anything. */
  lemma {:induction false} PrefixNeed(t: Tree)
    requires Valid(t) && (Sym(t) == 25 || Sym(t) == 37 || Sym(t) == 39)
    ensures t.Node? && t.kids != [] && (PrefixItems(t) == [] <==> |t.kids| == 1)
    ensures |t.kids| > 1 ==>
              && |t.kids| == (if KindOf(Sym(t)).KGroup? then 2 else 3)
              && ItemsNeed(KindOf(Sym(t)), PrefixItems(t)) <= Height(t)
    decreases t, 0
  {
    ListShape(t);
    ListKind(t);
    if |t.kids| > 1 {
      NodeHeight(t, 0);
      ItemsNonEmpty(t.kids[0]);
      ItemsNeedIsMet(t.kids[0]);
    }
  }
}
