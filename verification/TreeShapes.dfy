/** The shape of a valid derivation tree by the symbol at its root, and how running the
    actions of a node runs those of its children. */
module TreeShapes {
  import opened Wrappers
  import opened Settings
  import opened ParseActions
  import opened GrammarTables
  import opened LrParser
  import opened Derivations
  import opened Meaning

  // ----- shapes -----

  lemma LeafOrNode(t: Tree)
    requires Valid(t)
    ensures if t.Leaf? then Sym(t) < NTOKENS else NTOKENS <= Sym(t)
  {
  }

  lemma ValueShape(t: Tree)
    requires Valid(t) && Sym(t) == 34
    ensures t.Node? && 17 <= t.rule <= 20 && |t.kids| == 1 && Valid(t.kids[0])
    ensures var x := Sym(t.kids[0]);
            if t.rule == 17 then x == 36 else if t.rule == 18 then x == 30
            else if t.rule == 19 then x == 32 else x == 41
  {
  }

  lemma ScalarKid(r: int, kids: seq<Tree>)
    requires 23 <= r <= 28 && Valid(Node(r, kids))
    ensures |kids| == 1 && kids[0].Leaf? && Sym(kids[0]) == RhsAt(r, 0) < 9
  {
    assert R2(r) == 1;
    assert Valid(kids[0]) && Sym(kids[0]) == RhsAt(r, 0);
    assert RhsAt(r, 0) < 9;
    LeafOrNode(kids[0]);
  }

  lemma StringKid(kids: seq<Tree>)
    requires Valid(Node(29, kids))
    ensures |kids| == 1 && Valid(kids[0]) && Sym(kids[0]) == 35
  {
  }

  lemma SimpleRule(r: int)
    requires 1 < r <= NRULES && R1(r) == 36
    ensures 23 <= r <= 29
  {
  }

  lemma SimpleShape(t: Tree)
    requires Valid(t) && Sym(t) == 36
    ensures t.Node? && 23 <= t.rule <= 29 && |t.kids| == 1 && Valid(t.kids[0])
    ensures if t.rule == 29 then Sym(t.kids[0]) == 35
            else t.kids[0].Leaf? && Sym(t.kids[0]) == RhsAt(t.rule, 0)
  {
    SimpleRule(t.rule);
    if t.rule == 29 {
      StringKid(t.kids);
    } else {
      ScalarKid(t.rule, t.kids);
    }
  }

  lemma FirstTextKid(kids: seq<Tree>)
    requires Valid(Node(21, kids))
    ensures |kids| == 1 && kids[0].Leaf? && kids[0].token.TString?
  {
    LeafOrNode(kids[0]);
  }

  lemma MoreTextKids(kids: seq<Tree>)
    requires Valid(Node(22, kids))
    ensures |kids| == 2 && Valid(kids[0]) && Sym(kids[0]) == 35
    ensures kids[1].Leaf? && kids[1].token.TString?
  {
    LeafOrNode(kids[1]);
  }

  lemma StringRule(r: int)
    requires 1 < r <= NRULES && R1(r) == 35
    ensures r == 21 || r == 22
  {
  }

  lemma StringShape(t: Tree)
    requires Valid(t) && Sym(t) == 35
    ensures t.Node? && (t.rule == 21 || t.rule == 22) && |t.kids| == t.rule - 20
    ensures t.rule == 22 ==> Valid(t.kids[0]) && Sym(t.kids[0]) == 35
    ensures var k := t.kids[|t.kids| - 1]; k.Leaf? && k.token.TString?
  {
    StringRule(t.rule);
    if t.rule == 21 {
      FirstTextKid(t.kids);
    } else {
      MoreTextKids(t.kids);
    }
  }

  lemma BracketShape(t: Tree)
    requires Valid(t) && (Sym(t) == 30 || Sym(t) == 32 || Sym(t) == 41)
    ensures t.Node? && |t.kids| == 4 && Valid(t.kids[2])
    ensures t.rule == if Sym(t) == 30 then 14 else if Sym(t) == 32 then 16 else 39
    ensures Sym(t.kids[2]) == if Sym(t) == 30 then 40 else if Sym(t) == 32 then 38 else 26
    ensures t.kids[0].Leaf? && t.kids[3].Leaf?
    ensures t.kids[1] == Node(if t.rule == 14 then 13 else if t.rule == 16 then 15 else 38, [])
  {
    assert t.Node? && (t.rule == 14 || t.rule == 16 || t.rule == 39);
    LeafOrNode(t.kids[0]);
    LeafOrNode(t.kids[3]);
    MarkerShape(t.kids[1]);
  }

  /** The markers that carry the mid-rule actions derive the empty string. */
  lemma MarkerShape(t: Tree)
    requires Valid(t) && (Sym(t) == 29 || Sym(t) == 31 || Sym(t) == 33 || Sym(t) == 42)
    ensures t == Node(if Sym(t) == 29 then 11 else if Sym(t) == 31 then 13
                      else if Sym(t) == 33 then 15 else 38, [])
  {
  }

  lemma SettingShape(t: Tree)
    requires Valid(t) && Sym(t) == 28
    ensures t.Node? && t.rule == 12 && |t.kids| == 5
    ensures t.kids[0].Leaf? && t.kids[0].token.TName? && t.kids[1] == Node(11, [])
    ensures t.kids[2] == Leaf(TEquals) && Valid(t.kids[3]) && Sym(t.kids[3]) == 34
    ensures Valid(t.kids[4]) && Sym(t.kids[4]) == 27
  {
    assert t.Node? && t.rule == 12;
    LeafOrNode(t.kids[0]);
    LeafOrNode(t.kids[2]);
    MarkerShape(t.kids[1]);
  }

  lemma TerminatorShape(t: Tree)
    requires Valid(t) && Sym(t) == 27
    ensures t.Node? && 8 <= t.rule <= 10
    ensures t.kids == [] || (|t.kids| == 1 && t.kids[0].Leaf?)
  {
    assert t.Node? && 8 <= t.rule <= 10;
    if t.rule > 8 {
      LeafOrNode(t.kids[0]);
    }
  }

  /** Lists that may be empty: of settings, of values, of simple values, the whole input. */
  predicate IsOptional(x: int) { x == 24 || x == 26 || x == 38 || x == 40 }

  function ListOf(x: int): int {
    if x == 38 then 37 else if x == 40 then 39 else 25
  }

  lemma OptionalShape(t: Tree)
    requires Valid(t) && IsOptional(Sym(t))
    ensures t.Node? && (t.kids == [] ||
              (|t.kids| == 1 && Valid(t.kids[0]) && Sym(t.kids[0]) == ListOf(Sym(t))))
    ensures if t.kids == [] then t.rule in {2, 6, 32, 36} else t.rule in {3, 7, 33, 37}
  {
  }

  function ElementOf(x: int): int { if x == 37 then 34 else if x == 39 then 36 else 28 }

  lemma OneKid(r: int, kids: seq<Tree>)
    requires (r == 4 || r == 30 || r == 34) && Valid(Node(r, kids))
    ensures |kids| == 1 && Valid(kids[0]) && Sym(kids[0]) == ElementOf(R1(r))
  {
    assert R2(r) == 1;
    assert Sym(kids[0]) == RhsAt(r, 0);
  }

  lemma SettingsKids(kids: seq<Tree>)
    requires Valid(Node(5, kids))
    ensures |kids| == 2 && Valid(kids[0]) && Valid(kids[1])
    ensures Sym(kids[0]) == 25 && Sym(kids[1]) == 28
  {
  }

  lemma CommaKids(r: int, kids: seq<Tree>)
    requires (r == 31 || r == 35) && Valid(Node(r, kids))
    ensures |kids| == 3 && Valid(kids[0]) && kids[1] == Leaf(TComma) && Valid(kids[2])
    ensures Sym(kids[0]) == R1(r) && Sym(kids[2]) == ElementOf(R1(r))
  {
    assert R2(r) == 3;
    assert Sym(kids[0]) == RhsAt(r, 0) && Sym(kids[1]) == RhsAt(r, 1) == 17;
    assert Sym(kids[2]) == RhsAt(r, 2);
    LeafOrNode(kids[1]);
  }

  lemma ListRule(r: int)
    requires 1 < r <= NRULES && (R1(r) == 25 || R1(r) == 37 || R1(r) == 39)
    ensures r in (if R1(r) == 25 then {4, 5} else if R1(r) == 37 then {30, 31} else {34, 35})
  {
  }

  /** One element, or a list, a comma unless it is a list of settings, and one more. */
  lemma ListShape(t: Tree)
    requires Valid(t) && (Sym(t) == 25 || Sym(t) == 37 || Sym(t) == 39)
    ensures t.Node? && |t.kids| >= 1
    ensures |t.kids| == if t.rule in {4, 30, 34} then 1 else if t.rule == 5 then 2 else 3
    ensures t.rule in (if Sym(t) == 25 then {4, 5} else if Sym(t) == 37 then {30, 31} else {34, 35})
    ensures |t.kids| > 1 ==> Valid(t.kids[0]) && Sym(t.kids[0]) == Sym(t)
    ensures |t.kids| == 3 ==> t.kids[1] == Leaf(TComma)
    ensures var k := t.kids[|t.kids| - 1]; Valid(k) && Sym(k) == ElementOf(Sym(t))
  {
    ListRule(t.rule);
    if t.rule in {4, 30, 34} {
      OneKid(t.rule, t.kids);
    } else if t.rule == 5 {
      SettingsKids(t.kids);
    } else {
      CommaKids(t.rule, t.kids);
    }
  }

  // ----- running a node -----

  /** Continue with one more tree. */
  function Then(next: SemNext, t: Tree): SemNext
    requires Valid(t) && (next.SemGo? ==> next.sem.vs != [])
  {
    match next
    case SemStop(result) => SemStop(result)
    case SemGo(sem) => Effect(t, sem)
  }

  function Finish(next: SemNext, r: int): SemNext
    requires 1 < r <= NRULES && 0 <= R2(r) && (next.SemGo? ==> R2(r) < |next.sem.vs|)
  {
    match next
    case SemStop(result) => SemStop(result)
    case SemGo(sem) => ReduceFreely(r, sem)
  }

  lemma NodeEffect(t: Tree, sem: Sem)
    requires Valid(t) && t.Node? && sem.vs != []
    ensures 1 < t.rule <= NRULES && R2(t.rule) == |t.kids| && ValidAll(t.kids)
    ensures Effect(t, sem) == Finish(EffectAll(t.kids, sem), t.rule)
  {
  }

  /** The children from the second on. */
  lemma KidsTail(ts: seq<Tree>, sem: Sem)
    requires ValidAll(ts) && ts != [] && sem.vs != []
    ensures ValidAll(ts[1..])
    ensures EffectAll(ts, sem) ==
            match Effect(ts[0], sem)
            case SemStop(result) => SemStop(result)
            case SemGo(sem') => EffectAll(ts[1..], sem')
  {
  }

  lemma EffectAll1(ts: seq<Tree>, sem: Sem)
    requires ValidAll(ts) && |ts| == 1 && sem.vs != []
    ensures EffectAll(ts, sem) == Effect(ts[0], sem)
  {
    KidsTail(ts, sem);
    assert ts[1..] == [];
  }

  lemma EffectAll2(ts: seq<Tree>, sem: Sem)
    requires ValidAll(ts) && |ts| == 2 && sem.vs != []
    ensures EffectAll(ts, sem) == Then(Effect(ts[0], sem), ts[1])
  {
    KidsTail(ts, sem);
    if Effect(ts[0], sem).SemGo? {
      EffectAll1(ts[1..], Effect(ts[0], sem).sem);
    }
  }

  lemma EffectAll3(ts: seq<Tree>, sem: Sem)
    requires ValidAll(ts) && |ts| == 3 && sem.vs != []
    ensures EffectAll(ts, sem) == Then(Then(Effect(ts[0], sem), ts[1]), ts[2])
  {
    KidsTail(ts, sem);
    if Effect(ts[0], sem).SemGo? {
      EffectAll2(ts[1..], Effect(ts[0], sem).sem);
    }
  }

  lemma EffectAll4(ts: seq<Tree>, sem: Sem)
    requires ValidAll(ts) && |ts| == 4 && sem.vs != []
    ensures EffectAll(ts, sem) == Then(Then(Then(Effect(ts[0], sem), ts[1]), ts[2]), ts[3])
  {
    KidsTail(ts, sem);
    if Effect(ts[0], sem).SemGo? {
      EffectAll3(ts[1..], Effect(ts[0], sem).sem);
    }
  }

  lemma EffectAll5(ts: seq<Tree>, sem: Sem)
    requires ValidAll(ts) && |ts| == 5 && sem.vs != []
    ensures EffectAll(ts, sem) ==
            Then(Then(Then(Then(Effect(ts[0], sem), ts[1]), ts[2]), ts[3]), ts[4])
  {
    KidsTail(ts, sem);
    if Effect(ts[0], sem).SemGo? {
      EffectAll4(ts[1..], Effect(ts[0], sem).sem);
    }
  }
}
