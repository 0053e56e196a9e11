/** The derivation that the tables alone find, whatever the actions do, and that it is the only
    one. */
module ParseTrees {
  import opened Wrappers
  import opened ParseActions
  import opened GrammarTables
  import opened GrammarFacts
  import opened LrParser
  import opened Derivations

  // ----- trees beside the state stack -----

  /** One tree for each state above the bottom, with the state's symbol; together with the rest
      of the input they yield all tokens. */
  ghost predicate Spells(forest: seq<Tree>, ss: seq<int>, input: seq<Token>, tokens: seq<Token>) {
    && |forest| == |ss| - 1 && ValidAll(forest)
    && (forall i | 0 < i < |ss| :: 0 <= ss[i] < NSTATES && Sym(forest[i - 1]) == Stos(ss[i]))
    && YieldAll(forest) + input == tokens
  }

  lemma {:induction false} YieldConcat(a: seq<Tree>, b: seq<Tree>)
    ensures YieldAll(a + b) == YieldAll(a) + YieldAll(b)
  {
    if a == [] {
      assert a + b == b;
    } else {
      assert (a + b)[0] == a[0] && (a + b)[1..] == a[1..] + b;
      YieldConcat(a[1..], b);
    }
  }

  lemma ShiftSpells(forest: seq<Tree>, ss: seq<int>, input: seq<Token>, tokens: seq<Token>, q: int)
    requires Spells(forest, ss, input, tokens) && input != []
    requires 0 <= q < NSTATES && Stos(q) == Code(input[0])
    ensures Spells(forest + [Leaf(input[0])], ss + [q], input[1..], tokens)
  {
    var leaf := [Leaf(input[0])];
    YieldConcat(forest, leaf);
    assert YieldAll(leaf) == [input[0]];
    assert YieldAll(forest + leaf) + input[1..] == YieldAll(forest) + input;
  }

  lemma SymbolBeside(forest: seq<Tree>, ss: seq<int>, input: seq<Token>, tokens: seq<Token>, i: nat)
    requires Spells(forest, ss, input, tokens) && i < |forest|
    ensures Valid(forest[i]) && 0 <= ss[i + 1] < NSTATES && Sym(forest[i]) == Stos(ss[i + 1])
  {
    assert Sym(forest[i + 1 - 1]) == Stos(ss[i + 1]);
  }

  /** The tree beside a stack entry of the handle has the symbol the rule calls for. */
  lemma HandleTree(forest: seq<Tree>, ss: seq<int>, input: seq<Token>, tokens: seq<Token>, r: int, n: nat, i: nat)
    requires Spells(forest, ss, input, tokens) && 1 < r <= NRULES && i < n == R2(r) <= |forest| && Handle(ss, r, n)
    ensures var t := forest[|forest| - n + i]; Valid(t) && Sym(t) == RhsAt(r, i)
  {
    SymbolBeside(forest, ss, input, tokens, |forest| - n + i);
    HandleSymbol(ss, r, n, i);
  }

  lemma HandleIsNode(forest: seq<Tree>, ss: seq<int>, input: seq<Token>, tokens: seq<Token>, r: int, n: nat)
    requires Spells(forest, ss, input, tokens) && 1 < r <= NRULES && n == R2(r) <= |forest| && Handle(ss, r, n)
    ensures Valid(Node(r, forest[|forest| - n..]))
  {
    var m := |forest| - n;
    forall i | 0 <= i < n ensures Valid(forest[m..][i]) && Sym(forest[m..][i]) == RhsAt(r, i) {
      HandleTree(forest, ss, input, tokens, r, n, i);
      assert forest[m..][i] == forest[m + i];
    }
  }

  /** The last trees from the `m`-th on put under a new node. */
  function Grafted(forest: seq<Tree>, m: nat, r: int): seq<Tree>
    requires m <= |forest|
  {
    forest[..m] + [Node(r, forest[m..])]
  }

  lemma GraftedYield(forest: seq<Tree>, m: nat, r: int)
    requires m <= |forest|
    ensures YieldAll(Grafted(forest, m, r)) == YieldAll(forest)
  {
    var kids, node := forest[m..], [Node(r, forest[m..])];
    assert forest == forest[..m] + kids;
    YieldConcat(forest[..m], kids);
    YieldConcat(forest[..m], node);
    assert YieldAll(node) == YieldAll(kids);
  }

  lemma ReducedSymbols(ss: seq<int>, r: int)
    requires Path(ss) && Reducible(ss) && r == DefaultAct(TopState(ss))
    ensures var ss' := Reduced(ss); var m := |ss| - R2(r);
            && |ss'| == m + 1 && ss'[..m] == ss[..m]
            && 0 <= ss'[m] < NSTATES && Stos(ss'[m]) == R1(r)
  {
    var rest := ss[..|ss| - R2(r)];
    EdgeRange(TopState(rest), GotoOf(TopState(rest), R1(r)));
  }

  lemma KeptSymbol(forest: seq<Tree>, ss: seq<int>, input: seq<Token>, tokens: seq<Token>,
                   m: nat, ss': seq<int>, i: nat)
    requires Spells(forest, ss, input, tokens) && 0 < i <= m <= |forest|
    requires |ss'| == m + 2 && ss'[..m + 1] == ss[..m + 1]
    ensures 0 <= ss'[i] < NSTATES && Sym(forest[i - 1]) == Stos(ss'[i])
  {
    assert ss'[i] == ss'[..m + 1][i] == ss[..m + 1][i];
    SymbolBeside(forest, ss, input, tokens, i - 1);
  }

  lemma GraftedSymbols(forest: seq<Tree>, ss: seq<int>, input: seq<Token>, tokens: seq<Token>, r: int)
    requires Spells(forest, ss, input, tokens) && Path(ss)
    requires Reducible(ss) && r == DefaultAct(TopState(ss)) && 0 <= R2(r) <= |forest|
    ensures var grafted := Grafted(forest, |forest| - R2(r), r); var ss' := Reduced(ss);
      && |grafted| == |ss'| - 1
      && forall i | 0 < i < |ss'| :: 0 <= ss'[i] < NSTATES && Sym(grafted[i - 1]) == Stos(ss'[i])
  {
    ReducedSymbols(ss, r);
    var m := |forest| - R2(r);
    var ss' := Reduced(ss);
    forall i | 0 < i < |ss'|
      ensures 0 <= ss'[i] < NSTATES && Sym(Grafted(forest, m, r)[i - 1]) == Stos(ss'[i])
    {
      if i <= m {
        KeptSymbol(forest, ss, input, tokens, m, ss', i);
      }
    }
  }

  lemma ReduceSpells(forest: seq<Tree>, ss: seq<int>, input: seq<Token>, tokens: seq<Token>, r: int)
    requires Spells(forest, ss, input, tokens) && Path(ss)
    requires Reducible(ss) && r == DefaultAct(TopState(ss))
    ensures 0 <= R2(r) <= |forest| && Valid(Node(r, forest[|forest| - R2(r)..]))
    ensures Spells(Grafted(forest, |forest| - R2(r), r), Reduced(ss), input, tokens)
  {
    HandleIsNode(forest, ss, input, tokens, r, R2(r));
    GraftedYield(forest, |forest| - R2(r), r);
    GraftedSymbols(forest, ss, input, tokens, r);
  }

  lemma StartIsAtBottom(ss: seq<int>, i: nat)
    requires Path(ss) && i < |ss| && ss[i] == 0
    ensures i == 0
  {
    if i > 0 {
      EdgeRange(ss[i - 1], ss[i]);
    }
  }

  /** The final state is entered from a stack that holds just a configuration. */
  lemma FinalForest(forest: seq<Tree>, ss: seq<int>, tokens: seq<Token>)
    requires Spells(forest, ss, [], tokens) && Path(ss) && TopState(ss) == 2
    ensures |forest| == 1 && Derives(forest[0], tokens)
  {
    PathRange(ss);
    var h := |ss| - 1;
    assert ss[h - 1] == 0;
    StartIsAtBottom(ss, h - 1);
    assert forest == [forest[0]] && Sym(forest[0]) == 24;
    assert YieldAll(forest) == Yield(forest[0]) + [];
  }

  // ----- building the tree -----

  /** The parser without its actions and its stack limit, and with trees for values. */
  datatype Builder = Builder(ss: seq<int>, forest: seq<Tree>, input: seq<Token>)

  ghost predicate Built(b: Builder) { Path(b.ss) && |b.forest| == |b.ss| - 1 }

  datatype Move = On(b: Builder) | End(t: Option<Tree>)

  function Work(b: Builder): nat
    requires Path(b.ss)
  {
    7 * |b.input| + |b.ss| + Pending(TopState(b.ss))
  }

  function ShiftTree(b: Builder, q: int): (b': Builder)
    requires Built(b) && b.input != [] && Edge(TopState(b.ss), q) && Pending(q) <= 5
    ensures Built(b') && Work(b') < Work(b)
  {
    PathExtends(b.ss, q);
    Builder(b.ss + [q], b.forest + [Leaf(b.input[0])], b.input[1..])
  }

  function ReduceTree(b: Builder, r: int): (b': Builder)
    requires Built(b) && Reducible(b.ss) && r == DefaultAct(TopState(b.ss))
    ensures Built(b') && Work(b') < Work(b)
  {
    ReducedIsPath(b.ss);
    Builder(Reduced(b.ss), Grafted(b.forest, |b.forest| - R2(r), r), b.input)
  }

  function Advance(b: Builder): (m: Move)
    requires Built(b)
    ensures m.On? ==> Built(m.b) && Work(m.b) < Work(b)
  {
    PathRange(b.ss);
    var q := TopState(b.ss);
    match ActionOf(q, Look(b.input))
    case Error => End(None)
    case Shift(s) =>
      ShiftFacts(q, Look(b.input));
      if s == FINAL then End(if b.forest == [] then None else Some(b.forest[0])) else On(ShiftTree(b, s))
    case Reduce(r) =>
      ReductionsFit(b.ss, Look(b.input));
      On(ReduceTree(b, r))
  }

  function BuildTree(b: Builder): Option<Tree>
    requires Built(b)
    decreases Work(b)
  {
    match Advance(b)
    case End(t) => t
    case On(b') => BuildTree(b')
  }

  /** The tree that shifting and reducing by the tables alone builds. */
  function ParseTree(tokens: seq<Token>): Option<Tree> { BuildTree(Builder([0], [], tokens)) }

  // ----- what is built is a derivation -----

  lemma {:induction false} BuiltDerives(b: Builder, tokens: seq<Token>)
    requires Built(b) && Spells(b.forest, b.ss, b.input, tokens) && BuildTree(b).Some?
    ensures Derives(BuildTree(b).value, tokens)
    decreases Work(b)
  {
    PathRange(b.ss);
    match ActionOf(TopState(b.ss), Look(b.input))
    case Shift(s) =>
      ShiftFacts(TopState(b.ss), Look(b.input));
      if s == FINAL {
        assert b.input == [];
        FinalForest(b.forest, b.ss, tokens);
      } else {
        ShiftSpells(b.forest, b.ss, b.input, tokens, s);
        BuiltDerives(ShiftTree(b, s), tokens);
      }
    case Reduce(r) =>
      ReductionsFit(b.ss, Look(b.input));
      ReduceSpells(b.forest, b.ss, b.input, tokens, r);
      BuiltDerives(ReduceTree(b, r), tokens);
  }

  // ----- every derivation is built -----

  /** From here the builder gets to a stack with the further trees and states. */
  ghost predicate GetsTo(b: Builder, ss: seq<int>, forest: seq<Tree>, rest: seq<Token>)
    requires Built(b)
  {
    var b' := Builder(ss, forest, rest);
    Built(b') && BuildTree(b) == BuildTree(b')
  }

  lemma ShiftBuilds(b: Builder, token: Token, rest: seq<Token>)
    requires Built(b) && b.input == [token] + rest && CanRead(TopState(b.ss), Code(token))
    ensures GetsTo(b, b.ss + [ReadSym(TopState(b.ss), Code(token))], b.forest + [Leaf(token)], rest)
  {
    PathRange(b.ss);
    assert b.input[0] == token && b.input[1..] == rest;
    ShiftFacts(TopState(b.ss), Code(token));
    assert Advance(b) == On(ShiftTree(b, ActionOf(TopState(b.ss), Code(token)).state));
  }

  lemma ReduceBuilds(b: Builder, ss: seq<int>, forest: seq<Tree>, r: int)
    requires Built(b) && Path(ss) && ss <= b.ss && forest <= b.forest && |forest| == |ss| - 1
    requires 1 < r <= NRULES && |b.ss| == |ss| + R2(r) && EndsRule(b.ss, r)
    requires Expects(TopState(ss), R1(r)) && Follow(R1(r), Look(b.input))
    ensures GetsTo(b, ss + [GotoOf(TopState(ss), R1(r))], forest + [Node(r, b.forest[|forest|..])], b.input)
  {
    PathRange(b.ss);
    ReduceBeforeFollow(TopState(b.ss), Look(b.input));
    ReductionsFit(b.ss, Look(b.input));
    assert b.ss[..|b.ss| - R2(r)] == ss && b.forest[..|forest|] == forest;
    assert Advance(b) == On(ReduceTree(b, r));
  }

  /** Reading a whole subtree builds it and goes to the state for its symbol. */
  lemma {:induction false} TreeBuilds(t: Tree, b: Builder, rest: seq<Token>)
    requires Valid(t) && Built(b) && CanRead(TopState(b.ss), Sym(t))
    requires b.input == Yield(t) + rest && (t.Node? ==> Follow(Sym(t), Look(rest)))
    ensures GetsTo(b, b.ss + [ReadSym(TopState(b.ss), Sym(t))], b.forest + [t], rest)
    decreases t, 2
  {
    match t
    case Leaf(token) => ShiftBuilds(b, token, rest);
    case Node(r, kids) =>
      PathRange(b.ss);
      RulesReadable(TopState(b.ss), r);
      var ss := SiblingsBuild(kids, r, 0, b, rest);
      var forest := b.forest + kids;
      assert forest[|b.forest|..] == kids;
      ReduceBuilds(Builder(ss, forest, rest), b.ss, b.forest, r);
  }

  lemma {:induction false} FirstSiblingBuilds(ts: seq<Tree>, r: int, i: int, b: Builder, rest: seq<Token>)
    returns (q: int)
    requires Siblings(ts, r, i) && ts != [] && Built(b) && Readable(TopState(b.ss), r, i)
    requires b.input == YieldAll(ts) + rest && Follow(R1(r), Look(rest))
    ensures Readable(q, r, i + 1)
    ensures GetsTo(b, b.ss + [q], b.forest + [ts[0]], YieldAll(ts[1..]) + rest)
    decreases ts, 0
  {
    ReadableStep(TopState(b.ss), r, i);
    q := ReadSym(TopState(b.ss), RhsAt(r, i));
    YieldSplit(ts, rest);
    SiblingFollow(ts, r, i, rest);
    TreeBuilds(ts[0], b, YieldAll(ts[1..]) + rest);
  }

  lemma {:induction false} SiblingsBuild(ts: seq<Tree>, r: int, i: int, b: Builder, rest: seq<Token>)
    returns (ss: seq<int>)
    requires Siblings(ts, r, i) && Built(b) && Readable(TopState(b.ss), r, i)
    requires b.input == YieldAll(ts) + rest && Follow(R1(r), Look(rest))
    ensures GetsTo(b, ss, b.forest + ts, rest)
    ensures b.ss <= ss && |ss| == |b.ss| + |ts| && EndsRule(ss, r)
    decreases ts, 1
  {
    if ts == [] {
      ss := b.ss;
      ReadableEnd(b.ss, r);
      assert b == Builder(b.ss, b.forest + ts, rest);
    } else {
      SiblingsTail(ts, r, i);
      var q := FirstSiblingBuilds(ts, r, i, b, rest);
      ss := SiblingsBuild(ts[1..], r, i + 1, Builder(b.ss + [q], b.forest + [ts[0]], YieldAll(ts[1..]) + rest), rest);
      JoinForest(b.forest, ts);
      assert b.ss <= b.ss + [q] <= ss;
    }
  }

  lemma JoinForest(forest: seq<Tree>, ts: seq<Tree>)
    requires ts != []
    ensures forest + [ts[0]] + ts[1..] == forest + ts
  {
    assert ts == [ts[0]] + ts[1..];
  }

  lemma StartIsNonterminal(t: Tree)
    requires Valid(t) && Sym(t) == 24
    ensures t.Node?
  {
  }

  lemma DerivationIsBuilt(t: Tree, tokens: seq<Token>)
    requires Derives(t, tokens)
    ensures ParseTree(tokens) == Some(t)
  {
    var b := Builder([0], [], tokens);
    assert tokens == Yield(t) + [];
    assert CanRead(0, 24) && ReadSym(0, 24) == 2;
    StartIsNonterminal(t);
    TreeBuilds(t, b, []);
    assert b.ss + [2] == [0, 2] && b.forest + [t] == [t];
    assert ActionOf(2, 0) == Shift(FINAL);
    assert Advance(Builder([0, 2], [t], [])) == End(Some(t));
  }

  /** The tables find exactly the derivations of the grammar. */
  lemma TablesFindDerivations(t: Tree, tokens: seq<Token>)
    ensures ParseTree(tokens) == Some(t) <==> Derives(t, tokens)
  {
    if ParseTree(tokens) == Some(t) {
      BuiltDerives(Builder([0], [], tokens), tokens);
    }
    if Derives(t, tokens) {
      DerivationIsBuilt(t, tokens);
    }
  }

  /** The grammar is unambiguous. */
  lemma DerivationIsUnique(t: Tree, u: Tree, tokens: seq<Token>)
    requires Derives(t, tokens) && Derives(u, tokens)
    ensures t == u
  {
    DerivationIsBuilt(t, tokens);
    DerivationIsBuilt(u, tokens);
  }
}
