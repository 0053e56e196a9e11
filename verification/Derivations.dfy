/** Derivation trees of the grammar, what they denote, and the two theorems that tie the
    table-driven parser to them. */
module Derivations {
  import opened Wrappers
  import opened Settings
  import opened ParseActions
  import opened GrammarTables
  import opened GrammarFacts
  import opened LrParser

  datatype Tree = Leaf(token: Token) | Node(rule: int, kids: seq<Tree>)

  /** The grammar symbol at the root. */
  function Sym(t: Tree): int {
    match t
    case Leaf(token) => Code(token)
    case Node(r, _) => if 1 < r <= NRULES then R1(r) else 0
  }

  /** Every inner node is an instance of its rule. */
  predicate Valid(t: Tree) {
    match t
    case Leaf(_) => true
    case Node(r, kids) =>
      && 1 < r <= NRULES && |kids| == R2(r)
      && forall i | 0 <= i < |kids| :: Valid(kids[i]) && Sym(kids[i]) == RhsAt(r, i)
  }

  function Yield(t: Tree): seq<Token> {
    match t
    case Leaf(token) => [token]
    case Node(_, kids) => YieldAll(kids)
  }

  function YieldAll(ts: seq<Tree>): seq<Token> {
    if ts == [] then [] else Yield(ts[0]) + YieldAll(ts[1..])
  }

  /** The tokens can be derived from `configuration`, the start symbol, by `t`. */
  predicate Derives(t: Tree, tokens: seq<Token>) {
    Valid(t) && Sym(t) == 24 && Yield(t) == tokens
  }

  /** What a derivation denotes: its leaves pushed and its actions run from left to right,
      bottom up, on a value stack. */
  function Eval(t: Tree, sem: Sem): (next: SemNext)
    requires Valid(t) && sem.vs != []
    ensures next.SemGo? ==> |next.sem.vs| == |sem.vs| + 1
  {
    match t
    case Leaf(token) => PushSem(sem, Lval(token))
    case Node(r, kids) =>
      match EvalAll(kids, sem)
      case SemStop(result) => SemStop(result)
      case SemGo(sem') => ReduceSem(r, sem')
  }

  function EvalAll(ts: seq<Tree>, sem: Sem): (next: SemNext)
    requires (forall i | 0 <= i < |ts| :: Valid(ts[i])) && sem.vs != []
    ensures next.SemGo? ==> |next.sem.vs| == |sem.vs| + |ts|
  {
    if ts == [] then SemGo(sem)
    else
      match Eval(ts[0], sem)
      case SemStop(result) => SemStop(result)
      case SemGo(sem') => EvalAll(ts[1..], sem')
  }

  // ----- first tokens -----

  predicate ValidAll(ts: seq<Tree>) { forall i | 0 <= i < |ts| :: Valid(ts[i]) }

  /** The trees are children of rule `r` from position `i` to its end. */
  predicate Siblings(ts: seq<Tree>, r: int, i: int) {
    && 1 < r <= NRULES && 0 <= i <= R2(r) && |ts| == R2(r) - i
    && forall j | 0 <= j < |ts| :: Valid(ts[j]) && Sym(ts[j]) == RhsAt(r, i + j)
  }

  lemma SiblingsTail(ts: seq<Tree>, r: int, i: int)
    requires Siblings(ts, r, i) && ts != []
    ensures Siblings(ts[1..], r, i + 1)
  {
    forall j | 0 <= j < |ts[1..]|
      ensures Valid(ts[1..][j]) && Sym(ts[1..][j]) == RhsAt(r, i + 1 + j)
    {
      assert ts[1..][j] == ts[j + 1];
    }
  }

  lemma {:induction false} TreeFirst(t: Tree)
    requires Valid(t)
    ensures if Yield(t) == [] then Nullable(Sym(t)) else First(Sym(t), Look(Yield(t)))
    decreases t
  {
    if t.Node? {
      SiblingsFirst(t.kids, t.rule, 0);
      if Yield(t) == [] {
        EmptyRule(t.rule);
      } else {
        FirstOfRule(t.rule, Look(Yield(t)));
      }
    }
  }

  lemma {:induction false} SiblingsFirst(ts: seq<Tree>, r: int, i: int)
    requires Siblings(ts, r, i)
    ensures if YieldAll(ts) == [] then Empties(r, i) else Starts(r, i, Look(YieldAll(ts)))
    decreases ts
  {
    if ts != [] {
      TreeFirst(ts[0]);
      SiblingsTail(ts, r, i);
      SiblingsFirst(ts[1..], r, i + 1);
    }
  }

  lemma LookOfConcat(a: seq<Token>, b: seq<Token>)
    ensures Look(a + b) == if a == [] then Look(b) else Look(a)
  {
    if a == [] {
      assert a + b == b;
    }
  }

  lemma YieldSplit(ts: seq<Tree>, rest: seq<Token>)
    requires ts != []
    ensures YieldAll(ts) + rest == Yield(ts[0]) + (YieldAll(ts[1..]) + rest)
  {
  }

  lemma {:induction false} SiblingsNext(ts: seq<Tree>, r: int, i: int, rest: seq<Token>)
    requires Siblings(ts, r, i) && Follow(R1(r), Look(rest))
    ensures NextOk(r, i, Look(YieldAll(ts) + rest))
  {
    if ts == [] {
      LookOfConcat([], rest);
    } else {
      TreeFirst(ts[0]);
      var tail := YieldAll(ts[1..]) + rest;
      LookOfConcat(Yield(ts[0]), tail);
      YieldSplit(ts, rest);
      if Yield(ts[0]) == [] {
        SiblingsTail(ts, r, i);
        SiblingsNext(ts[1..], r, i + 1, rest);
      }
    }
  }

  // ----- completeness: the parser follows every derivation -----

  /** The parser on a configuration does what `next`, followed by more input, does. */
  ghost predicate Follows(c: Conf, next: SemNext, ss: seq<int>, rest: seq<Token>)
    requires Lockstep(c)
  {
    match next
    case SemStop(result) => Run(c) == result
    case SemGo(sem) => var c' := Conf(ss, sem, rest); Lockstep(c') && Run(c) == Run(c')
  }

  /** The top state reduces rule `r`. */
  predicate EndsRule(ss: seq<int>, r: int) {
    ss != [] && 0 <= TopState(ss) < NSTATES && DefaultAct(TopState(ss)) == r
  }

  lemma ReadableEnd(ss: seq<int>, r: int)
    requires ss != [] && 1 < r <= NRULES && Readable(TopState(ss), r, R2(r))
    ensures EndsRule(ss, r)
  {
  }

  lemma ShiftRuns(c: Conf, token: Token, rest: seq<Token>)
    requires Lockstep(c) && c.input == [token] + rest && CanRead(TopState(c.ss), Code(token))
    ensures Follows(c, PushSem(c.sem, Lval(token)),
                    c.ss + [ReadSym(TopState(c.ss), Code(token))], rest)
  {
    PathRange(c.ss);
    assert c.input[0] == token && c.input[1..] == rest;
    ShiftFacts(TopState(c.ss), Code(token));
    assert Step(c) == ShiftStep(c, ActionOf(TopState(c.ss), Code(token)).state);
  }

  lemma ReduceRuns(c: Conf, ss: seq<int>, r: int)
    requires Lockstep(c) && Path(ss) && ss <= c.ss
    requires 1 < r <= NRULES && |c.ss| == |ss| + R2(r) && EndsRule(c.ss, r)
    requires Expects(TopState(ss), R1(r)) && Follow(R1(r), Look(c.input))
    ensures Follows(c, ReduceSem(r, c.sem), ss + [GotoOf(TopState(ss), R1(r))], c.input)
  {
    PathRange(c.ss);
    ReduceBeforeFollow(TopState(c.ss), Look(c.input));
    ReductionsFit(c.ss, Look(c.input));
    assert c.ss[..|c.ss| - R2(r)] == ss;
    assert Step(c) == ReduceStep(c, r);
  }

  lemma ReadableStep(q: int, r: int, i: int)
    requires 1 < r <= NRULES && 0 <= i < R2(r) && Readable(q, r, i)
    ensures CanRead(q, RhsAt(r, i)) && Readable(ReadSym(q, RhsAt(r, i)), r, i + 1)
  {
  }

  lemma SiblingFollow(ts: seq<Tree>, r: int, i: int, rest: seq<Token>)
    requires Siblings(ts, r, i) && ts != [] && Follow(R1(r), Look(rest))
    ensures ts[0].Node? ==> Follow(Sym(ts[0]), Look(YieldAll(ts[1..]) + rest))
  {
    if ts[0].Node? {
      SiblingsTail(ts, r, i);
      SiblingsNext(ts[1..], r, i + 1, rest);
      NonterminalSym(ts[0]);
      FollowInRule(r, i, Look(YieldAll(ts[1..]) + rest));
    }
  }

  lemma NonterminalSym(t: Tree)
    requires Valid(t) && t.Node?
    ensures NTOKENS <= Sym(t)
  {
  }

  /** Reading a whole subtree: the parser evaluates it and goes to the state for its symbol. */
  lemma {:induction false} TreeRuns(t: Tree, c: Conf, rest: seq<Token>)
    requires Valid(t) && Lockstep(c) && CanRead(TopState(c.ss), Sym(t))
    requires c.input == Yield(t) + rest && (t.Node? ==> Follow(Sym(t), Look(rest)))
    ensures Follows(c, Eval(t, c.sem), c.ss + [ReadSym(TopState(c.ss), Sym(t))], rest)
    decreases t, 2
  {
    match t
    case Leaf(token) => ShiftRuns(c, token, rest);
    case Node(r, kids) =>
      PathRange(c.ss);
      RulesReadable(TopState(c.ss), r);
      var ss := SiblingsRun(kids, r, 0, c, rest);
      match EvalAll(kids, c.sem)
      case SemStop(_) =>
      case SemGo(sem) => ReduceRuns(Conf(ss, sem, rest), c.ss, r);
  }

  /** Once the first child is read, the parser is where it can read its siblings. */
  lemma FirstSiblingRuns(ts: seq<Tree>, r: int, i: int, c: Conf, rest: seq<Token>)
    returns (q: int)
    requires Siblings(ts, r, i) && ts != [] && Lockstep(c) && Readable(TopState(c.ss), r, i)
    requires c.input == YieldAll(ts) + rest && Follow(R1(r), Look(rest))
    ensures Readable(q, r, i + 1)
    ensures Follows(c, Eval(ts[0], c.sem), c.ss + [q], YieldAll(ts[1..]) + rest)
    decreases ts, 0
  {
    ReadableStep(TopState(c.ss), r, i);
    q := ReadSym(TopState(c.ss), RhsAt(r, i));
    YieldSplit(ts, rest);
    SiblingFollow(ts, r, i, rest);
    TreeRuns(ts[0], c, YieldAll(ts[1..]) + rest);
  }

  lemma {:induction false} SiblingsRun(ts: seq<Tree>, r: int, i: int, c: Conf, rest: seq<Token>)
    returns (ss: seq<int>)
    requires Siblings(ts, r, i) && Lockstep(c) && Readable(TopState(c.ss), r, i)
    requires c.input == YieldAll(ts) + rest && Follow(R1(r), Look(rest))
    ensures Follows(c, EvalAll(ts, c.sem), ss, rest)
    ensures EvalAll(ts, c.sem).SemGo? ==>
              c.ss <= ss && |ss| == |c.ss| + |ts| && EndsRule(ss, r)
    decreases ts, 1
  {
    if ts == [] {
      ss := c.ss;
      ReadableEnd(c.ss, r);
      assert c == Conf(c.ss, c.sem, rest);
    } else {
      SiblingsTail(ts, r, i);
      var q := FirstSiblingRuns(ts, r, i, c, rest);
      match Eval(ts[0], c.sem)
      case SemStop(_) => ss := [];
      case SemGo(sem) =>
        var c' := Conf(c.ss + [q], sem, YieldAll(ts[1..]) + rest);
        ss := SiblingsRun(ts[1..], r, i + 1, c', rest);
    }
  }
}
