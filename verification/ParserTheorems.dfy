/** The parser accepts exactly the derivable inputs, with the result their derivation denotes. */
module ParserTheorems {
  import opened Wrappers
  import opened Settings
  import opened ParseActions
  import opened GrammarTables
  import opened GrammarFacts
  import opened LrParser
  import opened Derivations
  import opened ParseTrees

  /** How a parse that evaluates a whole derivation ends. */
  function Outcome(next: SemNext): ParseResult {
    match next
    case SemStop(result) => result
    case SemGo(sem) => Accepted(sem.ctx)
  }

  /** Whatever derives the tokens, parsing them gives what the derivation denotes. */
  lemma ParserIsComplete(t: Tree, tokens: seq<Token>)
    requires Derives(t, tokens)
    ensures Parse(tokens) == Outcome(Eval(t, InitialSem))
  {
    var c := Initial(tokens);
    assert tokens == Yield(t) + [];
    assert CanRead(0, 24) && ReadSym(0, 24) == 2;
    assert t.Node? by { StartIsNonterminal(t); }
    TreeRuns(t, c, []);
    match Eval(t, InitialSem)
    case SemStop(_) =>
    case SemGo(sem) =>
      var c' := Conf([0, 2], sem, []);
      assert c.ss + [2] == c'.ss;
      assert ActionOf(2, 0) == Shift(FINAL);
      assert Step(c') == Stop(Accepted(sem.ctx));
  }

  // ----- soundness -----

  /** The trees read so far: one for each stack entry, deriving the tokens already consumed,
      with the value stack and context that evaluating them gives. */
  ghost predicate Explains(forest: seq<Tree>, c: Conf, tokens: seq<Token>)
    requires Lockstep(c)
  {
    Spells(forest, c.ss, c.input, tokens) && EvalAll(forest, InitialSem) == SemGo(c.sem)
  }

  lemma {:induction false} EvalConcat(a: seq<Tree>, b: seq<Tree>, sem: Sem)
    requires ValidAll(a) && ValidAll(b) && sem.vs != []
    ensures EvalAll(a + b, sem) ==
            match EvalAll(a, sem) case SemStop(x) => SemStop(x) case SemGo(s) => EvalAll(b, s)
  {
    if a == [] {
      assert a + b == b;
    } else {
      assert (a + b)[0] == a[0] && (a + b)[1..] == a[1..] + b;
      match Eval(a[0], sem)
      case SemStop(_) =>
      case SemGo(s) => EvalConcat(a[1..], b, s);
    }
  }

  lemma ShiftExplained(c: Conf, forest: seq<Tree>, tokens: seq<Token>, q: int)
    requires Lockstep(c) && Explains(forest, c, tokens) && c.input != []
    requires Edge(TopState(c.ss), q) && 0 <= q < NSTATES && Stos(q) == Code(c.input[0])
    requires Pending(q) <= 5 && ShiftStep(c, q).Go?
    ensures Explains(forest + [Leaf(c.input[0])], ShiftStep(c, q).conf, tokens)
  {
    var leaf := [Leaf(c.input[0])];
    ShiftSpells(forest, c.ss, c.input, tokens, q);
    EvalConcat(forest, leaf, InitialSem);
    assert EvalAll(leaf, c.sem) == PushSem(c.sem, Lval(c.input[0]));
  }

  /** Putting the last trees under a new node evaluates to one more reduction. */
  lemma GraftedEval(forest: seq<Tree>, m: nat, r: int, sem: Sem)
    requires m <= |forest| && ValidAll(forest) && Valid(Node(r, forest[m..]))
    requires EvalAll(forest, InitialSem) == SemGo(sem)
    ensures ValidAll(Grafted(forest, m, r))
    ensures EvalAll(Grafted(forest, m, r), InitialSem) == ReduceSem(r, sem)
  {
    var kids, node := forest[m..], [Node(r, forest[m..])];
    assert forest == forest[..m] + kids;
    EvalConcat(forest[..m], kids, InitialSem);
    EvalConcat(forest[..m], node, InitialSem);
    var s := EvalAll(forest[..m], InitialSem).sem;
    assert EvalAll(node, s) == Eval(node[0], s);
  }

  lemma ReduceExplained(c: Conf, forest: seq<Tree>, tokens: seq<Token>, r: int)
    requires Lockstep(c) && Explains(forest, c, tokens)
    requires Reducible(c.ss) && r == DefaultAct(TopState(c.ss)) && ReduceStep(c, r).Go?
    ensures 0 <= R2(r) <= |forest|
    ensures Explains(Grafted(forest, |forest| - R2(r), r), ReduceStep(c, r).conf, tokens)
  {
    ReduceSpells(forest, c.ss, c.input, tokens, r);
    GraftedEval(forest, |forest| - R2(r), r, c.sem);
  }

  lemma StepExplained(c: Conf, forest: seq<Tree>, tokens: seq<Token>) returns (forest': seq<Tree>)
    requires Lockstep(c) && Explains(forest, c, tokens) && Step(c).Go?
    ensures Explains(forest', Step(c).conf, tokens)
  {
    PathRange(c.ss);
    match ActionOf(TopState(c.ss), Look(c.input))
    case Shift(s) =>
      StepOnShift(c, s);
      ShiftExplained(c, forest, tokens, s);
      forest' := forest + [Leaf(c.input[0])];
    case Reduce(r) =>
      StepOnReduce(c, r);
      ReduceExplained(c, forest, tokens, r);
      forest' := Grafted(forest, |forest| - R2(r), r);
  }

  lemma {:induction false} RunIsSound(c: Conf, forest: seq<Tree>, tokens: seq<Token>)
    returns (t: Tree)
    requires Lockstep(c) && Explains(forest, c, tokens) && Run(c).Accepted?
    ensures Derives(t, tokens) && Eval(t, InitialSem).SemGo?
    ensures Run(c) == Accepted(Eval(t, InitialSem).sem.ctx)
    decreases Budget(c)
  {
    match Step(c)
    case Go(c') =>
      var forest' := StepExplained(c, forest, tokens);
      t := RunIsSound(c', forest', tokens);
    case Stop(_) =>
      AcceptingStep(c);
      t := AcceptIsSound(c, forest, tokens);
  }

  lemma AcceptingStep(c: Conf)
    requires Lockstep(c) && Step(c).Stop? && Step(c).result.Accepted?
    ensures TopState(c.ss) == 2 && Look(c.input) == 0 && Step(c) == Stop(Accepted(c.sem.ctx))
  {
    PathRange(c.ss);
    match ActionOf(TopState(c.ss), Look(c.input))
    case Shift(s) => StepOnShift(c, s);
    case Reduce(r) => StepOnReduce(c, r);
  }

  /** The final state is entered from a stack that holds just a configuration. */
  lemma AcceptIsSound(c: Conf, forest: seq<Tree>, tokens: seq<Token>) returns (t: Tree)
    requires Lockstep(c) && Explains(forest, c, tokens)
    requires TopState(c.ss) == 2 && Look(c.input) == 0
    ensures Derives(t, tokens) && Eval(t, InitialSem) == SemGo(c.sem)
  {
    FinalForest(forest, c.ss, tokens);
    t := forest[0];
    assert forest == [t];
    assert EvalAll([t], InitialSem) == SemGo(c.sem);
  }

  /** An accepted input has a derivation, and the result is what that derivation denotes. */
  lemma ParserIsSound(tokens: seq<Token>) returns (t: Tree)
    requires Parse(tokens).Accepted?
    ensures Derives(t, tokens)
    ensures Eval(t, InitialSem).SemGo? && Parse(tokens) == Accepted(Eval(t, InitialSem).sem.ctx)
  {
    var c := Initial(tokens);
    assert Explains([], c, tokens);
    t := RunIsSound(c, [], tokens);
  }

  /** `libconfig_yyparse` accepts exactly the inputs that some derivation of the grammar
      yields without an action failing. */
  lemma AcceptsIffDerivable(tokens: seq<Token>, ctx: Ctx)
    ensures Parse(tokens) == Accepted(ctx) <==>
            exists t :: Derives(t, tokens) && Outcome(Eval(t, InitialSem)) == Accepted(ctx)
  {
    if Parse(tokens) == Accepted(ctx) {
      var t := ParserIsSound(tokens);
    }
    if t :| Derives(t, tokens) && Outcome(Eval(t, InitialSem)) == Accepted(ctx) {
      ParserIsComplete(t, tokens);
    }
  }

  /** Only an input without any derivation is turned down as a syntax error. */
  lemma SyntaxErrorMeansNoDerivation(t: Tree, tokens: seq<Token>)
    requires Parse(tokens) == Rejected(SyntaxError)
    ensures !Derives(t, tokens)
  {
    if Derives(t, tokens) {
      ParserIsComplete(t, tokens);
      EvalNeverSyntaxError(t, InitialSem);
    }
  }

  lemma ActNeverSyntaxError(r: int, sem: Sem)
    requires 1 < r <= NRULES && 0 <= R2(r) < |sem.vs|
    ensures ReduceSem(r, sem) != SemStop(Rejected(SyntaxError))
  {
  }

  lemma {:induction false} EvalNeverSyntaxError(t: Tree, sem: Sem)
    requires Valid(t) && sem.vs != []
    ensures Eval(t, sem) != SemStop(Rejected(SyntaxError))
    decreases t
  {
    if t.Node? {
      EvalAllNeverSyntaxError(t.kids, sem);
      if EvalAll(t.kids, sem).SemGo? {
        ActNeverSyntaxError(t.rule, EvalAll(t.kids, sem).sem);
      }
    }
  }

  lemma {:induction false} EvalAllNeverSyntaxError(ts: seq<Tree>, sem: Sem)
    requires ValidAll(ts) && sem.vs != []
    ensures EvalAll(ts, sem) != SemStop(Rejected(SyntaxError))
    decreases ts
  {
    if ts != [] {
      EvalNeverSyntaxError(ts[0], sem);
      if Eval(ts[0], sem).SemGo? {
        EvalAllNeverSyntaxError(ts[1..], Eval(ts[0], sem).sem);
      }
    }
  }
}
