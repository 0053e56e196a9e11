/** The shift/reduce loop of `yyparse` as a step function on configurations, and its run. */
module LrParser {
  import opened Wrappers
  import opened Settings
  import opened ParseActions
  import opened GrammarTables
  import opened GrammarFacts

  const YYMAXDEPTH := 10000

  /** The semantic side of a parse: the context and the value stack. */
  datatype Sem = Sem(ctx: Ctx, vs: seq<SemVal>)

  /** State stack, semantic side and the tokens not yet shifted. */
  datatype Conf = Conf(ss: seq<int>, sem: Sem, input: seq<Token>)

  datatype ParseResult = Accepted(ctx: Ctx) | Rejected(error: ParseError) | Crashed

  datatype Next = Go(conf: Conf) | Stop(result: ParseResult)

  /** Every state on the stack lies above one that it can lie above. */
  ghost predicate Path(ss: seq<int>) {
    ss != [] && ss[0] == 0 && forall i | 0 < i < |ss| :: Edge(ss[i - 1], ss[i])
  }

  /** The two stacks have the same height and the state stack is a path of the automaton. */
  ghost predicate Lockstep(c: Conf) { Path(c.ss) && |c.sem.vs| == |c.ss| }

  function TopState(ss: seq<int>): int
    requires ss != []
  {
    ss[|ss| - 1]
  }

  lemma PathRange(ss: seq<int>)
    requires Path(ss)
    ensures forall i | 0 <= i < |ss| :: 0 <= ss[i] < NSTATES && ss[i] != FINAL
  {
    forall i | 0 < i < |ss| ensures 0 <= ss[i] < NSTATES && ss[i] != FINAL {
      EdgeRange(ss[i - 1], ss[i]);
    }
  }

  /** The top stack entries spell the right-hand side of the rule the top state reduces, and
      the state below them has a goto for its left-hand side that leaves less work pending. */
  ghost predicate Reducible(ss: seq<int>) {
    && (forall i | 0 <= i < |ss| :: 0 <= ss[i] < NSTATES)
    && ss != [] && 1 < DefaultAct(TopState(ss)) <= NRULES
    && var r := DefaultAct(TopState(ss)); var n := R2(r);
    && 0 <= n < |ss| && ReducesWell(ss[|ss| - n - 1], TopState(ss)) && Handle(ss, r, n)
  }

  /** The `i`-th of the top `n` entries is for the `i`-th symbol of rule `r`. */
  predicate Spelled(ss: seq<int>, r: int, n: int, i: int)
    requires 1 < r <= NRULES && 0 <= i < n == R2(r) <= |ss|
  {
    0 <= ss[|ss| - n + i] < NSTATES && Stos(ss[|ss| - n + i]) == RhsAt(r, i)
  }

  ghost predicate Handle(ss: seq<int>, r: int, n: int)
    requires 1 < r <= NRULES && 0 <= n == R2(r) <= |ss|
  {
    forall i | 0 <= i < n :: Spelled(ss, r, n, i)
  }

  lemma HandleSymbol(ss: seq<int>, r: int, n: int, j: int)
    requires 1 < r <= NRULES && 0 <= j < n == R2(r) <= |ss| && Handle(ss, r, n)
    ensures 0 <= ss[|ss| - n + j] < NSTATES && Stos(ss[|ss| - n + j]) == RhsAt(r, j)
  {
    assert Spelled(ss, r, n, j);
  }

  /** `Path` for a stack whose top state reduces a rule of length n. */
  ghost predicate Reduces(ss: seq<int>, n: int) {
    && Path(ss) && 0 <= TopState(ss) < NSTATES && TopState(ss) != FINAL
    && 0 < DefaultAct(TopState(ss)) <= NRULES && R2(DefaultAct(TopState(ss))) == n
  }

  lemma ReducibleShort(ss: seq<int>)
    requires Reduces(ss, 0) || Reduces(ss, 1)
    ensures Reducible(ss)
  {
    PathRange(ss);
    if R2(DefaultAct(TopState(ss))) == 0 {
      Reduce0(TopState(ss));
    } else {
      Reduce1(ss[|ss| - 2], TopState(ss));
    }
  }

  lemma Reducible2(ss: seq<int>)
    requires Reduces(ss, 2)
    ensures Reducible(ss)
  {
    PathRange(ss);
    var h := |ss| - 1;
    assert ss[h - 1] != 0;
    Reduce2(ss[h - 2], ss[h - 1], ss[h]);
  }

  lemma Reducible3(ss: seq<int>)
    requires Reduces(ss, 3)
    ensures Reducible(ss)
  {
    PathRange(ss);
    var h := |ss| - 1;
    assert ss[h - 1] != 0;
    assert ss[h - 2] != 0;
    Reduce3(ss[h - 3], ss[h - 2], ss[h - 1], ss[h]);
  }

  lemma FourSpelled(ss: seq<int>, r: int)
    requires 1 < r <= NRULES && R2(r) == 4 <= |ss| && forall i | 0 <= i < |ss| :: 0 <= ss[i] < NSTATES
    requires var m := |ss| - 4; Stos(ss[m]) == RhsAt(r, 0) && Stos(ss[m + 1]) == RhsAt(r, 1)
    requires var m := |ss| - 4; Stos(ss[m + 2]) == RhsAt(r, 2) && Stos(ss[m + 3]) == RhsAt(r, 3)
    ensures Handle(ss, r, 4)
  {
    forall i | 0 <= i < 4 ensures Spelled(ss, r, 4, i) {
      assert i == 0 || i == 1 || i == 2 || i == 3;
    }
  }

  lemma Reducible4(ss: seq<int>)
    requires Reduces(ss, 4)
    ensures Reducible(ss)
  {
    PathRange(ss);
    var h := |ss| - 1;
    assert ss[h] == 41 || ss[h] == 43 || ss[h] == 44;
    assert ss[h - 1] != 0;
    assert ss[h - 2] != 0;
    assert ss[h - 3] != 0;
    Reduce4(ss[h - 4], ss[h - 3], ss[h - 2], ss[h - 1], ss[h]);
    FourSpelled(ss, DefaultAct(ss[h]));
  }

  lemma Reducible5(ss: seq<int>)
    requires Reduces(ss, 5)
    ensures Reducible(ss)
  {
    PathRange(ss);
    var h := |ss| - 1;
    assert ss[h] == 30;
    assert ss[h - 1] == 21;
    assert ss[h - 2] == 8;
    assert ss[h - 3] == 5;
    assert ss[h - 4] == 1;
    Reduce5(ss[h - 5], ss[h - 4], ss[h - 3], ss[h - 2], ss[h - 1], ss[h]);
  }

  /** Whenever the parser reduces, it pops exactly the right-hand side of the rule. */
  lemma ReductionsFit(ss: seq<int>, k: int)
    requires Path(ss) && 0 <= TopState(ss) < NSTATES && ActionOf(TopState(ss), k).Reduce?
    ensures Reducible(ss) && ActionOf(TopState(ss), k).rule == DefaultAct(TopState(ss))
  {
    PathRange(ss);
    ReduceByDefault(TopState(ss), k);
    ReduceLength(TopState(ss));
    var n := R2(DefaultAct(TopState(ss)));
    assert Reduces(ss, n);
    match n
    case 2 => Reducible2(ss);
    case 3 => Reducible3(ss);
    case 4 => Reducible4(ss);
    case 5 => Reducible5(ss);
    case _ => ReducibleShort(ss);
  }

  // ----- one step -----

  /** The symbol number of the lookahead. */
  function Look(input: seq<Token>): (k: int)
    ensures 0 <= k < NTOKENS
  {
    if input == [] then 0 else Code(input[0])
  }

  datatype SemNext = SemGo(sem: Sem) | SemStop(result: ParseResult)

  /** `yynewstate`, value side: push a value, if the stacks can still grow. */
  function PushSem(sem: Sem, v: SemVal): (next: SemNext)
    ensures next.SemGo? ==> |next.sem.vs| == |sem.vs| + 1
  {
    if |sem.vs| + 1 >= YYMAXDEPTH then SemStop(Rejected(MemoryExhausted))
    else SemGo(sem.(vs := sem.vs + [v]))
  }

  /** `yyreduce`, value side: run the action of rule r, pop its right-hand side, push `$$`. */
  function ReduceSem(r: int, sem: Sem): (next: SemNext)
    requires 1 < r <= NRULES && 0 <= R2(r) < |sem.vs|
    ensures next.SemGo? ==> |next.sem.vs| == |sem.vs| - R2(r) + 1
  {
    var n := R2(r);
    match Act(r, sem.ctx, sem.vs)
    case Fault => SemStop(Crashed)
    case Fail(e) => SemStop(Rejected(e))
    case Done(ctx) =>
      PushSem(Sem(ctx, sem.vs[..|sem.vs| - n]), if n == 0 then Undef else sem.vs[|sem.vs| - n])
  }

  /** What remains to be done: it bounds the number of steps. */
  function Budget(c: Conf): nat
    requires Path(c.ss)
  {
    7 * |c.input| + |c.ss| + Pending(TopState(c.ss))
  }

  /** Extending a path by a state that may lie on top of it. */
  lemma PathExtends(ss: seq<int>, q: int)
    requires Path(ss) && Edge(TopState(ss), q)
    ensures Path(ss + [q])
  {
    forall i | 0 < i < |ss + [q]| ensures Edge((ss + [q])[i - 1], (ss + [q])[i]) {
      if i == |ss| {
        assert (ss + [q])[i - 1] == TopState(ss);
      }
    }
  }

  /** Shift the lookahead and go to state `q`. */
  function ShiftStep(c: Conf, q: int): (next: Next)
    requires Lockstep(c) && c.input != [] && Edge(TopState(c.ss), q) && Pending(q) <= 5
    ensures next.Go? ==> Lockstep(next.conf) && Budget(next.conf) < Budget(c)
  {
    PathExtends(c.ss, q);
    match PushSem(c.sem, Lval(c.input[0]))
    case SemStop(result) => Stop(result)
    case SemGo(sem) => Go(Conf(c.ss + [q], sem, c.input[1..]))
  }

  /** The state stack after reducing by the top state's rule. */
  function Reduced(ss: seq<int>): seq<int>
    requires Reducible(ss)
  {
    var r := DefaultAct(TopState(ss));
    var rest := ss[..|ss| - R2(r)];
    rest + [GotoOf(TopState(rest), R1(r))]
  }

  lemma ReducedIsPath(ss: seq<int>)
    requires Path(ss) && Reducible(ss)
    ensures var r := DefaultAct(TopState(ss));
            Path(Reduced(ss)) && |Reduced(ss)| == |ss| - R2(r) + 1
    ensures |Reduced(ss)| + Pending(TopState(Reduced(ss))) < |ss| + Pending(TopState(ss))
  {
    var r := DefaultAct(TopState(ss));
    var rest := ss[..|ss| - R2(r)];
    assert TopState(rest) == ss[|ss| - R2(r) - 1];
    PathExtends(rest, GotoOf(TopState(rest), R1(r)));
  }

  /** `yyreduce`: run the action, pop the right-hand side, push the left-hand side. */
  function ReduceStep(c: Conf, r: int): (next: Next)
    requires Lockstep(c) && Reducible(c.ss) && r == DefaultAct(TopState(c.ss))
    ensures next.Go? ==> Lockstep(next.conf) && Budget(next.conf) < Budget(c)
  {
    ReducedIsPath(c.ss);
    match ReduceSem(r, c.sem)
    case SemStop(result) => Stop(result)
    case SemGo(sem) => Go(Conf(Reduced(c.ss), sem, c.input))
  }

  /** A step put together from what becomes of the two stacks. */
  function Combined(ss: seq<int>, next: SemNext, input: seq<Token>): Next {
    match next
    case SemStop(result) => Stop(result)
    case SemGo(sem) => Go(Conf(ss, sem, input))
  }

  lemma StepCombines(c: Conf, r: int)
    requires Lockstep(c) && Reducible(c.ss) && r == DefaultAct(TopState(c.ss))
    ensures ReduceStep(c, r) == Combined(Reduced(c.ss), ReduceSem(r, c.sem), c.input)
  {
  }

  lemma ReducedIs(ss: seq<int>, r: int, n: int, a: int)
    requires Path(ss) && Reducible(ss) && r == DefaultAct(TopState(ss)) && n == R2(r) && a == R1(r)
    ensures 0 <= n < |ss| && NTOKENS <= a < NTOKENS + 20
    ensures var m := |ss| - n; var g := GotoOf(TopState(ss[..m]), a);
      Reduced(ss) == ss[..m] + [g] && 0 <= g < NSTATES && Stos(g) == a
  {
    EdgeRange(TopState(ss[..|ss| - n]), GotoOf(TopState(ss[..|ss| - n]), a));
  }

  /** `$$` before the action: the first value of the right-hand side, if there is one. */
  function FirstValue(vs: seq<SemVal>, n: nat): SemVal
    requires n <= |vs|
  {
    if n == 0 then Undef else vs[|vs| - n]
  }

  /** The value stack once the action has run: its top `n` entries give way to one. */
  function AfterAct(sem: Sem, n: nat, act: ActOutcome): SemNext
    requires n <= |sem.vs|
  {
    match act
    case Fault => SemStop(Crashed)
    case Fail(e) => SemStop(Rejected(e))
    case Done(ctx) => PushSem(Sem(ctx, sem.vs[..|sem.vs| - n]), FirstValue(sem.vs, n))
  }

  lemma ReduceSemIs(r: int, sem: Sem, n: nat)
    requires 1 < r <= NRULES && n == R2(r) < |sem.vs|
    ensures ReduceSem(r, sem) == AfterAct(sem, n, Act(r, sem.ctx, sem.vs))
  {
  }

  /** The step as the stacks see it: the handle is popped, one state and one value are pushed. */
  lemma ReduceStepIs(c: Conf, r: int, n: int, a: int)
    requires Lockstep(c) && Reducible(c.ss) && r == DefaultAct(TopState(c.ss)) && n == R2(r) && a == R1(r)
    ensures 0 <= n < |c.ss| && NTOKENS <= a < NTOKENS + 20
    ensures var below := c.ss[..|c.ss| - n];
      ReduceStep(c, r) ==
          Combined(below + [GotoOf(TopState(below), a)], AfterAct(c.sem, n, Act(r, c.sem.ctx, c.sem.vs)), c.input)
  {
    ReducedIs(c.ss, r, n, a);
    ReduceSemIs(r, c.sem, n);
    StepCombines(c, r);
  }

  /** One round of the loop, from `yybackup` to `yynewstate`.  Shifting the end of input
      enters YYFINAL, which accepts. */
  function Step(c: Conf): (next: Next)
    requires Lockstep(c)
    ensures next.Go? ==> Lockstep(next.conf) && Budget(next.conf) < Budget(c)
  {
    PathRange(c.ss);
    var q := TopState(c.ss);
    match ActionOf(q, Look(c.input))
    case Error => Stop(Rejected(SyntaxError))
    case Shift(s) =>
      ShiftFacts(q, Look(c.input));
      if s == FINAL then Stop(Accepted(c.sem.ctx)) else ShiftStep(c, s)
    case Reduce(r) =>
      ReductionsFit(c.ss, Look(c.input));
      ReduceStep(c, r)
  }

  lemma StepOnShift(c: Conf, s: int)
    requires Lockstep(c) && 0 <= TopState(c.ss) < NSTATES && ActionOf(TopState(c.ss), Look(c.input)) == Shift(s)
    ensures s == FINAL ==> TopState(c.ss) == 2 && c.input == [] && Step(c) == Stop(Accepted(c.sem.ctx))
    ensures s != FINAL ==>
              && c.input != [] && 0 <= s < NSTATES && Stos(s) == Code(c.input[0])
              && Edge(TopState(c.ss), s) && Pending(s) <= 5 && Step(c) == ShiftStep(c, s)
  {
    ShiftFacts(TopState(c.ss), Look(c.input));
  }

  lemma StepOnReduce(c: Conf, r: int)
    requires Lockstep(c) && 0 <= TopState(c.ss) < NSTATES && ActionOf(TopState(c.ss), Look(c.input)) == Reduce(r)
    ensures Reducible(c.ss) && r == DefaultAct(TopState(c.ss)) && Step(c) == ReduceStep(c, r)
  {
    ReductionsFit(c.ss, Look(c.input));
  }

  function Run(c: Conf): ParseResult
    requires Lockstep(c)
    decreases Budget(c)
  {
    match Step(c)
    case Stop(result) => result
    case Go(c') => Run(c')
  }

  /** The context `__config_read` starts from: an empty root group. */
  const InitialCtx := Ctx([Frame(None, KGroup, [])], false, "")

  const InitialSem := Sem(InitialCtx, [Undef])

  function Initial(tokens: seq<Token>): (c: Conf)
    ensures Lockstep(c)
  {
    Conf([0], InitialSem, tokens)
  }

  /** `libconfig_yyparse` on the tokens of a whole input. */
  function Parse(tokens: seq<Token>): ParseResult { Run(Initial(tokens)) }
}
