/** `libconfig_yyparse` as it runs: two arrays that grow together, a lookahead that is read only
    when a state needs it, and the configuration that the actions build. */
module ParserLoop {
  import opened Wrappers
  import opened Settings
  import opened ParseActions
  import opened GrammarTables
  import opened GrammarFacts
  import opened LrParser
  import opened ParserContext
  import opened Floats
  import opened Scanning
  import opened ScannerLoop
  import opened SettingHeap
  import opened SettingTrees
  import opened HeapSpine
  import opened ParserActions

  const YYINITDEPTH := 200
  const YYTERROR := 1

  // ----- the two stacks -----

  class Stacks {
    var yyss: array<int>
    var yyvs: array<SemVal>
    var size: nat             // yyssp - yyss + 1

    ghost predicate Valid()
      reads this
    {
      && yyss.Length == yyvs.Length
      && YYINITDEPTH <= yyss.Length <= YYMAXDEPTH
      && 0 < size < yyss.Length
    }

    ghost function States(): seq<int>
      reads this, yyss
      requires size <= yyss.Length
    {
      yyss[..size]
    }

    ghost function Values(): seq<SemVal>
      reads this, yyvs
      requires size <= yyvs.Length
    {
      yyvs[..size]
    }

    constructor ()
      ensures Valid() && fresh(yyss) && fresh(yyvs)
      ensures States() == [0] && Values() == [Undef]
    {
      yyss := new int[YYINITDEPTH](_ => 0);
      yyvs := new SemVal[YYINITDEPTH](_ => Undef);
      size := 1;
    }

    /** YYSTACK_RELOCATE: both stacks move to arrays twice as long, up to YYMAXDEPTH. */
    method Grow()
      requires yyss.Length == yyvs.Length && YYINITDEPTH <= yyss.Length < YYMAXDEPTH
      requires size == yyss.Length
      modifies this
      ensures Valid() && fresh(yyss) && fresh(yyvs) && size == old(size)
      ensures States() == old(States()) && Values() == old(Values())
    {
      var longer := 2 * yyss.Length;
      if YYMAXDEPTH < longer {
        longer := YYMAXDEPTH;
      }
      var ss := new int[longer](_ => 0);
      var vs := new SemVal[longer](_ => Undef);
      for i := 0 to size
        modifies ss, vs
        invariant ss[..i] == yyss[..i] && vs[..i] == yyvs[..i]
      {
        ss[i] := yyss[i];
        vs[i] := yyvs[i];
      }
      yyss := ss;
      yyvs := vs;
    }

    /** `yynewstate`: push, and make room for the next push unless that takes too much. */
    method Push(state: int, value: SemVal) returns (ok: bool)
      requires Valid()
      modifies this, yyss, yyvs
      ensures ok <==> old(size) + 1 < YYMAXDEPTH
      ensures ok ==> Valid() && States() == old(States()) + [state]
                     && Values() == old(Values()) + [value]
      ensures (yyss == old(yyss) || fresh(yyss)) && (yyvs == old(yyvs) || fresh(yyvs))
    {
      yyvs[size] := value;
      yyss[size] := state;
      size := size + 1;
      assert States() == old(States()) + [state] && Values() == old(Values()) + [value];
      if yyss.Length <= size {
        if YYMAXDEPTH <= yyss.Length {
          return false;
        }
        Grow();
      }
      return true;
    }

    method Top() returns (state: int, value: SemVal)
      requires Valid()
      ensures state == TopState(States()) && value == Values()[size - 1]
    {
      state, value := yyss[size - 1], yyvs[size - 1];
    }

    /** YYPOPSTACK. */
    method Pop(n: nat)
      requires Valid() && n < size
      modifies `size
      ensures Valid() && States() == old(States())[..old(size) - n]
      ensures Values() == old(Values())[..old(size) - n]
    {
      size := size - n;
    }
  }

  // ----- error recovery -----

  /** The state in which a state can shift the error token, if any. */
  function ErrorShift(q: int): Option<int>
    requires 0 <= q < NSTATES
  {
    if Pact(q) == PACT_NINF then None
    else
      var n := Pact(q) + YYTERROR;
      if 0 <= n <= LAST && Check(n) == YYTERROR && 0 < Table(n) then Some(Table(n)) else None
  }

  lemma NoStateHandlesErrors(q: int)
    requires 0 <= q < NSTATES
    ensures ErrorShift(q).None?
  {
  }

  /** `yyerrlab1`: looks for a state that can go on after an error.  None can, so the whole
      stack is popped and the parse is given up. */
  method Recover(stacks: Stacks)
    requires stacks.Valid() && Path(stacks.States())
    modifies stacks
    ensures stacks.size == 1 && stacks.yyss == old(stacks.yyss) && stacks.yyvs == old(stacks.yyvs)
  {
    PathRange(stacks.States());
    ghost var was := stacks.States();
    while true
      invariant stacks.Valid() && stacks.size <= old(stacks.size)
      invariant stacks.yyss == old(stacks.yyss) && stacks.yyvs == old(stacks.yyvs)
      invariant forall i | 0 <= i < stacks.size :: 0 <= stacks.yyss[i] < NSTATES
      decreases stacks.size
    {
      var q := stacks.yyss[stacks.size - 1];
      NoStateHandlesErrors(q);
      if ErrorShift(q).Some? || stacks.size == 1 {
        break;
      }
      stacks.Pop(1);
    }
  }

  // ----- the loop -----

  /** What the two stacks, the parse context and the input still to come amount to. */
  ghost function ConfOf(stacks: Stacks, ctx: ParseContext, input: seq<Token>): Conf
    reads stacks, stacks.yyss, stacks.yyvs, ctx
    requires stacks.Valid()
  {
    Conf(stacks.States(), Sem(ctx.Value(), stacks.Values()), input)
  }

  /** The step, given what the action did: `n` entries give way to one for nonterminal `a`. */
  ghost function Replaced(c: Conf, n: nat, a: int, act: ActOutcome): Next
    requires n < |c.ss| == |c.sem.vs| && NTOKENS <= a < NTOKENS + 20
  {
    var below := c.ss[..|c.ss| - n];
    Combined(below + [GotoOf(TopState(below), a)], AfterAct(c.sem, n, act), c.input)
  }

  /** `yyreduce`: run the action of rule `r`, pop its `n` entries, push nonterminal `a`. */
  method Reduce(stacks: Stacks, ctx: ParseContext, r: int, n: nat, a: int, ghost c: Conf)
    returns (failure: Option<ParseError>)
    requires stacks.Valid() && ctx.Valid() && c == ConfOf(stacks, ctx, c.input)
    requires n < |c.ss| && NTOKENS <= a < NTOKENS + 20
    requires !Act(r, c.sem.ctx, c.sem.vs).Fault?
    modifies stacks, stacks.yyss, stacks.yyvs, ctx, ctx.config, ctx.config.depth.Keys
    ensures fresh(ctx.config.depth.Keys - old(ctx.config.depth.Keys))
    ensures match Replaced(c, n, a, Act(r, c.sem.ctx, c.sem.vs))
            case Stop(result) => failure.Some? && result == Rejected(failure.value)
            case Go(c') => failure.None? && stacks.Valid() && ctx.Valid() && c' == ConfOf(stacks, ctx, c.input)
    ensures stacks.yyss == old(stacks.yyss) || fresh(stacks.yyss)
    ensures stacks.yyvs == old(stacks.yyvs) || fresh(stacks.yyvs)
  {
    var value := if n == 0 then Undef else stacks.yyvs[stacks.size - n];
    var _, top := stacks.Top();
    failure := ctx.RunAction(r, c.sem.vs, top);
    if failure.None? {
      failure := FinishReduce(stacks, ctx, n, a, value, c);
    }
  }

  method FinishReduce(stacks: Stacks, ctx: ParseContext, n: nat, a: int, value: SemVal, ghost c: Conf)
    returns (failure: Option<ParseError>)
    requires stacks.Valid() && ctx.Valid() && stacks.States() == c.ss && stacks.Values() == c.sem.vs
    requires n < stacks.size && NTOKENS <= a < NTOKENS + 20 && value == FirstValue(c.sem.vs, n)
    modifies stacks, stacks.yyss, stacks.yyvs
    ensures match Replaced(c, n, a, Done(ctx.Value()))
            case Stop(result) => failure.Some? && result == Rejected(failure.value)
            case Go(c') => failure.None? && stacks.Valid() && ctx.Valid() && c' == ConfOf(stacks, ctx, c.input)
    ensures stacks.yyss == old(stacks.yyss) || fresh(stacks.yyss)
    ensures stacks.yyvs == old(stacks.yyvs) || fresh(stacks.yyvs)
  {
    var ok := PopAndPush(stacks, n, a, value);
    failure := if ok then None else Some(MemoryExhausted);
  }

  /** Pops `n` entries and pushes nonterminal `a` with its value. */
  method PopAndPush(stacks: Stacks, n: nat, a: int, value: SemVal) returns (ok: bool)
    requires stacks.Valid() && n < stacks.size && NTOKENS <= a < NTOKENS + 20
    modifies stacks, stacks.yyss, stacks.yyvs
    ensures ok <==> old(stacks.size) - n + 1 < YYMAXDEPTH
    ensures var m := old(stacks.size) - n; var below := old(stacks.States())[..m];
            ok ==> stacks.Valid() && stacks.States() == below + [GotoOf(TopState(below), a)]
                   && stacks.Values() == old(stacks.Values())[..m] + [value]
    ensures stacks.yyss == old(stacks.yyss) || fresh(stacks.yyss)
    ensures stacks.yyvs == old(stacks.yyvs) || fresh(stacks.yyvs)
  {
    stacks.Pop(n);
    var below, _ := stacks.Top();
    ok := stacks.Push(GotoOf(below, a), value);
  }

  /** `yynewstate` after a shift. */
  method ShiftToken(stacks: Stacks, ctx: ParseContext, state: int, token: Token, ghost c: Conf) returns (ok: bool)
    requires stacks.Valid() && ctx.Valid() && c == ConfOf(stacks, ctx, c.input) && Lockstep(c)
    requires c.input != [] && token == c.input[0] && Edge(TopState(c.ss), state) && Pending(state) <= 5
    modifies stacks, stacks.yyss, stacks.yyvs
    ensures match ShiftStep(c, state)
            case Stop(result) => !ok && result == Rejected(MemoryExhausted)
            case Go(c') =>
              ok && stacks.Valid() && ctx.Valid() && c' == ConfOf(stacks, ctx, c.input[1..]) && c'.input == c.input[1..]
    ensures stacks.yyss == old(stacks.yyss) || fresh(stacks.yyss)
    ensures stacks.yyvs == old(stacks.yyvs) || fresh(stacks.yyvs)
  {
    ok := stacks.Push(state, Lval(token));
  }

  lemma FinalIsLow(ss: seq<int>)
    requires Path(ss) && TopState(ss) == 2
    ensures |ss| == 2
  {
    var h := |ss| - 1;
    assert ss[h - 1] == 0;
    if h - 1 > 0 {
      EdgeRange(ss[h - 2], ss[h - 1]);
    }
  }

  lemma RunShift(c: Conf, state: int)
    requires ContextOk(c) && 0 <= TopState(c.ss) < NSTATES
    requires ActionOf(TopState(c.ss), Look(c.input)) == Shift(state)
    ensures state == FINAL ==> |c.ss| == 2 && c.input == [] && Run(c) == Accepted(c.sem.ctx)
    ensures state != FINAL ==> c.input != [] && Edge(TopState(c.ss), state) && Pending(state) <= 5
    ensures state != FINAL ==>
              match ShiftStep(c, state)
              case Stop(result) => Run(c) == result
              case Go(c') => Run(c) == Run(c') && ContextOk(c')
  {
    StepOnShift(c, state);
    if state == FINAL {
      FinalIsLow(c.ss);
    } else {
      ShiftKeepsContext(c, state);
    }
  }

  /** The run goes on as the step does. */
  lemma RunReduce(c: Conf, r: int)
    requires ContextOk(c) && 0 <= TopState(c.ss) < NSTATES
    requires ActionOf(TopState(c.ss), Look(c.input)) == Action.Reduce(r)
    ensures Reducible(c.ss) && r == DefaultAct(TopState(c.ss))
    ensures !Act(r, c.sem.ctx, c.sem.vs).Fault? && RunsOn(c, ReduceStep(c, r))
  {
    StepOnReduce(c, r);
    ReduceKeepsContext(c, r);
    ReduceActOk(c);
  }

  /** The run goes on as `next` says. */
  ghost predicate RunsOn(c: Conf, next: Next)
    requires ContextOk(c)
  {
    match next
    case Stop(result) => Run(c) == result
    case Go(c') => ContextOk(c') && Run(c) == Run(c') && Budget(c') < Budget(c)
  }

  lemma StepReplaced(c: Conf, r: int, n: int, a: int)
    requires Lockstep(c) && Reducible(c.ss) && r == DefaultAct(TopState(c.ss)) && n == R2(r) && a == R1(r)
    ensures 0 <= n < |c.ss| && NTOKENS <= a < NTOKENS + 20
    ensures ReduceStep(c, r) == Replaced(c, n, a, Act(r, c.sem.ctx, c.sem.vs))
  {
    ReduceStepIs(c, r, n, a);
  }

  /** The length and the left-hand side of the rule to reduce. */
  method RuleShape(r: int, ghost c: Conf) returns (n: nat, a: int)
    requires ContextOk(c) && 0 <= TopState(c.ss) < NSTATES
    requires ActionOf(TopState(c.ss), Look(c.input)) == Action.Reduce(r)
    ensures n < |c.ss| && NTOKENS <= a < NTOKENS + 20
    ensures !Act(r, c.sem.ctx, c.sem.vs).Fault?
    ensures RunsOn(c, Replaced(c, n, a, Act(r, c.sem.ctx, c.sem.vs)))
  {
    RunReduce(c, r);
    StepReplaced(c, r, R2(r), R1(r));
    n, a := R2(r), R1(r);
  }

  /** `yybackup`: what state `q` does; a token is read only if the state's row needs one. */
  method Backup(scanner: Scanner, q: int, yychar: Option<Option<Token>>, ghost input: seq<Token>)
    returns (action: Action, yychar': Option<Option<Token>>)
    requires scanner.Valid() && 0 <= q < NSTATES && Unread(scanner, yychar) == input
    modifies scanner
    ensures scanner.Valid() && Unread(scanner, yychar') == input
    ensures action == ActionOf(q, Look(input)) && (action.Shift? ==> yychar'.Some?)
  {
    yychar' := yychar;
    if Pact(q) == PACT_NINF {
      action := DefaultAction(q);
    } else {
      if yychar'.None? {
        var token := scanner.Yylex();
        yychar' := Some(token);
      }
      action := ActionOf(q, if yychar'.value.None? then 0 else Code(yychar'.value.value));
    }
  }

  /** The tokens not shifted yet: the lookahead, unless it is YYEMPTY (None) or YYEOF, and what
      the scanner has left. */
  ghost function Unread(scanner: Scanner, yychar: Option<Option<Token>>): seq<Token>
    reads scanner
    requires scanner.Valid()
  {
    match yychar
    case None => TokensOf(scanner.libc, scanner.State())
    case Some(None) => []
    case Some(Some(token)) => [token] + TokensOf(scanner.libc, scanner.State())
  }

  /** How yyparse ends: 0, or 1 or 2 with an error. */
  ghost predicate EndsAs(failure: Option<ParseError>, result: ParseResult, ctx: ParseContext)
    reads ctx, ctx.config, ctx.config.depth.Keys, ctx.closed
  {
    match result
    case Accepted(value) => failure.None? && ctx.Valid() && ctx.Value() == value
    case Rejected(e) => failure == Some(e)
    case Crashed => false
  }

  /** Between two rounds. */
  ghost predicate Running(scanner: Scanner, stacks: Stacks, ctx: ParseContext, yychar: Option<Option<Token>>, c: Conf)
    reads scanner, stacks, stacks.yyss, stacks.yyvs, ctx, ctx.config, ctx.config.depth.Keys, ctx.closed
  {
    && scanner.Valid() && stacks.Valid() && ctx.Valid()
    && c == ConfOf(stacks, ctx, c.input) && ContextOk(c) && c.input == Unread(scanner, yychar)
  }

  /** `libconfig_yyparse`: the loop ends as `Parse` says about the tokens of the text. */
  method Yyparse(scanner: Scanner, ctx: ParseContext) returns (failure: Option<ParseError>)
    requires scanner.Valid() && ctx.Valid() && ctx.Value() == InitialCtx
    modifies scanner, ctx, ctx.config, ctx.config.depth.Keys
    ensures EndsAs(failure, Parse(TokensOf(scanner.libc, old(scanner.State()))), ctx)
  {
    var stacks := new Stacks();
    var yychar: Option<Option<Token>> := None;
    ghost var c := LrParser.Initial(TokensOf(scanner.libc, scanner.State()));
    InitialOk(c.input);
    while true
      invariant Running(scanner, stacks, ctx, yychar, c)
      invariant fresh(stacks) && fresh(stacks.yyss) && fresh(stacks.yyvs)
      invariant fresh(ctx.config.depth.Keys - old(ctx.config.depth.Keys))
      invariant Run(c) == Parse(TokensOf(scanner.libc, old(scanner.State())))
      decreases Budget(c)
    {
      var stop;
      stop, yychar, c := Round(scanner, stacks, ctx, yychar, c);
      if stop.Some? {
        return stop.value;
      }
    }
  }

  /** From `yybackup` to `yynewstate`. */
  method Round(scanner: Scanner, stacks: Stacks, ctx: ParseContext, yychar: Option<Option<Token>>, ghost c: Conf)
    returns (stop: Option<Option<ParseError>>, yychar': Option<Option<Token>>, ghost c': Conf)
    requires Running(scanner, stacks, ctx, yychar, c)
    modifies scanner, stacks, stacks.yyss, stacks.yyvs, ctx, ctx.config, ctx.config.depth.Keys
    ensures Proceeds(stop, c, c', stacks, ctx)
    ensures stop.None? ==> scanner.Valid() && c'.input == Unread(scanner, yychar')
    ensures fresh(ctx.config.depth.Keys - old(ctx.config.depth.Keys))
    ensures stacks.yyss == old(stacks.yyss) || fresh(stacks.yyss)
    ensures stacks.yyvs == old(stacks.yyvs) || fresh(stacks.yyvs)
  {
    var q, _ := stacks.Top();
    TopInRange(c.ss);
    var action;
    action, yychar' := Backup(scanner, q, yychar, c.input);
    match action
    case Error =>
      assert Step(c) == Stop(Rejected(SyntaxError)) && Run(c) == Rejected(SyntaxError);
      Recover(stacks);
      return Some(Some(SyntaxError)), yychar', c;
    case Shift(state) =>
      stop, c' := ShiftNext(stacks, ctx, state, yychar'.value, c);
      yychar' := None;
    case Reduce(r) =>
      stop, c' := ReduceNext(stacks, ctx, r, c);
  }

  /** The parse ends as the run does, or goes on from `c'`. */
  ghost predicate Proceeds(stop: Option<Option<ParseError>>, c: Conf, c': Conf, stacks: Stacks, ctx: ParseContext)
    reads stacks, stacks.yyss, stacks.yyvs, ctx, ctx.config, ctx.config.depth.Keys, ctx.closed
    requires ContextOk(c)
  {
    match stop
    case Some(failure) => EndsAs(failure, Run(c), ctx)
    case None =>
      && stacks.Valid() && ctx.Valid() && c' == ConfOf(stacks, ctx, c'.input)
      && ContextOk(c') && Run(c') == Run(c) && Budget(c') < Budget(c)
  }

  method ShiftNext(stacks: Stacks, ctx: ParseContext, state: int, token: Option<Token>, ghost c: Conf)
    returns (stop: Option<Option<ParseError>>, ghost c': Conf)
    requires stacks.Valid() && ctx.Valid() && c == ConfOf(stacks, ctx, c.input) && ContextOk(c)
    requires 0 <= TopState(c.ss) < NSTATES && ActionOf(TopState(c.ss), Look(c.input)) == Shift(state)
    requires token == if c.input == [] then None else Some(c.input[0])
    modifies stacks, stacks.yyss, stacks.yyvs
    ensures Proceeds(stop, c, c', stacks, ctx) && (stop.None? ==> c.input != [] && c'.input == c.input[1..])
    ensures stacks.yyss == old(stacks.yyss) || fresh(stacks.yyss)
    ensures stacks.yyvs == old(stacks.yyvs) || fresh(stacks.yyvs)
  {
    RunShift(c, state);
    c' := c;
    if state == FINAL {
      var _ := stacks.Push(state, Undef);
      return Some(None), c;
    }
    var ok := ShiftToken(stacks, ctx, state, token.value, c);
    if !ok {
      return Some(Some(MemoryExhausted)), c;
    }
    return None, ShiftStep(c, state).conf;
  }

  method ReduceNext(stacks: Stacks, ctx: ParseContext, r: int, ghost c: Conf)
    returns (stop: Option<Option<ParseError>>, ghost c': Conf)
    requires stacks.Valid() && ctx.Valid() && c == ConfOf(stacks, ctx, c.input) && ContextOk(c)
    requires 0 <= TopState(c.ss) < NSTATES && ActionOf(TopState(c.ss), Look(c.input)) == Action.Reduce(r)
    modifies stacks, stacks.yyss, stacks.yyvs, ctx, ctx.config, ctx.config.depth.Keys
    ensures fresh(ctx.config.depth.Keys - old(ctx.config.depth.Keys))
    ensures Proceeds(stop, c, c', stacks, ctx) && (stop.None? ==> c'.input == c.input)
    ensures stacks.yyss == old(stacks.yyss) || fresh(stacks.yyss)
    ensures stacks.yyvs == old(stacks.yyvs) || fresh(stacks.yyvs)
  {
    var n, a := RuleShape(r, c);
    ghost var next := Replaced(c, n, a, Act(r, c.sem.ctx, c.sem.vs));
    var failure := Reduce(stacks, ctx, r, n, a, c);
    if failure.Some? {
      return Some(failure), c;
    }
    return None, next.conf;
  }

  lemma TopInRange(ss: seq<int>)
    requires Path(ss)
    ensures 0 <= TopState(ss) < NSTATES
  {
    PathRange(ss);
  }

  lemma InitialOk(tokens: seq<Token>)
    ensures ContextOk(LrParser.Initial(tokens))
  {
    assert [0][..0] == [];
  }

  /** `config_read` on a whole text: it ends as the specification says, and then the settings
      below the root of a valid configuration are those that the text denotes. */
  method ConfigRead(libc: Libc, casts: Casts, text: string) returns (config: Config, failure: Option<ParseError>)
    ensures match Parse(Tokenize(libc, text))
            case Accepted(value) =>
              && failure.None? && config.Valid() && |value.spine| == 1
              && Rep(config.root, Setting(None, GroupV(value.spine[0].done)), config.depth.Keys)
            case Rejected(e) => failure == Some(e)
            case Crashed => false
  {
    var scanner := new Scanner(libc, text);
    var ctx := new ParseContext(casts);
    config := ctx.config;
    failure := Yyparse(scanner, ctx);
    if failure.None? {
      ParserNeverCrashes(Tokenize(libc, text));
      RootRepresents(ctx);
    }
  }

  lemma RootRepresents(ctx: ParseContext)
    requires ctx.Valid() && |ctx.Value().spine| == 1 && ctx.Value().spine[0].kind == KGroup
    ensures Rep(ctx.config.root, Setting(None, GroupV(ctx.Value().spine[0].done)), ctx.config.depth.Keys)
  {
    ctx.SettledMirror();
    var root, done, list := ctx.config.root, ctx.Settled(), ctx.Value().spine[0].done;
    assert FrameOk(ctx.config, ctx.path, ctx.Value().spine, null, done, 0);
    forall i | 0 <= i < |list| ensures Rep(root.elements[i], list[i], ctx.config.depth.Keys) {
      RepGrows(root.elements[i], list[i], done, ctx.config.depth.Keys);
    }
  }
}
