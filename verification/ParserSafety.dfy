/** What holds in every run of the parser: it never uses a dangling `ctx->setting`, and its
    stacks grow with the nesting of brackets only. */
module ParserSafety {
  import opened Wrappers
  import opened Settings
  import opened ParseActions
  import opened GrammarTables
  import opened GrammarFacts
  import opened LrParser

  // ----- stack height -----

  predicate OpenState(q: int) { 16 <= q <= 18 }

  predicate CloseState(q: int) { q == 41 || q == 43 || q == 44 }

  /** Number of opening brackets on the state stack. */
  function Opens(ss: seq<int>): nat {
    if ss == [] then 0 else Opens(ss[..|ss| - 1]) + if OpenState(TopState(ss)) then 1 else 0
  }

  /** How far above six entries per open bracket a stack with this top can be. */
  function Room(q: int): nat {
    if 28 <= q <= 31 then 7
    else if 9 <= q <= 15 || 19 <= q <= 24 then 6
    else if q == 8 then 5
    else if q == 5 || q == 45 || q == 46 then 4
    else if q == 1 || q == 6 || q == 7 || 40 <= q <= 44 then 3
    else if 2 <= q <= 4 || 32 <= q <= 39 then 2
    else if q == 0 || 25 <= q <= 27 then 1
    else 0
  }

  lemma RoomGrows(p: int, q: int)
    requires Edge(p, q)
    ensures Room(p) + 1 <= Room(q) + if OpenState(q) then 6 else 0
  {
  }

  lemma {:induction false} HeightBound(ss: seq<int>)
    requires Path(ss)
    ensures |ss| <= 6 * Opens(ss) + Room(TopState(ss))
  {
    if |ss| > 1 {
      var below := ss[..|ss| - 1];
      HeightBound(below);
      RoomGrows(TopState(below), TopState(ss));
    } else {
      assert ss[..0] == [];
    }
  }

  /** Brackets opened and not closed again. */
  function Depth(tokens: seq<Token>): int {
    if tokens == [] then 0
    else
      var k := Code(tokens[|tokens| - 1]);
      Depth(tokens[..|tokens| - 1]) +
      (if k == 13 || k == 15 || k == 18 then 1 else if k == 14 || k == 16 || k == 19 then -1 else 0)
  }

  /** The deepest nesting of brackets in the input. */
  function Nesting(tokens: seq<Token>): int {
    if tokens == [] then 0
    else
      var outer := Nesting(tokens[..|tokens| - 1]);
      if Depth(tokens) > outer then Depth(tokens) else outer
  }

  lemma {:induction false} NestingOfPrefix(tokens: seq<Token>, n: nat)
    requires n <= |tokens|
    ensures Depth(tokens[..n]) <= Nesting(tokens)
  {
    if n == |tokens| {
      assert tokens[..n] == tokens;
    } else {
      NestingOfPrefix(tokens[..|tokens| - 1], n);
      assert tokens[..|tokens| - 1][..n] == tokens[..n];
    }
  }

  /** The brackets on the stack are those open in the tokens consumed so far. */
  ghost predicate Balanced(c: Conf, consumed: seq<Token>)
    requires Lockstep(c)
  {
    Depth(consumed) == Opens(c.ss) - if CloseState(TopState(c.ss)) then 1 else 0
  }

  lemma ShiftBalanced(c: Conf, consumed: seq<Token>, q: int)
    requires Lockstep(c) && Balanced(c, consumed) && c.input != []
    requires Edge(TopState(c.ss), q) && 0 <= q < NSTATES && Stos(q) == Code(c.input[0])
    ensures Depth(consumed + [c.input[0]]) == Opens(c.ss + [q]) - if CloseState(q) then 1 else 0
  {
    var tokens := consumed + [c.input[0]];
    assert tokens[..|tokens| - 1] == consumed;
    assert (c.ss + [q])[..|c.ss|] == c.ss;
    ClosedStateIsTop(TopState(c.ss), q);
    BracketStates(q);
  }

  lemma ClosedStateIsTop(p: int, q: int)
    requires Edge(p, q)
    ensures !CloseState(p)
  {
  }

  lemma BracketStates(q: int)
    requires 0 <= q < NSTATES
    ensures OpenState(q) <==> Stos(q) == 13 || Stos(q) == 15 || Stos(q) == 18
    ensures CloseState(q) <==> Stos(q) == 14 || Stos(q) == 16 || Stos(q) == 19
  {
  }

  lemma {:induction false} OpensPop(ss: seq<int>, n: nat)
    requires n <= |ss| && forall i | |ss| - n <= i < |ss| :: !OpenState(ss[i])
    ensures Opens(ss[..|ss| - n]) == Opens(ss)
  {
    if n == 0 {
      assert ss[..|ss|] == ss;
    } else {
      OpensPop(ss[..|ss| - 1], n - 1);
      assert ss[..|ss| - 1][..|ss| - n] == ss[..|ss| - n];
    }
  }

  predicate BracketRule(r: int) { r == 14 || r == 16 || r == 39 }

  lemma PlainRuleHasNoBrackets(r: int, i: int)
    requires 1 < r <= NRULES && !BracketRule(r) && 0 <= i < R2(r)
    ensures var x := RhsAt(r, i); x < 13 || x == 17 || 19 < x
  {
  }

  lemma BracketRuleShape(r: int)
    requires BracketRule(r)
    ensures R2(r) == 4 && (RhsAt(r, 0) == 13 || RhsAt(r, 0) == 15 || RhsAt(r, 0) == 18)
    ensures RhsAt(r, 1) >= NTOKENS && RhsAt(r, 2) >= NTOKENS
    ensures RhsAt(r, 3) == 14 || RhsAt(r, 3) == 16 || RhsAt(r, 3) == 19
  {
  }

  /** A reduction takes away an open bracket exactly when it closes one. */
  lemma ReduceBalanced(ss: seq<int>)
    requires Path(ss) && Reducible(ss)
    ensures Opens(Reduced(ss)) == Opens(ss) - if CloseState(TopState(ss)) then 1 else 0
    ensures !CloseState(TopState(Reduced(ss))) && !OpenState(TopState(Reduced(ss)))
  {
    var r := DefaultAct(TopState(ss));
    var n := R2(r);
    var rest := ss[..|ss| - n];
    var g := GotoOf(TopState(rest), R1(r));
    EdgeRange(TopState(rest), g);
    BracketStates(g);
    assert Reduced(ss)[..|rest|] == rest;
    if BracketRule(r) {
      BracketRuleShape(r);
      BracketHandle(ss, r);
    } else {
      PlainHandle(ss, r, n);
      if n == 0 {
        EmptyRuleState(TopState(ss));
      }
    }
  }

  lemma PlainHandle(ss: seq<int>, r: int, n: nat)
    requires 1 < r <= NRULES && n == R2(r) < |ss| && Handle(ss, r, n) && !BracketRule(r)
    ensures Opens(ss[..|ss| - n]) == Opens(ss) && (n > 0 ==> !CloseState(TopState(ss)))
  {
    forall i | |ss| - n <= i < |ss| ensures !OpenState(ss[i]) && !CloseState(ss[i]) {
      PlainEntry(ss, r, n, i - (|ss| - n));
    }
    OpensPop(ss, n);
  }

  lemma PlainEntry(ss: seq<int>, r: int, n: nat, i: nat)
    requires 1 < r <= NRULES && i < n == R2(r) < |ss| && Handle(ss, r, n) && !BracketRule(r)
    ensures var q := ss[|ss| - n + i]; !OpenState(q) && !CloseState(q)
  {
    PlainRuleHasNoBrackets(r, i);
    HandleSymbol(ss, r, n, i);
    BracketStates(ss[|ss| - n + i]);
  }

  lemma BracketHandle(ss: seq<int>, r: int)
    requires BracketRule(r) && R2(r) == 4 < |ss| && Handle(ss, r, 4)
    ensures CloseState(TopState(ss)) && Opens(ss[..|ss| - 4]) == Opens(ss) - 1
  {
    var h := |ss| - 1;
    BracketRuleShape(r);
    BracketSymbols(ss, r);
    OpensPop(ss, 3);
    assert ss[..h - 2][..h - 3] == ss[..h - 3];
  }

  lemma BracketSymbols(ss: seq<int>, r: int)
    requires BracketRule(r) && R2(r) == 4 < |ss| && Handle(ss, r, 4)
    ensures var m := |ss| - 4;
      OpenState(ss[m]) && !OpenState(ss[m + 1]) && !OpenState(ss[m + 2]) && !OpenState(ss[m + 3])
          && CloseState(ss[m + 3])
  {
    BracketRuleShape(r);
    forall j | 0 <= j < 4 ensures 0 <= ss[|ss| - 4 + j] < NSTATES && Stos(ss[|ss| - 4 + j]) == RhsAt(r, j) {
      HandleSymbol(ss, r, 4, j);
    }
    BracketStates(ss[|ss| - 4]);
    BracketStates(ss[|ss| - 3]);
    BracketStates(ss[|ss| - 2]);
    BracketStates(ss[|ss| - 1]);
  }

  lemma EmptyRuleState(q: int)
    requires 0 <= q < NSTATES && 1 < DefaultAct(q) <= NRULES && R2(DefaultAct(q)) == 0
    ensures !CloseState(q)
  {
  }

  /** The stack height that nesting of depth d can cause. */
  function HeightFor(d: int): int { 6 * d + 7 }

  lemma ShiftHeight(c: Conf, consumed: seq<Token>, q: int)
    requires Lockstep(c) && Balanced(c, consumed) && c.input != []
    requires Edge(TopState(c.ss), q) && 0 <= q < NSTATES && Stos(q) == Code(c.input[0])
    ensures |c.ss| + 1 <= HeightFor(Nesting(consumed + c.input))
  {
    var tokens := consumed + c.input;
    ShiftBalanced(c, consumed, q);
    PathExtends(c.ss, q);
    HeightBound(c.ss + [q]);
    assert tokens[..|consumed| + 1] == consumed + [c.input[0]];
    NestingOfPrefix(tokens, |consumed| + 1);
    assert tokens[..|consumed|] == consumed;
    NestingOfPrefix(tokens, |consumed|);
    ClosedStateIsTop(TopState(c.ss), q);
    assert (c.ss + [q])[..|c.ss|] == c.ss;
  }

  lemma ShiftKeepsBalance(c: Conf, consumed: seq<Token>, q: int)
    requires Lockstep(c) && Balanced(c, consumed) && c.input != []
    requires Edge(TopState(c.ss), q) && 0 <= q < NSTATES && Stos(q) == Code(c.input[0])
    requires Pending(q) <= 5 && ShiftStep(c, q).Go?
    ensures var c' := ShiftStep(c, q).conf; var consumed' := consumed + [c.input[0]];
            Balanced(c', consumed') && consumed' + c'.input == consumed + c.input
  {
    ShiftBalanced(c, consumed, q);
  }

  lemma ReduceHeight(c: Conf, consumed: seq<Token>)
    requires Lockstep(c) && Balanced(c, consumed) && Reducible(c.ss)
    ensures |Reduced(c.ss)| <= HeightFor(Nesting(consumed + c.input))
  {
    ReducedIsPath(c.ss);
    ReduceBalanced(c.ss);
    HeightBound(Reduced(c.ss));
    RoomIsSmall(TopState(Reduced(c.ss)));
    assert (consumed + c.input)[..|consumed|] == consumed;
    NestingOfPrefix(consumed + c.input, |consumed|);
  }

  lemma RoomIsSmall(q: int)
    ensures Room(q) <= 7
  {
  }

  lemma ReduceKeepsBalance(c: Conf, consumed: seq<Token>, r: int)
    requires Lockstep(c) && Balanced(c, consumed)
    requires Reducible(c.ss) && r == DefaultAct(TopState(c.ss))
    ensures var next := ReduceStep(c, r);
            if next.Go? then Balanced(next.conf, consumed) && next.conf.input == c.input
            else next.result == Rejected(MemoryExhausted) ==> |Reduced(c.ss)| >= YYMAXDEPTH
  {
    ReducedIsPath(c.ss);
    ReduceBalanced(c.ss);
    ActNeverExhausts(r, c.sem.ctx, c.sem.vs);
  }

  /** The greatest stack height of a run. */
  function HighWater(c: Conf): nat
    requires Lockstep(c)
    decreases Budget(c)
  {
    match Step(c)
    case Stop(_) => |c.ss|
    case Go(c') => if HighWater(c') > |c.ss| then HighWater(c') else |c.ss|
  }

  /** A step keeps the balance and the bound on the height. */
  lemma StepHeight(c: Conf, consumed: seq<Token>) returns (consumed': seq<Token>)
    requires Lockstep(c) && Balanced(c, consumed) && Step(c).Go?
    ensures Balanced(Step(c).conf, consumed') && consumed' + Step(c).conf.input == consumed + c.input
    ensures |Step(c).conf.ss| <= HeightFor(Nesting(consumed + c.input))
  {
    PathRange(c.ss);
    match ActionOf(TopState(c.ss), Look(c.input))
    case Shift(q) =>
      ShiftFacts(TopState(c.ss), Look(c.input));
      ShiftHeight(c, consumed, q);
      ShiftKeepsBalance(c, consumed, q);
      consumed' := consumed + [c.input[0]];
    case Reduce(r) =>
      ReductionsFit(c.ss, Look(c.input));
      ReduceHeight(c, consumed);
      ReduceKeepsBalance(c, consumed, r);
      consumed' := consumed;
  }

  /** Only a stack that nesting made too high is refused. */
  lemma StopHeight(c: Conf, consumed: seq<Token>)
    requires Lockstep(c) && Balanced(c, consumed) && Step(c) == Stop(Rejected(MemoryExhausted))
    ensures HeightFor(Nesting(consumed + c.input)) >= YYMAXDEPTH
  {
    PathRange(c.ss);
    match ActionOf(TopState(c.ss), Look(c.input))
    case Shift(q) =>
      ShiftFacts(TopState(c.ss), Look(c.input));
      ShiftHeight(c, consumed, q);
    case Reduce(r) =>
      ReductionsFit(c.ss, Look(c.input));
      ReduceHeight(c, consumed);
      ReduceKeepsBalance(c, consumed, r);
  }

  lemma {:induction false} RunHeight(c: Conf, consumed: seq<Token>)
    requires Lockstep(c) && Balanced(c, consumed)
    requires |c.ss| <= HeightFor(Nesting(consumed + c.input))
    ensures HighWater(c) <= HeightFor(Nesting(consumed + c.input))
    ensures Run(c) == Rejected(MemoryExhausted) ==>
              HeightFor(Nesting(consumed + c.input)) >= YYMAXDEPTH
    decreases Budget(c)
  {
    match Step(c)
    case Stop(result) =>
      if result == Rejected(MemoryExhausted) {
        StopHeight(c, consumed);
      }
    case Go(c') =>
      var consumed' := StepHeight(c, consumed);
      RunHeight(c', consumed');
  }

  lemma ActNeverExhausts(r: int, ctx: Ctx, vs: seq<SemVal>)
    ensures Act(r, ctx, vs) != Fail(MemoryExhausted)
  {
  }

  /** The stack height of a whole parse is linear in the nesting of brackets alone, so an
      input that nests at most 1665 deep never fills the stacks, however long it is. */
  lemma HeightIsLinearInNesting(tokens: seq<Token>)
    ensures HighWater(Initial(tokens)) <= 6 * Nesting(tokens) + 7
    ensures Nesting(tokens) <= 1665 ==> Parse(tokens) != Rejected(MemoryExhausted)
  {
    assert [0][..0] == [];
    assert [] + tokens == tokens;
    NestingOfPrefix(tokens, 0);
    RunHeight(Initial(tokens), []);
  }
}
