/** The parse context in every run: `ctx->parent` always has the kind that the innermost open
    bracket calls for, and a value outside arrays and lists always finds a setting that was
    just named and has no value yet.  So no action uses a null or stale pointer. */
module ParserContext {
  import opened Wrappers
  import opened Settings
  import opened ParseActions
  import opened GrammarTables
  import opened GrammarFacts
  import opened LrParser

  /** The aggregate that is open once this state is on the stack. */
  function Opened(q: int): seq<Kind> {
    if q == 0 || q == 27 then [KGroup]
    else if q == 25 then [KArray]
    else if q == 26 then [KList]
    else []
  }

  function Kinds(ss: seq<int>): seq<Kind> {
    if ss == [] then [] else Kinds(ss[..|ss| - 1]) + Opened(TopState(ss))
  }

  predicate KindsMatch(spine: seq<Frame>, kinds: seq<Kind>) {
    |spine| == |kinds| && forall i | 0 <= i < |spine| :: spine[i].kind == kinds[i]
  }

  /** A value is being read directly after `name =`. */
  predicate ValuePending(ss: seq<int>) {
    ss != [] &&
    var h := |ss| - 1;
    || ss[h] == 5 || ss[h] == 8
    || (h >= 1 && ss[h - 1] == 8 && (9 <= ss[h] <= 18 || ss[h] == 22))
    || (h >= 2 && ss[h - 2] == 8 && ss[h] == 31)
  }

  /** A token on the value stack lies beside the state it led into. */
  predicate TokensMatch(ss: seq<int>, vs: seq<SemVal>) {
    |ss| == |vs| &&
    forall i | 0 < i < |ss| && 0 <= ss[i] < NSTATES && Stos(ss[i]) < NTOKENS ::
      vs[i].Lval? && Code(vs[i].token) == Stos(ss[i])
  }

  ghost predicate ContextOk(c: Conf) {
    && Lockstep(c) && KindsMatch(c.sem.ctx.spine, Kinds(c.ss)) && TokensMatch(c.ss, c.sem.vs)
    && (ValuePending(c.ss) ==> Fresh(c.sem.ctx))
  }

  lemma KindsOfPush(ss: seq<int>, q: int)
    ensures Kinds(ss + [q]) == Kinds(ss) + Opened(q)
  {
    assert (ss + [q])[..|ss|] == ss;
  }

  lemma {:induction false} KindsOfPop(ss: seq<int>, n: nat)
    requires n <= |ss| && forall i | |ss| - n <= i < |ss| :: Opened(ss[i]) == []
    ensures Kinds(ss[..|ss| - n]) == Kinds(ss)
  {
    if n == 0 {
      assert ss[..|ss|] == ss;
    } else {
      KindsOfPop(ss[..|ss| - 1], n - 1);
      assert ss[..|ss| - 1][..|ss| - n] == ss[..|ss| - n];
    }
  }

  /** The innermost open aggregate. */
  predicate Innermost(ss: seq<int>, kind: Kind) {
    Kinds(ss) != [] && Kinds(ss)[|Kinds(ss)| - 1] == kind
  }

  lemma InnermostList(ss: seq<int>)
    requires Path(ss) && (TopState(ss) == 26 || TopState(ss) == 42)
    ensures Innermost(ss, KList)
  {
    var h := |ss| - 1;
    if ss[h] == 42 {
      assert ss[h - 1] == 36;
      assert ss[h - 2] == 26;
      KindsOfPop(ss, 2);
      assert TopState(ss[..h - 1]) == 26;
    }
  }

  lemma InnermostArray(ss: seq<int>)
    requires Path(ss) && (TopState(ss) == 25 || TopState(ss) == 40)
    ensures Innermost(ss, KArray)
  {
    var h := |ss| - 1;
    if ss[h] == 40 {
      assert ss[h - 1] == 33;
      assert ss[h - 2] == 25;
      KindsOfPop(ss, 2);
      assert TopState(ss[..h - 1]) == 25;
    }
  }

  /** An action succeeded or failed cleanly, and left the context as the new stack needs it. */
  ghost predicate ActOk(outcome: ActOutcome, ss: seq<int>) {
    match outcome
    case Fault => false
    case Fail(_) => true
    case Done(ctx) => KindsMatch(ctx.spine, Kinds(ss)) && (ValuePending(ss) ==> Fresh(ctx))
  }

  lemma NameActOk(c: Conf)
    requires ContextOk(c) && TopState(c.ss) == 1
    ensures ActOk(Act(11, c.sem.ctx, c.sem.vs), c.ss + [5])
  {
    KindsOfPush(c.ss, 5);
    BottomKind(c.ss);
  }

  lemma {:induction false} BottomKind(ss: seq<int>)
    requires Path(ss)
    ensures Kinds(ss) != [] && Kinds(ss)[0] == KGroup
  {
    if |ss| > 1 {
      BottomKind(ss[..|ss| - 1]);
    } else {
      assert ss[..0] == [];
    }
  }

  lemma OpenOk(ctx: Ctx, kinds: seq<Kind>, kind: Kind)
    requires kinds != [] && KindsMatch(ctx.spine, kinds)
    requires kinds[|kinds| - 1] != KList ==> Fresh(ctx)
    ensures Open(ctx, kind).Done? && KindsMatch(Open(ctx, kind).ctx.spine, kinds + [kind])
  {
  }

  lemma OpenAct(r: int, ctx: Ctx, vs: seq<SemVal>, kind: Kind)
    requires ctx.spine != [] && vs != []
    requires r == (match kind case KArray => 13 case KList => 15 case KGroup => 38)
    ensures Act(r, ctx, vs) == Open(ctx, kind)
  {
  }

  lemma OpenPlace(ss: seq<int>)
    requires Path(ss) && 16 <= TopState(ss) <= 18
    ensures Kinds(ss) != [] && (Kinds(ss)[|Kinds(ss)| - 1] != KList ==> ValuePending(ss))
  {
    var h := |ss| - 1;
    BottomKind(ss);
    KindsOfPop(ss, 1);
    assert Edge(ss[h - 1], ss[h]);
    if ss[h - 1] == 26 || ss[h - 1] == 42 {
      InnermostList(ss[..h]);
    }
  }

  lemma OpenActOk(c: Conf, r: int)
    requires ContextOk(c) && 16 <= TopState(c.ss) <= 18
    requires r == (if TopState(c.ss) == 16 then 13 else if TopState(c.ss) == 17 then 15 else 38)
    ensures ActOk(Act(r, c.sem.ctx, c.sem.vs), c.ss + [TopState(c.ss) + 9])
  {
    var q := TopState(c.ss);
    var kind := if q == 16 then KArray else if q == 17 then KList else KGroup;
    KindsOfPush(c.ss, q + 9);
    OpenPlace(c.ss);
    OpenOk(c.sem.ctx, Kinds(c.ss), kind);
    OpenAct(r, c.sem.ctx, c.sem.vs, kind);
    assert TopState(c.ss + [q + 9]) == q + 9;
    NothingPending(c.ss + [q + 9], q + 9);
  }

  /** Below a closing bracket lie its contents, the marker, the opening bracket and a state. */
  lemma CloseShape(ss: seq<int>)
    requires Path(ss)
    requires var q := TopState(ss); q == 41 || q == 43 || q == 44
    ensures |ss| > 4 && Path(ss[..|ss| - 4])
    ensures 25 <= ss[|ss| - 3] <= 27 && 16 <= ss[|ss| - 4] <= 18
    ensures 34 <= ss[|ss| - 2] <= 39
  {
    var h := |ss| - 1;
    if ss[h] == 41 {
      assert ss[h - 1] == 34;
      assert ss[h - 2] == 25;
      assert ss[h - 3] == 16;
    } else if ss[h] == 43 {
      assert ss[h - 1] == 37;
      assert ss[h - 2] == 26;
      assert ss[h - 3] == 17;
    } else {
      assert ss[h - 1] == 39;
      assert ss[h - 2] == 27;
      assert ss[h - 3] == 18;
    }
  }

  lemma CloseKinds(ss: seq<int>)
    requires Path(ss)
    requires var q := TopState(ss); q == 41 || q == 43 || q == 44
    ensures |ss| > 4 && Kinds(ss[..|ss| - 4]) != []
    ensures |Kinds(ss)| > 1 && Kinds(ss)[..|Kinds(ss)| - 1] == Kinds(ss[..|ss| - 4])
  {
    CloseShape(ss);
    var n := |ss|;
    BottomKind(ss[..n - 4]);
    LastFour(ss);
    KindsInBrackets(ss[..n - 4], ss[n - 4], ss[n - 3], ss[n - 2], ss[n - 1]);
  }

  lemma KindsInBrackets(rest: seq<int>, a: int, b: int, c: int, d: int)
    requires 16 <= a <= 18 && 25 <= b <= 27 && 34 <= c <= 39 && d >= 41
    ensures Kinds(rest + [a] + [b] + [c] + [d]) == Kinds(rest) + Opened(b) && |Opened(b)| == 1
  {
    KindsOfFour(rest, a, b, c, d);
    OpenedInBrackets(a, b, c, d);
  }

  lemma LastFour(ss: seq<int>)
    requires |ss| >= 4
    ensures var m := |ss| - 4; ss == ss[..m] + [ss[m]] + [ss[m + 1]] + [ss[m + 2]] + [ss[m + 3]]
  {
  }

  lemma KindsOfFour(rest: seq<int>, a: int, b: int, c: int, d: int)
    ensures Kinds(rest + [a] + [b] + [c] + [d]) == Kinds(rest) + Opened(a) + Opened(b) + Opened(c) + Opened(d)
  {
    KindsOfPush(rest, a);
    KindsOfPush(rest + [a], b);
    KindsOfPush(rest + [a] + [b], c);
    KindsOfPush(rest + [a] + [b] + [c], d);
  }

  /** Of the states of a bracketed aggregate only the marker opens it. */
  lemma OpenedInBrackets(a: int, b: int, c: int, d: int)
    requires 16 <= a <= 18 && 25 <= b <= 27 && 34 <= c <= 39 && d >= 41
    ensures Opened(a) == [] && |Opened(b)| == 1 && Opened(c) == [] && Opened(d) == []
  {
  }

  lemma CloseOk(ctx: Ctx, kinds: seq<Kind>)
    requires |kinds| > 1 && KindsMatch(ctx.spine, kinds)
    ensures Close(ctx).Done? && KindsMatch(Close(ctx).ctx.spine, kinds[..|kinds| - 1])
  {
  }

  lemma CloseActOk(c: Conf, r: int, g: int)
    requires ContextOk(c) && (r == 14 || r == 16 || r == 39) && (g == 19 || g == 20 || g == 24)
    requires var q := TopState(c.ss); q == 41 || q == 43 || q == 44
    ensures |c.ss| > 4 && ActOk(Act(r, c.sem.ctx, c.sem.vs), c.ss[..|c.ss| - 4] + [g])
  {
    CloseShape(c.ss);
    CloseKinds(c.ss);
    CloseOk(c.sem.ctx, Kinds(c.ss));
    var rest := c.ss[..|c.ss| - 4];
    KindsOfPush(rest, g);
    assert TopState(rest + [g]) == g;
    CloseAct(r, c.sem.ctx, c.sem.vs);
    NothingPending(rest + [g], g);
  }

  lemma CloseAct(r: int, ctx: Ctx, vs: seq<SemVal>)
    requires (r == 14 || r == 16 || r == 39) && ctx.spine != [] && vs != []
    ensures Act(r, ctx, vs) == Close(ctx)
  {
  }

  lemma TextAct(r: int, ctx: Ctx, vs: seq<SemVal>)
    requires (r == 21 || r == 22) && ctx.spine != [] && vs != []
    requires vs[|vs| - 1].Lval? && Code(vs[|vs| - 1].token) == 9
    ensures Act(r, ctx, vs).Done?
    ensures Act(r, ctx, vs).ctx.spine == ctx.spine && Act(r, ctx, vs).ctx.newest == ctx.newest
  {
  }

  lemma FirstStringActOk(c: Conf)
    requires ContextOk(c) && TopState(c.ss) == 15
    ensures ActOk(Act(21, c.sem.ctx, c.sem.vs), c.ss[..|c.ss| - 1] + [22])
  {
    BottomKind(c.ss);
    StringKinds(c.ss);
    StringPending(c.ss);
    TextAct(21, c.sem.ctx, c.sem.vs);
  }

  lemma StringKinds(ss: seq<int>)
    requires ss != [] && TopState(ss) == 15
    ensures Kinds(ss[..|ss| - 1] + [22]) == Kinds(ss)
  {
    assert ss == ss[..|ss| - 1] + [15];
    SameOpened(ss[..|ss| - 1], 15, 22);
  }

  lemma SameOpened(rest: seq<int>, p: int, q: int)
    requires Opened(p) == Opened(q)
    ensures Kinds(rest + [p]) == Kinds(rest + [q])
  {
    KindsOfPush(rest, p);
    KindsOfPush(rest, q);
  }

  lemma StringPending(ss: seq<int>)
    requires ss != [] && TopState(ss) == 15
    ensures ValuePending(ss[..|ss| - 1] + [22]) ==> ValuePending(ss)
  {
    var h, next := |ss| - 1, ss[..|ss| - 1] + [22];
    assert next[h] == 22;
    assert h >= 1 ==> next[h - 1] == ss[h - 1];
  }

  /** Below a further string lie the first ones. */
  lemma NextStringShape(ss: seq<int>)
    requires Path(ss) && TopState(ss) == 31
    ensures |ss| > 2 && ss == ss[..|ss| - 2] + [22] + [31]
  {
    var h := |ss| - 1;
    assert Edge(ss[h - 1], ss[h]);
    assert Edge(ss[h - 2], ss[h - 1]);
  }

  lemma NextStringKinds(rest: seq<int>)
    requires rest != []
    ensures Kinds(rest + [22]) == Kinds(rest + [22] + [31])
    ensures ValuePending(rest + [22]) ==> ValuePending(rest + [22] + [31])
  {
    KindsOfPush(rest + [22], 31);
    var h := |rest| + 1;
    assert (rest + [22])[h - 1] == 22 && (rest + [22])[h - 2] == (rest + [22] + [31])[h - 2];
  }

  lemma NextStringActOk(c: Conf)
    requires ContextOk(c) && TopState(c.ss) == 31
    ensures |c.ss| > 2 && ActOk(Act(22, c.sem.ctx, c.sem.vs), c.ss[..|c.ss| - 2] + [22])
  {
    BottomKind(c.ss);
    NextStringShape(c.ss);
    NextStringKinds(c.ss[..|c.ss| - 2]);
    TextAct(22, c.sem.ctx, c.sem.vs);
  }

  /** The rule for each scalar: what `DefaultAct` gives in states 9 to 14 and 22. */
  predicate ScalarRule(q: int, r: int) {
    match q
    case 9 => r == 23
    case 10 => r == 24
    case 11 => r == 26
    case 12 => r == 25
    case 13 => r == 27
    case 14 => r == 28
    case 22 => r == 29
    case _ => false
  }

  lemma ScalarOk(ctx: Ctx, kinds: seq<Kind>, v: Value)
    requires kinds != [] && KindsMatch(ctx.spine, kinds)
    requires kinds[|kinds| - 1] == KGroup ==> Fresh(ctx)
    ensures match Scalar(ctx, v)
            case Fault => false
            case Fail(_) => true
            case Done(ctx') => KindsMatch(ctx'.spine, kinds)
  {
  }

  lemma ScalarPlace(ss: seq<int>, g: int)
    requires Path(ss) && (9 <= TopState(ss) <= 14 || TopState(ss) == 22)
    requires g == 23 || g == 32 || g == 45
    ensures Kinds(ss) != [] && Kinds(ss[..|ss| - 1] + [g]) == Kinds(ss)
    ensures Kinds(ss)[|Kinds(ss)| - 1] == KGroup ==> ValuePending(ss)
  {
    var h := |ss| - 1;
    var p := ss[h - 1];
    KindsOfPop(ss, 1);
    KindsOfPush(ss[..h], g);
    BottomKind(ss);
    assert p == 8 || p == 25 || p == 26 || p == 40 || p == 42;
    if p == 26 || p == 42 {
      InnermostList(ss[..h]);
    } else if p == 25 || p == 40 {
      InnermostArray(ss[..h]);
    }
  }

  /** The token whose value a scalar rule uses; none for strings, which come from the buffer. */
  predicate ScalarToken(q: int, v: SemVal) {
    q == 22 || (v.Lval? && Code(v.token) == q - 6)
  }

  /** A scalar rule stores one value. */
  lemma ScalarAct(q: int, r: int, ctx: Ctx, vs: seq<SemVal>) returns (at: Ctx, v: Value)
    requires ScalarRule(q, r) && ctx.spine != [] && vs != [] && ScalarToken(q, vs[|vs| - 1])
    ensures at.spine == ctx.spine && at.newest == ctx.newest && Act(r, ctx, vs) == Scalar(at, v)
  {
    at := ctx;
    var t := vs[|vs| - 1];
    match r
    case 23 => v := BoolV(t.token.ival);
    case 24 => v := IntV(t.token.ival, false);
    case 25 => v := Int64V(t.token.llval, false);
    case 26 => v := IntV(t.token.ival, true);
    case 27 => v := Int64V(t.token.llval, true);
    case 28 => v := FloatV(t.token.fval);
    case _ =>
      at := ctx.(str := "");
      v := StringV(ctx.str);
  }

  lemma ScalarActOk(c: Conf, r: int, g: int)
    requires ContextOk(c) && ScalarRule(TopState(c.ss), r) && (g == 23 || g == 32 || g == 45)
    ensures ActOk(Act(r, c.sem.ctx, c.sem.vs), c.ss[..|c.ss| - 1] + [g])
  {
    ScalarPlace(c.ss, g);
    TokenBeside(c.ss, c.sem.vs);
    var at, v := ScalarAct(TopState(c.ss), r, c.sem.ctx, c.sem.vs);
    ScalarLeavesOk(at, Kinds(c.ss), v, c.ss[..|c.ss| - 1] + [g], g);
  }

  lemma ScalarLeavesOk(ctx: Ctx, kinds: seq<Kind>, v: Value, ss: seq<int>, g: int)
    requires kinds != [] && KindsMatch(ctx.spine, kinds) && (kinds[|kinds| - 1] == KGroup ==> Fresh(ctx))
    requires ss != [] && TopState(ss) == g && Kinds(ss) == kinds && (g == 23 || g == 32 || g == 45)
    ensures ActOk(Scalar(ctx, v), ss)
  {
    NothingPending(ss, g);
    ScalarOk(ctx, kinds, v);
  }

  lemma TokenBeside(ss: seq<int>, vs: seq<SemVal>)
    requires Path(ss) && TokensMatch(ss, vs) && (9 <= TopState(ss) <= 14 || TopState(ss) == 22)
    ensures vs != [] && ScalarToken(TopState(ss), vs[|vs| - 1])
  {
    if TopState(ss) != 22 {
      assert Stos(TopState(ss)) == TopState(ss) - 6;
    }
  }

  /** Rules without an action. */
  predicate SilentRule(r: int) {
    1 < r <= NRULES && r != 11 && !(13 <= r <= 16) && !(21 <= r <= 29) && r < 38
  }

  lemma SilentPop(ss: seq<int>, r: int, n: nat)
    requires SilentRule(r) && n == R2(r) <= |ss| && Handle(ss, r, n)
    ensures Kinds(ss[..|ss| - n]) == Kinds(ss)
  {
    forall i | |ss| - n <= i < |ss| ensures Opened(ss[i]) == [] {
      SilentEntry(ss, r, n, i - (|ss| - n));
    }
    KindsOfPop(ss, n);
  }

  lemma SilentEntry(ss: seq<int>, r: int, n: nat, i: nat)
    requires SilentRule(r) && i < n == R2(r) <= |ss| && Handle(ss, r, n)
    ensures Opened(ss[|ss| - n + i]) == []
  {
    HandleSymbol(ss, r, n, i);
    SilentSymbols(r, i, ss[|ss| - n + i]);
  }

  lemma SilentKinds(ss: seq<int>)
    requires Path(ss) && Reducible(ss) && SilentRule(DefaultAct(TopState(ss)))
    ensures Kinds(Reduced(ss)) == Kinds(ss) && !ValuePending(Reduced(ss))
  {
    var r := DefaultAct(TopState(ss));
    var rest := ss[..|ss| - R2(r)];
    var g := GotoOf(TopState(rest), R1(r));
    SilentPop(ss, r, R2(r));
    KindsOfPush(rest, g);
    EdgeRange(TopState(rest), g);
    SilentGoto(r, g);
    NothingPending(Reduced(ss), g);
  }

  lemma NothingPending(ss: seq<int>, g: int)
    requires ss != [] && TopState(ss) == g
    requires g != 5 && g != 8 && g != 22 && g != 31 && !(9 <= g <= 18)
    ensures !ValuePending(ss)
  {
  }

  lemma SilentSymbols(r: int, i: int, q: int)
    requires SilentRule(r) && 0 <= i < R2(r) && 0 <= q < NSTATES && Stos(q) == RhsAt(r, i)
    ensures Opened(q) == []
  {
  }

  lemma SilentGoto(r: int, g: int)
    requires SilentRule(r) && 0 <= g < NSTATES && Stos(g) == R1(r)
    ensures Opened(g) == [] && g != 5 && g != 8 && g != 22 && g != 31 && !(9 <= g <= 18)
  {
  }

  // ----- every step keeps the context in order -----

  lemma MarkerActOk(c: Conf)
    requires ContextOk(c) && Reducible(c.ss)
    requires var r := DefaultAct(TopState(c.ss)); r == 11 || r == 13 || r == 15 || r == 38
    ensures ActOk(Act(DefaultAct(TopState(c.ss)), c.sem.ctx, c.sem.vs), Reduced(c.ss))
  {
    var q := TopState(c.ss);
    MarkerGoto(q);
    assert c.ss[..|c.ss|] == c.ss;
    if q == 1 {
      NameActOk(c);
    } else {
      OpenActOk(c, DefaultAct(q));
    }
  }

  /** The empty rules with an action: where they are reduced and where that leads. */
  lemma MarkerGoto(q: int)
    requires 0 <= q < NSTATES
    requires var r := DefaultAct(q); r == 11 || r == 13 || r == 15 || r == 38
    ensures R2(DefaultAct(q)) == 0 && (q == 1 || 16 <= q <= 18)
    ensures DefaultAct(q) == if q == 1 then 11 else if q == 16 then 13 else if q == 17 then 15 else 38
    ensures GotoOf(q, R1(DefaultAct(q))) == if q == 1 then 5 else q + 9
  {
  }

  lemma BracketActOk(c: Conf)
    requires ContextOk(c) && Reducible(c.ss)
    requires var r := DefaultAct(TopState(c.ss)); r == 14 || r == 16 || r == 39
    ensures ActOk(Act(DefaultAct(TopState(c.ss)), c.sem.ctx, c.sem.vs), Reduced(c.ss))
  {
    var r := DefaultAct(TopState(c.ss));
    CloseStates(TopState(c.ss));
    CloseShape(c.ss);
    var rest := c.ss[..|c.ss| - 4];
    PathRange(rest);
    BracketGoto(TopState(rest), r);
    CloseActOk(c, r, GotoOf(TopState(rest), R1(r)));
  }

  lemma CloseStates(q: int)
    requires 0 <= q < NSTATES
    requires var r := DefaultAct(q); r == 14 || r == 16 || r == 39
    ensures (q == 41 || q == 43 || q == 44) && R2(DefaultAct(q)) == 4
  {
  }

  lemma BracketGoto(p: int, r: int)
    requires 0 <= p < NSTATES && (r == 14 || r == 16 || r == 39)
    ensures GotoOf(p, R1(r)) == if r == 14 then 19 else if r == 16 then 20 else 24
  {
  }

  lemma TextActOk(c: Conf)
    requires ContextOk(c) && Reducible(c.ss)
    requires var r := DefaultAct(TopState(c.ss)); r == 21 || r == 22
    ensures ActOk(Act(DefaultAct(TopState(c.ss)), c.sem.ctx, c.sem.vs), Reduced(c.ss))
  {
    var ss, n := c.ss, R2(DefaultAct(TopState(c.ss)));
    TextStates(TopState(ss));
    StringGoto(TopState(ss[..|ss| - n]));
    assert Reduced(ss) == ss[..|ss| - n] + [22];
    if TopState(ss) == 15 {
      FirstStringActOk(c);
    } else {
      NextStringActOk(c);
    }
  }

  lemma TextStates(q: int)
    requires 0 <= q < NSTATES && (DefaultAct(q) == 21 || DefaultAct(q) == 22)
    ensures (if DefaultAct(q) == 21 then q == 15 else q == 31) && R1(DefaultAct(q)) == 35
    ensures R2(DefaultAct(q)) == if q == 15 then 1 else 2
  {
  }

  lemma StringGoto(p: int)
    requires 0 <= p < NSTATES
    ensures GotoOf(p, 35) == 22
  {
  }

  lemma ScalarStates(q: int)
    requires 0 <= q < NSTATES && 23 <= DefaultAct(q) <= 29
    ensures ScalarRule(q, DefaultAct(q)) && R1(DefaultAct(q)) == 36 && R2(DefaultAct(q)) == 1
  {
  }

  lemma ScalarGoto(p: int, q: int)
    requires Edge(p, q) && (9 <= q <= 14 || q == 22)
    ensures var g := GotoOf(p, 36); g == 23 || g == 32 || g == 45
  {
  }

  lemma ScalarReduceOk(c: Conf)
    requires ContextOk(c) && Reducible(c.ss) && 23 <= DefaultAct(TopState(c.ss)) <= 29
    ensures ActOk(Act(DefaultAct(TopState(c.ss)), c.sem.ctx, c.sem.vs), Reduced(c.ss))
  {
    var r := DefaultAct(TopState(c.ss));
    ScalarStates(TopState(c.ss));
    ReducedIs(c.ss, r, 1, 36);
    var below := TopState(c.ss[..|c.ss| - 1]);
    ScalarGoto(below, TopState(c.ss));
    ScalarActOk(c, r, GotoOf(below, 36));
  }

  lemma SilentActOk(c: Conf)
    requires ContextOk(c) && Reducible(c.ss) && SilentRule(DefaultAct(TopState(c.ss)))
    ensures ActOk(Act(DefaultAct(TopState(c.ss)), c.sem.ctx, c.sem.vs), Reduced(c.ss))
  {
    SilentKinds(c.ss);
    BottomKind(c.ss);
    SilentAct(DefaultAct(TopState(c.ss)), c.sem.ctx, c.sem.vs);
  }

  lemma SilentAct(r: int, ctx: Ctx, vs: seq<SemVal>)
    requires SilentRule(r) && ctx.spine != [] && vs != []
    ensures Act(r, ctx, vs) == Done(ctx)
  {
  }

  lemma ReduceActOk(c: Conf)
    requires ContextOk(c) && Reducible(c.ss)
    ensures ActOk(Act(DefaultAct(TopState(c.ss)), c.sem.ctx, c.sem.vs), Reduced(c.ss))
  {
    var r := DefaultAct(TopState(c.ss));
    if r == 11 || r == 13 || r == 15 || r == 38 {
      MarkerActOk(c);
    } else if r == 14 || r == 16 || r == 39 {
      BracketActOk(c);
    } else if r == 21 || r == 22 {
      TextActOk(c);
    } else if 23 <= r <= 29 {
      ScalarReduceOk(c);
    } else {
      SilentActOk(c);
    }
  }

  lemma ReduceKeepsContext(c: Conf, r: int)
    requires ContextOk(c) && Reducible(c.ss) && r == DefaultAct(TopState(c.ss))
    ensures match ReduceStep(c, r)
            case Stop(result) => result != Crashed
            case Go(c') => ContextOk(c')
  {
    ReduceActOk(c);
    ReduceStepIs(c, r, R2(r), R1(r));
    ReducedIs(c.ss, r, R2(r), R1(r));
    var m := |c.ss| - R2(r);
    CombinedOk(c, R2(r), GotoOf(TopState(c.ss[..m]), R1(r)), Act(r, c.sem.ctx, c.sem.vs), ReduceStep(c, r));
  }

  lemma CombinedOk(c: Conf, n: nat, g: int, act: ActOutcome, next: Next)
    requires ContextOk(c) && n < |c.ss| && 0 <= g < NSTATES && NTOKENS <= Stos(g)
    requires var ss := c.ss[..|c.ss| - n] + [g];
             ActOk(act, ss) && next == Combined(ss, AfterAct(c.sem, n, act), c.input)
    requires next.Go? ==> Lockstep(next.conf)
    ensures match next
            case Stop(result) => result != Crashed
            case Go(c') => ContextOk(c')
  {
    if next.Go? {
      TokensAfterReduce(c.ss, c.sem.vs, |c.ss| - n, g, FirstValue(c.sem.vs, n));
    }
  }

  lemma TokensAfterReduce(ss: seq<int>, vs: seq<SemVal>, m: nat, g: int, value: SemVal)
    requires TokensMatch(ss, vs) && m <= |ss| && 0 <= g < NSTATES && NTOKENS <= Stos(g)
    ensures TokensMatch(ss[..m] + [g], vs[..m] + [value])
  {
  }

  lemma ShiftKeepsContext(c: Conf, q: int)
    requires ContextOk(c) && c.input != [] && Edge(TopState(c.ss), q) && Pending(q) <= 5
    requires 0 <= q < NSTATES && Stos(q) == Code(c.input[0])
    ensures match ShiftStep(c, q)
            case Stop(result) => result != Crashed
            case Go(c') => ContextOk(c')
  {
    KindsOfPush(c.ss, q);
    TokenStates(q);
    if ValuePending(c.ss + [q]) {
      assert ValuePending(c.ss) by { PendingBelow(c.ss, q); }
    }
  }

  lemma TokenStates(q: int)
    requires 0 <= q < NSTATES && Stos(q) < NTOKENS && q != 0
    ensures Opened(q) == []
  {
  }

  lemma PendingBelow(ss: seq<int>, q: int)
    requires Path(ss) && Edge(TopState(ss), q) && ValuePending(ss + [q])
    requires 0 <= q < NSTATES && Stos(q) < NTOKENS
    ensures ValuePending(ss)
  {
    var h := |ss| - 1;
    assert (ss + [q])[h] == ss[h];
    if q == 31 {
      assert ss[h] == 22;
    }
  }

  /** What one round leaves: never a crash, and acceptance only at the end of a configuration. */
  ghost predicate StaysOk(c: Conf, next: Next)
    requires c.ss != []
  {
    match next
    case Stop(result) => result != Crashed && (result.Accepted? ==> TopState(c.ss) == 2 && result.ctx == c.sem.ctx)
    case Go(c') => ContextOk(c')
  }

  lemma ShiftStaysOk(c: Conf, s: int)
    requires ContextOk(c) && 0 <= TopState(c.ss) < NSTATES && ActionOf(TopState(c.ss), Look(c.input)) == Shift(s)
    ensures StaysOk(c, Step(c))
  {
    StepOnShift(c, s);
    if s != FINAL {
      ShiftKeepsContext(c, s);
    }
  }

  lemma ReduceStaysOk(c: Conf, r: int)
    requires ContextOk(c) && 0 <= TopState(c.ss) < NSTATES && ActionOf(TopState(c.ss), Look(c.input)) == Reduce(r)
    ensures StaysOk(c, Step(c))
  {
    StepOnReduce(c, r);
    ReduceKeepsContext(c, r);
  }

  lemma StepKeepsContext(c: Conf)
    requires ContextOk(c)
    ensures StaysOk(c, Step(c))
  {
    PathRange(c.ss);
    match ActionOf(TopState(c.ss), Look(c.input))
    case Error =>
    case Shift(s) => ShiftStaysOk(c, s);
    case Reduce(r) => ReduceStaysOk(c, r);
  }

  lemma {:induction false} RunNeverCrashes(c: Conf)
    requires ContextOk(c)
    ensures Run(c) != Crashed
    ensures Run(c).Accepted? ==> |Run(c).ctx.spine| == 1 && Run(c).ctx.spine[0].kind == KGroup
    decreases Budget(c)
  {
    StepKeepsContext(c);
    match Step(c)
    case Stop(result) =>
      if result.Accepted? {
        RootOnly(c.ss);
      }
    case Go(c') => RunNeverCrashes(c');
  }

  lemma RootOnly(ss: seq<int>)
    requires Path(ss) && TopState(ss) == 2
    ensures Kinds(ss) == [KGroup]
  {
    var h := |ss| - 1;
    assert ss[h - 1] == 0;
    if h - 1 > 0 {
      EdgeRange(ss[h - 2], ss[h - 1]);
    }
    assert ss[..1] == [0] && ss[..1][..0] == [];
    KindsOfPop(ss, 1);
  }

  /** On every input whatsoever the parser uses no null or stale setting, and when it accepts,
      the root group is the one aggregate still open. */
  lemma ParserNeverCrashes(tokens: seq<Token>)
    ensures Parse(tokens) != Crashed
    ensures Parse(tokens).Accepted? ==>
              |Parse(tokens).ctx.spine| == 1 && Parse(tokens).ctx.spine[0].kind == KGroup
  {
    assert [0][..0] == [];
    RunNeverCrashes(Initial(tokens));
  }
}
