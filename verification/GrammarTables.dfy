/** The LALR(1) tables of the configuration grammar, and the facts about them that the
    parser proofs rest on.  Every fact is computed from the tables. */
module GrammarTables {

  /** YYPACT: where a state's row starts in `Table`. */
  function Pact(i: int): int
    requires 0 <= i < 47
  {
    match i
    case 0 => -8 case 1 => -26 case 2 => 12 case 3 => -8 case 4 => -26 case 5 => 5 case 6 => -26
    case 7 => -26 case 8 => 0 case 9 => -26 case 10 => -26 case 11 => -26 case 12 => -26
    case 13 => -26 case 14 => -26 case 15 => -26 case 16 => -26 case 17 => -26 case 18 => -26
    case 19 => -26 case 20 => -26 case 21 => -6 case 22 => 10 case 23 => -26 case 24 => -26
    case 25 => 23 case 26 => 0 case 27 => -8 case 28 => -26 case 29 => -26 case 30 => -26
    case 31 => -26 case 32 => -26 case 33 => 3 case 34 => 7 case 35 => -26 case 36 => 6
    case 37 => 8 case 38 => -8 case 39 => 14 case 40 => 23 case 41 => -26 case 42 => 0
    case 43 => -26 case 44 => -26 case 45 => -26
    case _ => -26
  }

  /** YYDEFACT: the rule a state reduces by default, 0 for none. */
  function DefaultAct(i: int): int
    requires 0 <= i < 47
  {
    match i
    case 0 => 2 case 1 => 11 case 2 => 0 case 3 => 3 case 4 => 4 case 5 => 0 case 6 => 1
    case 7 => 5 case 8 => 0 case 9 => 23 case 10 => 24 case 11 => 26 case 12 => 25 case 13 => 27
    case 14 => 28 case 15 => 21 case 16 => 13 case 17 => 15 case 18 => 38 case 19 => 18
    case 20 => 19 case 21 => 8 case 22 => 29 case 23 => 17 case 24 => 20 case 25 => 36
    case 26 => 32 case 27 => 6 case 28 => 10 case 29 => 9 case 30 => 12 case 31 => 22
    case 32 => 34 case 33 => 37 case 34 => 0 case 35 => 30 case 36 => 33 case 37 => 0 case 38 => 7
    case 39 => 0 case 40 => 0 case 41 => 14 case 42 => 0 case 43 => 16 case 44 => 39 case 45 => 35
    case _ => 31
  }

  /** YYTABLE: the packed action and goto rows. */
  function Table(i: int): int
    requires 0 <= i < 36
  {
    match i
    case 0 => 7 case 1 => 35 case 2 => 1 case 3 => 9 case 4 => 10 case 5 => 11 case 6 => 12
    case 7 => 13 case 8 => 14 case 9 => 15 case 10 => 32 case 11 => 28 case 12 => 6 case 13 => 16
    case 14 => 29 case 15 => 17 case 16 => 8 case 17 => 46 case 18 => 18 case 19 => 31
    case 20 => 40 case 21 => 41 case 22 => 38 case 23 => 42 case 24 => 43 case 25 => 45
    case 26 => 9 case 27 => 10 case 28 => 11 case 29 => 12 case 30 => 13 case 31 => 14
    case 32 => 15 case 33 => 44 case 34 => 0
    case _ => 7
  }

  /** YYCHECK: the owner of each entry of `Table`. */
  function Check(i: int): int
    requires 0 <= i < 36
  {
    match i
    case 0 => 3 case 1 => 26 case 2 => 10 case 3 => 3 case 4 => 4 case 5 => 5 case 6 => 6
    case 7 => 7 case 8 => 8 case 9 => 9 case 10 => 25 case 11 => 17 case 12 => 0 case 13 => 13
    case 14 => 20 case 15 => 15 case 16 => 11 case 17 => 42 case 18 => 18 case 19 => 9
    case 20 => 17 case 21 => 14 case 22 => 27 case 23 => 17 case 24 => 16 case 25 => 40
    case 26 => 3 case 27 => 4 case 28 => 5 case 29 => 6 case 30 => 7 case 31 => 8 case 32 => 9
    case 33 => 19 case 34 => -1
    case _ => 38
  }

  /** YYPGOTO: where a nonterminal's row starts in `Table`. */
  function PGoto(i: int): int
    requires 0 <= i < 20
  {
    match i
    case 0 => -26 case 1 => -26 case 2 => -5 case 3 => -26 case 4 => -26 case 5 => -3
    case 6 => -26 case 7 => -26 case 8 => -26 case 9 => -26 case 10 => -26 case 11 => -25
    case 12 => -26 case 13 => -15 case 14 => -26 case 15 => -26 case 16 => -26 case 17 => -26
    case 18 => -26
    case _ => -26
  }

  /** YYDEFGOTO: the default goto of a nonterminal. */
  function DefaultGoto(i: int): int
    requires 0 <= i < 20
  {
    match i
    case 0 => -1 case 1 => 2 case 2 => 3 case 3 => 39 case 4 => 30 case 5 => 4 case 6 => 5
    case 7 => 19 case 8 => 25 case 9 => 20 case 10 => 26 case 11 => 21 case 12 => 22 case 13 => 23
    case 14 => 36 case 15 => 37 case 16 => 33 case 17 => 34 case 18 => 24
    case _ => 27
  }

  /** YYR1: the left-hand side of a rule. */
  function R1(i: int): int
    requires 0 <= i < 40
  {
    match i
    case 0 => 0 case 1 => 23 case 2 => 24 case 3 => 24 case 4 => 25 case 5 => 25 case 6 => 26
    case 7 => 26 case 8 => 27 case 9 => 27 case 10 => 27 case 11 => 29 case 12 => 28 case 13 => 31
    case 14 => 30 case 15 => 33 case 16 => 32 case 17 => 34 case 18 => 34 case 19 => 34
    case 20 => 34 case 21 => 35 case 22 => 35 case 23 => 36 case 24 => 36 case 25 => 36
    case 26 => 36 case 27 => 36 case 28 => 36 case 29 => 36 case 30 => 37 case 31 => 37
    case 32 => 38 case 33 => 38 case 34 => 39 case 35 => 39 case 36 => 40 case 37 => 40
    case 38 => 42
    case _ => 41
  }

  /** YYR2: the length of a rule's right-hand side. */
  function R2(i: int): int
    requires 0 <= i < 40
  {
    match i
    case 0 => 0 case 1 => 2 case 2 => 0 case 3 => 1 case 4 => 1 case 5 => 2 case 6 => 0
    case 7 => 1 case 8 => 0 case 9 => 1 case 10 => 1 case 11 => 0 case 12 => 5 case 13 => 0
    case 14 => 4 case 15 => 0 case 16 => 4 case 17 => 1 case 18 => 1 case 19 => 1 case 20 => 1
    case 21 => 1 case 22 => 2 case 23 => 1 case 24 => 1 case 25 => 1 case 26 => 1 case 27 => 1
    case 28 => 1 case 29 => 1 case 30 => 1 case 31 => 3 case 32 => 0 case 33 => 1 case 34 => 1
    case 35 => 3 case 36 => 0 case 37 => 1 case 38 => 0
    case _ => 4
  }

  /** YYPRHS: where a rule's right-hand side starts in `Rhs`. */
  function Prhs(i: int): int
    requires 0 <= i < 40
  {
    match i
    case 0 => 0 case 1 => 0 case 2 => 3 case 3 => 4 case 4 => 6 case 5 => 8 case 6 => 11
    case 7 => 12 case 8 => 14 case 9 => 15 case 10 => 17 case 11 => 19 case 12 => 20 case 13 => 26
    case 14 => 27 case 15 => 32 case 16 => 33 case 17 => 38 case 18 => 40 case 19 => 42
    case 20 => 44 case 21 => 46 case 22 => 48 case 23 => 51 case 24 => 53 case 25 => 55
    case 26 => 57 case 27 => 59 case 28 => 61 case 29 => 63 case 30 => 65 case 31 => 67
    case 32 => 71 case 33 => 72 case 34 => 74 case 35 => 76 case 36 => 80 case 37 => 81
    case 38 => 83
    case _ => 84
  }

  /** YYRHS: the right-hand sides, each ended by -1. */
  function Rhs(i: int): int
    requires 0 <= i < 89
  {
    match i
    case 0 => 24 case 1 => 0 case 2 => -1 case 3 => -1 case 4 => 25 case 5 => -1 case 6 => 28
    case 7 => -1 case 8 => 25 case 9 => 28 case 10 => -1 case 11 => -1 case 12 => 25 case 13 => -1
    case 14 => -1 case 15 => 20 case 16 => -1 case 17 => 17 case 18 => -1 case 19 => -1
    case 20 => 10 case 21 => 29 case 22 => 11 case 23 => 34 case 24 => 27 case 25 => -1
    case 26 => -1 case 27 => 13 case 28 => 31 case 29 => 40 case 30 => 14 case 31 => -1
    case 32 => -1 case 33 => 15 case 34 => 33 case 35 => 38 case 36 => 16 case 37 => -1
    case 38 => 36 case 39 => -1 case 40 => 30 case 41 => -1 case 42 => 32 case 43 => -1
    case 44 => 41 case 45 => -1 case 46 => 9 case 47 => -1 case 48 => 35 case 49 => 9
    case 50 => -1 case 51 => 3 case 52 => -1 case 53 => 4 case 54 => -1 case 55 => 6 case 56 => -1
    case 57 => 5 case 58 => -1 case 59 => 7 case 60 => -1 case 61 => 8 case 62 => -1 case 63 => 35
    case 64 => -1 case 65 => 34 case 66 => -1 case 67 => 37 case 68 => 17 case 69 => 34
    case 70 => -1 case 71 => -1 case 72 => 37 case 73 => -1 case 74 => 36 case 75 => -1
    case 76 => 39 case 77 => 17 case 78 => 36 case 79 => -1 case 80 => -1 case 81 => 39
    case 82 => -1 case 83 => -1 case 84 => 18 case 85 => 42 case 86 => 26 case 87 => 19
    case _ => -1
  }

  /** YYSTOS: the symbol that leads into a state. */
  function Stos(i: int): int
    requires 0 <= i < 47
  {
    match i
    case 0 => 0 case 1 => 10 case 2 => 24 case 3 => 25 case 4 => 28 case 5 => 29 case 6 => 0
    case 7 => 28 case 8 => 11 case 9 => 3 case 10 => 4 case 11 => 5 case 12 => 6 case 13 => 7
    case 14 => 8 case 15 => 9 case 16 => 13 case 17 => 15 case 18 => 18 case 19 => 30
    case 20 => 32 case 21 => 34 case 22 => 35 case 23 => 36 case 24 => 41 case 25 => 31
    case 26 => 33 case 27 => 42 case 28 => 17 case 29 => 20 case 30 => 27 case 31 => 9
    case 32 => 36 case 33 => 39 case 34 => 40 case 35 => 34 case 36 => 37 case 37 => 38
    case 38 => 25 case 39 => 26 case 40 => 17 case 41 => 14 case 42 => 17 case 43 => 16
    case 44 => 19 case 45 => 36
    case _ => 34
  }

  const FINAL := 6            // YYFINAL
  const LAST := 35            // YYLAST
  const NTOKENS := 23         // YYNTOKENS
  const NRULES := 39          // YYNRULES
  const NSTATES := 47         // YYNSTATES
  const PACT_NINF := -26      // YYPACT_NINF
  const TABLE_NINF := -1      // YYTABLE_NINF

  datatype Action = Shift(state: int) | Reduce(rule: int) | Error

  /** The label `yydefault`. */
  function DefaultAction(q: int): Action
    requires 0 <= q < NSTATES
  {
    if DefaultAct(q) == 0 then Error else Reduce(DefaultAct(q))
  }

  /** The label `yybackup`: what state `q` does when the lookahead is token `k`. */
  function ActionOf(q: int, k: int): Action
    requires 0 <= q < NSTATES
  {
    if Pact(q) == PACT_NINF then DefaultAction(q)
    else
      var n := Pact(q) + k;
      if n < 0 || LAST < n || Check(n) != k then DefaultAction(q)
      else if Table(n) <= 0 then
        (if Table(n) == 0 || Table(n) == TABLE_NINF then Error else Reduce(-Table(n)))
      else Shift(Table(n))
  }

  /** The state entered after a reduction to nonterminal `a` uncovers state `p`. */
  function GotoOf(p: int, a: int): int
    requires NTOKENS <= a < NTOKENS + 20
  {
    var n := PGoto(a - NTOKENS) + p;
    if 0 <= n <= LAST && Check(n) == p then Table(n) else DefaultGoto(a - NTOKENS)
  }

  /** The i-th symbol of a rule's right-hand side. */
  function RhsAt(r: int, i: int): (x: int)
    requires 1 <= r <= NRULES && 0 <= i < R2(r)
    ensures 0 <= x < NTOKENS + 20
  {
    Rhs(Prhs(r) + i)
  }

  /** State `q` can lie directly above state `p` on the state stack. */
  predicate Edge(p: int, q: int) {
    if 9 <= q <= 15 || q == 22 then p == 8 || p == 25 || p == 26 || p == 40 || p == 42
    else if 16 <= q <= 20 || q == 23 || q == 24 then p == 8 || p == 26 || p == 42
    else
      match q
      case 1 => p == 0 || p == 3 || p == 27 || p == 38
      case 2 => p == 0 case 3 => p == 0 case 4 => p == 0 || p == 27 case 5 => p == 1
      case 7 => p == 3 || p == 38 case 8 => p == 5 case 21 => p == 8 case 25 => p == 16
      case 26 => p == 17 case 27 => p == 18 case 28 => p == 21 case 29 => p == 21
      case 30 => p == 21 case 31 => p == 22 case 32 => p == 25 case 33 => p == 25
      case 34 => p == 25 case 35 => p == 26 case 36 => p == 26 case 37 => p == 26
      case 38 => p == 27 case 39 => p == 27 case 40 => p == 33 case 41 => p == 34
      case 42 => p == 36 case 43 => p == 37 case 44 => p == 39 case 45 => p == 40
      case 46 => p == 42
      case _ => false
  }

  /** How many reductions a state may still cause before the next shift. */
  function Pending(q: int): nat {
    if 9 <= q <= 14 || 16 <= q <= 18 || q == 22 || q == 31 then 4
    else if q == 15 then 5
    else if q == 19 || q == 20 || q == 23 || q == 24 then 3
    else if q == 0 || q == 1 || q == 4 || q == 21 || 25 <= q <= 27 || q == 32 || q == 35 then 2
    else if q == 3 || q == 7 || q == 28 || q == 29 || q == 33 || q == 36 || q == 38
         || q == 41 || q == 43 || q == 44 then 1
    else 0
  }

  lemma EdgeRange(p: int, q: int)
    requires Edge(p, q)
    ensures 0 <= p < NSTATES && 0 < q < NSTATES && q != FINAL
  {
  }

  /** A shift goes to a state that the token leads into; only the end of input leads to FINAL. */
  lemma ShiftFacts(q: int, k: int)
    requires 0 <= q < NSTATES && 0 <= k < NTOKENS && ActionOf(q, k).Shift?
    ensures var s := ActionOf(q, k).state;
            0 < s < NSTATES && Stos(s) == k
            && (s == FINAL <==> k == 0)
            && (s != FINAL ==> Edge(q, s))
            && (s == FINAL ==> q == 2)
  {
    if q <= 21 {
      EarlyShifts(q, k);
    } else {
      LateShifts(q, k);
    }
  }

  lemma EarlyShifts(q: int, k: int)
    requires 0 <= q <= 21 && 0 <= k < NTOKENS && ActionOf(q, k).Shift?
    ensures var s := ActionOf(q, k).state; 0 < s < NSTATES && Stos(s) == k
    ensures var s := ActionOf(q, k).state; if k == 0 then s == FINAL && q == 2 else Edge(q, s) && s != FINAL
  {
  }

  lemma LateShifts(q: int, k: int)
    requires 22 <= q < NSTATES && 0 <= k < NTOKENS && ActionOf(q, k).Shift?
    ensures var s := ActionOf(q, k).state; 0 < s < NSTATES && s != FINAL && Stos(s) == k && k != 0 && Edge(q, s)
  {
  }
}
