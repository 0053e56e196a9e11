/** Facts about the LALR tables: what lies below a state that reduces, and what a state does
    with each right-hand side it can start. */
module GrammarFacts {
  import opened GrammarTables

  /** State `q` has a goto on nonterminal `a`. */
  predicate Expects(q: int, a: int) {
    NTOKENS <= a < NTOKENS + 20 && Edge(q, GotoOf(q, a)) && Stos(GotoOf(q, a)) == a
  }

  // ----- reductions -----

  lemma ReduceByDefault(q: int, k: int)
    requires 0 <= q < NSTATES && ActionOf(q, k).Reduce?
    ensures ActionOf(q, k).rule == DefaultAct(q) && 0 < DefaultAct(q) <= NRULES
  {
  }

  /** `q` reduces by default, and after popping its right-hand side down to state `p` there
      is a goto for the left-hand side that leaves less work pending. */
  ghost predicate ReducesWell(p: int, q: int)
    requires 0 <= q < NSTATES && 0 < DefaultAct(q) <= NRULES
  {
    var r := DefaultAct(q);
    Expects(p, R1(r)) && Pending(GotoOf(p, R1(r))) + 1 < Pending(q) + R2(r)
  }

  lemma EmptyReducers(q: int)
    requires 0 <= q < NSTATES && q != FINAL
    requires 0 < DefaultAct(q) <= NRULES && R2(DefaultAct(q)) == 0
    ensures q == 0 || q == 1 || 16 <= q <= 18 || q == 21 || 25 <= q <= 27
  {
  }

  lemma Reduce0(q: int)
    requires 0 <= q < NSTATES && q != FINAL
    requires 0 < DefaultAct(q) <= NRULES && R2(DefaultAct(q)) == 0
    ensures ReducesWell(q, q)
  {
    EmptyReducers(q);
    if q <= 1 {
    } else if q <= 18 {
    } else if q == 21 {
    } else {
    }
  }

  /** The gotos of a state that expects a scalar. */
  lemma ScalarGotos(p: int)
    requires p == 8 || p == 25 || p == 26 || p == 40 || p == 42
    ensures Expects(p, 35) && GotoOf(p, 35) == 22
    ensures Expects(p, 36) && Pending(GotoOf(p, 36)) <= 3
  {
  }

  lemma Reduce1Scalar(p: int, q: int)
    requires Edge(p, q) && (9 <= q <= 15 || q == 22)
    ensures R2(DefaultAct(q)) == 1 && Stos(q) == RhsAt(DefaultAct(q), 0) && ReducesWell(p, q)
  {
    ScalarGotos(p);
    if q == 15 {
      assert DefaultAct(q) == 21;
    } else {
      assert R1(DefaultAct(q)) == 36;
    }
  }

  lemma Reduce1Value(p: int, q: int)
    requires Edge(p, q) && (19 <= q <= 20 || 23 <= q <= 24 || q == 35 || q == 36)
    ensures R2(DefaultAct(q)) == 1 && Stos(q) == RhsAt(DefaultAct(q), 0) && ReducesWell(p, q)
  {
  }

  lemma Reduce1(p: int, q: int)
    requires Edge(p, q) && 0 <= q < NSTATES
    requires 0 < DefaultAct(q) <= NRULES && R2(DefaultAct(q)) == 1
    ensures Stos(q) == RhsAt(DefaultAct(q), 0) && ReducesWell(p, q)
  {
    if 9 <= q <= 15 || q == 22 {
      Reduce1Scalar(p, q);
    } else if 19 <= q <= 20 || 23 <= q <= 24 || q == 35 || q == 36 {
      Reduce1Value(p, q);
    }
  }

  lemma Reduce2(p: int, s: int, q: int)
    requires Edge(p, s) && Edge(s, q) && 0 <= s < NSTATES && 0 <= q < NSTATES
    requires 0 < DefaultAct(q) <= NRULES && R2(DefaultAct(q)) == 2
    ensures Stos(s) == RhsAt(DefaultAct(q), 0) && Stos(q) == RhsAt(DefaultAct(q), 1)
    ensures ReducesWell(p, q)
  {
    TwoSymbolStates(q);
    if q == 7 {
      assert DefaultAct(q) == 5 && (s == 3 || s == 38);
    } else {
      assert DefaultAct(q) == 22 && s == 22;
      ScalarGotos(p);
    }
  }

  lemma TwoSymbolStates(q: int)
    requires 0 <= q < NSTATES && 0 < DefaultAct(q) <= NRULES && R2(DefaultAct(q)) == 2
    ensures q == 7 || q == 31 || q == FINAL
  {
  }

  lemma Reduce3(p: int, s: int, t: int, q: int)
    requires Edge(p, s) && Edge(s, t) && Edge(t, q)
    requires 0 <= s < NSTATES && 0 <= t < NSTATES && 0 <= q < NSTATES
    requires 0 < DefaultAct(q) <= NRULES && R2(DefaultAct(q)) == 3
    ensures Stos(s) == RhsAt(DefaultAct(q), 0) && Stos(t) == RhsAt(DefaultAct(q), 1)
    ensures Stos(q) == RhsAt(DefaultAct(q), 2) && ReducesWell(p, q)
  {
  }

  /** The gotos of a state that expects a value. */
  lemma BracketGotos(p: int)
    requires p == 8 || p == 26 || p == 42
    ensures Expects(p, 30) && GotoOf(p, 30) == 19
    ensures Expects(p, 32) && GotoOf(p, 32) == 20
    ensures Expects(p, 41) && GotoOf(p, 41) == 24
  {
  }

  lemma Reduce4(p: int, s: int, t: int, u: int, q: int)
    requires Edge(p, s) && Edge(s, t) && Edge(t, u) && Edge(u, q)
    requires 0 <= s < NSTATES && 0 <= t < NSTATES && 0 <= u < NSTATES && 0 <= q < NSTATES
    requires 0 < DefaultAct(q) <= NRULES && R2(DefaultAct(q)) == 4
    ensures Stos(s) == RhsAt(DefaultAct(q), 0) && Stos(t) == RhsAt(DefaultAct(q), 1)
    ensures Stos(u) == RhsAt(DefaultAct(q), 2) && Stos(q) == RhsAt(DefaultAct(q), 3)
    ensures ReducesWell(p, q)
  {
    BracketGotos(p);
    if q == 41 {
      assert u == 34 && t == 25 && s == 16;
    } else if q == 43 {
      assert u == 37 && t == 26 && s == 17;
    } else {
      assert q == 44 && u == 39 && t == 27 && s == 18;
    }
  }

  lemma Reduce5(p: int, s: int, t: int, u: int, v: int, q: int)
    requires Edge(p, s) && Edge(s, t) && Edge(t, u) && Edge(u, v) && Edge(v, q)
    requires 0 <= s < NSTATES && 0 <= t < NSTATES && 0 <= u < NSTATES
    requires 0 <= v < NSTATES && 0 <= q < NSTATES
    requires 0 < DefaultAct(q) <= NRULES && R2(DefaultAct(q)) == 5
    ensures Stos(s) == RhsAt(DefaultAct(q), 0) && Stos(t) == RhsAt(DefaultAct(q), 1)
    ensures Stos(u) == RhsAt(DefaultAct(q), 2) && Stos(v) == RhsAt(DefaultAct(q), 3)
    ensures Stos(q) == RhsAt(DefaultAct(q), 4) && ReducesWell(p, q)
  {
    assert q == 30 && v == 21 && u == 8 && t == 5 && s == 1;
  }

  lemma ReduceLength(q: int)
    requires 0 <= q < NSTATES && 0 < DefaultAct(q) <= NRULES
    ensures 0 <= R2(DefaultAct(q)) <= 5
  {
  }

  // ----- right-hand sides from left to right -----

  /** Symbols that derive the empty string. */
  predicate Nullable(x: int) {
    x == 24 || x == 26 || x == 27 || x == 29 || x == 31 || x == 33 || x == 38 || x == 40 || x == 42
  }

  predicate ScalarToken(k: int) { 3 <= k <= 9 }

  predicate ValueToken(k: int) { ScalarToken(k) || k == 13 || k == 15 || k == 18 }

  /** Token `k` can be the first one of symbol `x`. */
  predicate First(x: int, k: int) {
    if x < NTOKENS then k == x
    else
      match x
      case 24 => k == 10
      case 25 => k == 10
      case 26 => k == 10
      case 27 => k == 17 || k == 20
      case 28 => k == 10
      case 30 => k == 13
      case 32 => k == 15
      case 34 => ValueToken(k)
      case 35 => k == 9
      case 36 => ScalarToken(k)
      case 37 => ValueToken(k)
      case 38 => ValueToken(k)
      case 39 => ScalarToken(k)
      case 40 => ScalarToken(k)
      case 41 => k == 18
      case _ => false
  }

  predicate EndsValue(k: int) { k == 0 || k == 10 || k == 16 || k == 17 || k == 19 || k == 20 }

  /** Token `k` (0 at the end of input) can come after nonterminal `a`. */
  predicate Follow(a: int, k: int) {
    match a
    case 24 => k == 0
    case 25 => k == 0 || k == 10 || k == 19
    case 26 => k == 19
    case 27 => k == 0 || k == 10 || k == 19
    case 28 => k == 0 || k == 10 || k == 19
    case 29 => k == 11
    case 31 => ScalarToken(k) || k == 14
    case 33 => ValueToken(k) || k == 16
    case 35 => EndsValue(k) || k == 9 || k == 14
    case 36 => EndsValue(k) || k == 14
    case 37 => k == 16 || k == 17
    case 38 => k == 16
    case 39 => k == 14 || k == 17
    case 40 => k == 14
    case 42 => k == 10 || k == 19
    case _ => 24 <= a <= 42 && EndsValue(k)
  }

  /** Token `k` can be the first one of what rule `r` derives from position `i` on. */
  predicate Starts(r: int, i: int, k: int)
    requires 1 < r <= NRULES && 0 <= i <= R2(r)
    decreases R2(r) - i
  {
    i < R2(r) &&
    (First(RhsAt(r, i), k) || (Nullable(RhsAt(r, i)) && Starts(r, i + 1, k)))
  }

  /** Rule `r` can derive nothing from position `i` on. */
  predicate Empties(r: int, i: int)
    requires 1 < r <= NRULES && 0 <= i <= R2(r)
    decreases R2(r) - i
  {
    i == R2(r) || (Nullable(RhsAt(r, i)) && Empties(r, i + 1))
  }

  /** Token `k` can come at position `i` of rule `r` or, past its end, after its left-hand side. */
  predicate NextOk(r: int, i: int, k: int)
    requires 1 < r <= NRULES && 0 <= i <= R2(r)
    decreases R2(r) - i
  {
    if i == R2(r) then Follow(R1(r), k)
    else First(RhsAt(r, i), k) || (Nullable(RhsAt(r, i)) && NextOk(r, i + 1, k))
  }

  lemma FirstOfLowRule(r: int, k: int)
    requires 1 < r <= 16 && Starts(r, 0, k)
    ensures First(R1(r), k)
  {
  }

  lemma FirstOfMiddleRule(r: int, k: int)
    requires 16 < r <= 22 && Starts(r, 0, k)
    ensures First(R1(r), k)
  {
  }

  lemma FirstOfScalarRule(r: int, k: int)
    requires 22 < r <= 29 && Starts(r, 0, k)
    ensures First(R1(r), k)
  {
  }

  lemma FirstOfRule(r: int, k: int)
    requires 1 < r <= NRULES && Starts(r, 0, k)
    ensures First(R1(r), k)
  {
    if r <= 16 {
      FirstOfLowRule(r, k);
    } else if r <= 22 {
      FirstOfMiddleRule(r, k);
    } else if r <= 29 {
      FirstOfScalarRule(r, k);
    }
  }

  lemma EmptyLowRule(r: int)
    requires 1 < r <= 16 && Empties(r, 0)
    ensures Nullable(R1(r))
  {
  }

  lemma SolidStart(r: int)
    requires 16 < r <= NRULES
    ensures R2(r) > 0 ==> !Nullable(RhsAt(r, 0))
  {
    if r <= 22 {
    } else if r <= 29 {
    } else {
    }
  }

  lemma EmptyHighRule(r: int)
    requires 16 < r <= NRULES && Empties(r, 0)
    ensures Nullable(R1(r))
  {
    SolidStart(r);
  }

  lemma EmptyRule(r: int)
    requires 1 < r <= NRULES && Empties(r, 0)
    ensures Nullable(R1(r))
  {
    if r <= 16 {
      EmptyLowRule(r);
    } else {
      EmptyHighRule(r);
    }
  }

  /** What can come at a position, given the symbol there. */
  lemma NextSymbol(r: int, i: int, x: int, k: int)
    requires 1 < r <= NRULES && 0 <= i < R2(r) && RhsAt(r, i) == x && NextOk(r, i, k)
    ensures First(x, k) || (Nullable(x) && NextOk(r, i + 1, k))
  {
  }

  lemma FollowInSetting(i: int, k: int)
    requires 0 <= i < R2(12) && RhsAt(12, i) >= NTOKENS && NextOk(12, i + 1, k)
    ensures Follow(RhsAt(12, i), k)
  {
    if i <= 2 {
    } else {
    }
  }

  /** Rules of an opening token, a marker, what is inside, and a closing token. */
  lemma FollowInBrackets(r: int, inside: int, close: int, i: int, k: int)
    requires 1 < r <= NRULES && R2(r) == 4 && RhsAt(r, 2) == inside >= NTOKENS && RhsAt(r, 3) == close < NTOKENS
    requires (i == 1 || i == 2) && NextOk(r, i + 1, k)
    ensures k == close || (i == 1 && First(inside, k))
  {
    if i == 1 {
      NextSymbol(r, 2, inside, k);
    }
    if NextOk(r, 3, k) {
      NextSymbol(r, 3, close, k);
    }
  }

  lemma FollowInArray(i: int, k: int)
    requires 0 <= i < R2(14) && RhsAt(14, i) >= NTOKENS && NextOk(14, i + 1, k)
    ensures Follow(RhsAt(14, i), k)
  {
    FollowInBrackets(14, 40, 14, i, k);
  }

  lemma FollowInBracketedList(i: int, k: int)
    requires 0 <= i < R2(16) && RhsAt(16, i) >= NTOKENS && NextOk(16, i + 1, k)
    ensures Follow(RhsAt(16, i), k)
  {
    FollowInBrackets(16, 38, 16, i, k);
  }

  lemma FollowInGroup(i: int, k: int)
    requires 0 <= i < R2(39) && RhsAt(39, i) >= NTOKENS && NextOk(39, i + 1, k)
    ensures Follow(RhsAt(39, i), k)
  {
    FollowInBrackets(39, 26, 19, i, k);
  }

  lemma FollowInShortRule(r: int, k: int)
    requires 1 < r <= NRULES && R2(r) == 1 && RhsAt(r, 0) >= NTOKENS && Follow(R1(r), k)
    ensures Follow(RhsAt(r, 0), k)
  {
    if r <= 7 {
    } else if r <= 20 {
    } else if r <= 29 {
    } else {
    }
  }

  lemma FollowInList(r: int, i: int, k: int)
    requires r == 5 || r == 22 || r == 31 || r == 35
    requires 0 <= i < R2(r) && RhsAt(r, i) >= NTOKENS && NextOk(r, i + 1, k)
    ensures Follow(RhsAt(r, i), k)
  {
    if r == 5 {
    } else if r == 22 {
    } else if r == 31 {
    } else {
    }
  }

  /** What can come after a nonterminal inside a rule is in its follow set. */
  lemma FollowInRule(r: int, i: int, k: int)
    requires 1 < r <= NRULES && 0 <= i < R2(r) && RhsAt(r, i) >= NTOKENS && NextOk(r, i + 1, k)
    ensures Follow(RhsAt(r, i), k)
  {
    if R2(r) == 1 {
      FollowInShortRule(r, k);
    } else if r == 12 {
      FollowInSetting(i, k);
    } else if r == 14 {
      FollowInArray(i, k);
    } else if r == 16 {
      FollowInBracketedList(i, k);
    } else if r == 39 {
      FollowInGroup(i, k);
    } else {
      FollowInList(r, i, k);
    }
  }

  /** From state `q`, symbol `x` can be shifted or, once reduced, followed by a goto. */
  predicate CanRead(q: int, x: int) {
    0 <= q < NSTATES && 0 <= x < NTOKENS + 20 &&
    (if x < NTOKENS then 0 < x && ActionOf(q, x).Shift? else Expects(q, x))
  }

  /** The state entered by reading symbol `x`. */
  function ReadSym(q: int, x: int): int
    requires CanRead(q, x)
  {
    if x < NTOKENS then ActionOf(q, x).state else GotoOf(q, x)
  }

  /** Where a rule can be reduced, it is reduced before any token that can follow it. */
  lemma ReduceBeforeFollow(q: int, k: int)
    requires 0 <= q < NSTATES && 1 < DefaultAct(q) <= NRULES
    requires 0 <= k < NTOKENS && Follow(R1(DefaultAct(q)), k)
    ensures ActionOf(q, k) == Reduce(DefaultAct(q))
  {
  }

  /** From state `q` at position `i`, the rest of rule `r` can be read and the rule reduced. */
  predicate Readable(q: int, r: int, i: int)
    requires 1 <= r <= NRULES && 0 <= i <= R2(r)
    decreases R2(r) - i
  {
    if i == R2(r) then 0 <= q < NSTATES && DefaultAct(q) == r
    else CanRead(q, RhsAt(r, i)) && Readable(ReadSym(q, RhsAt(r, i)), r, i + 1)
  }

  lemma EmptyRulesReadable(q: int, r: int)
    requires 2 <= r <= NRULES && 0 <= q < NSTATES && Expects(q, R1(r)) && R2(r) == 0
    ensures Readable(q, r, 0)
  {
  }

  /** A state that expects a scalar shifts each scalar token. */
  predicate ShiftsScalars(q: int) {
    && 0 <= q < NSTATES
    && ActionOf(q, 3) == Shift(9) && ActionOf(q, 4) == Shift(10) && ActionOf(q, 5) == Shift(11)
    && ActionOf(q, 6) == Shift(12) && ActionOf(q, 7) == Shift(13) && ActionOf(q, 8) == Shift(14)
  }

  lemma ScalarShifts(q: int)
    requires Expects(q, 36)
    ensures ShiftsScalars(q)
  {
    ScalarExpecters(q);
  }

  lemma ScalarExpecters(q: int)
    requires Expects(q, 36)
    ensures q == 8 || q == 25 || q == 26 || q == 40 || q == 42
  {
  }

  /** A rule of one symbol is readable where that symbol leads to the state reducing it. */
  lemma OneSymbolReadable(q: int, r: int, x: int, next: int)
    requires 1 < r <= NRULES && R2(r) == 1 && RhsAt(r, 0) == x
    requires CanRead(q, x) && ReadSym(q, x) == next && 0 <= next < NSTATES && DefaultAct(next) == r
    ensures Readable(q, r, 0)
  {
    assert Readable(next, r, 1);
  }

  lemma TokenOfScalarRule(r: int)
    requires 23 <= r <= 28
    ensures RhsAt(r, 0) == if r == 25 then 6 else if r == 26 then 5 else r - 20
  {
  }

  lemma ScalarRuleReadable(q: int, r: int)
    requires Expects(q, 36) && 23 <= r <= 29
    ensures Readable(q, r, 0)
  {
    if r == 29 {
      TextRuleReadable(q);
    } else {
      ScalarShifts(q);
      TokenOfScalarRule(r);
      if r == 23 {
        OneSymbolReadable(q, 23, 3, 9);
      } else if r == 24 {
        OneSymbolReadable(q, 24, 4, 10);
      } else if r == 25 {
        OneSymbolReadable(q, 25, 6, 12);
      } else if r == 26 {
        OneSymbolReadable(q, 26, 5, 11);
      } else if r == 27 {
        OneSymbolReadable(q, 27, 7, 13);
      } else {
        OneSymbolReadable(q, 28, 8, 14);
      }
    }
  }

  lemma TextRuleReadable(q: int)
    requires Expects(q, 36)
    ensures Readable(q, 29, 0)
  {
    ScalarExpecters(q);
    ScalarGotos(q);
    OneSymbolReadable(q, 29, 35, 22);
  }

  /** The gotos of a state that expects a value, other than those for brackets. */
  lemma ValueGotos(q: int)
    requires Expects(q, 34)
    ensures (q == 8 || q == 26 || q == 42) && Expects(q, 36) && GotoOf(q, 36) == 23
  {
  }

  lemma ValueRulesReadable(q: int)
    requires Expects(q, 34)
    ensures Readable(q, 17, 0) && Readable(q, 18, 0) && Readable(q, 19, 0) && Readable(q, 20, 0)
  {
    ValueGotos(q);
    BracketGotos(q);
    OneSymbolReadable(q, 17, 36, 23);
    OneSymbolReadable(q, 18, 30, 19);
    OneSymbolReadable(q, 19, 32, 20);
    OneSymbolReadable(q, 20, 41, 24);
  }

  lemma StringExpecters(q: int)
    requires Expects(q, 35)
    ensures q == 8 || q == 25 || q == 26 || q == 40 || q == 42
  {
  }

  lemma FirstStringShift(q: int)
    requires q == 8 || q == 25 || q == 26 || q == 40 || q == 42
    ensures ActionOf(q, 9) == Shift(15)
  {
  }

  lemma StringRulesReadable(q: int)
    requires Expects(q, 35)
    ensures Readable(q, 21, 0) && Readable(q, 22, 0)
  {
    StringExpecters(q);
    FirstStringShift(q);
    OneSymbolReadable(q, 21, 9, 15);
    ScalarGotos(q);
    NextStringReadable(q);
  }

  lemma NextStringReadable(q: int)
    requires Expects(q, 35) && GotoOf(q, 35) == 22
    ensures Readable(q, 22, 0)
  {
    assert Readable(31, 22, 2);
    assert Readable(22, 22, 1);
  }

  lemma ListRulesReadable(q: int)
    ensures Expects(q, 37) ==> Readable(q, 30, 0) && Readable(q, 31, 0)
    ensures Expects(q, 38) ==> Readable(q, 33, 0)
  {
    if Expects(q, 37) {
      ValueListReadable(q);
    }
    if Expects(q, 38) {
      ValuesReadable(q);
    }
  }

  lemma ValuesReadable(q: int)
    requires Expects(q, 38)
    ensures Readable(q, 33, 0)
  {
    assert q == 26;
    OneSymbolReadable(26, 33, 37, 36);
  }

  lemma ValueListReadable(q: int)
    requires Expects(q, 37)
    ensures Readable(q, 30, 0) && Readable(q, 31, 0)
  {
    assert q == 26;
    OneSymbolReadable(26, 30, 34, 35);
    LongValueListReadable();
  }

  lemma LongValueListReadable()
    ensures Readable(26, 31, 0)
  {
    assert Readable(46, 31, 3);
    assert Readable(42, 31, 2);
    assert Readable(36, 31, 1);
  }

  lemma LongArrayReadable()
    ensures Readable(25, 35, 0)
  {
    assert Readable(45, 35, 3);
    assert Readable(40, 35, 2);
    assert Readable(33, 35, 1);
  }

  lemma ArrayExpecters(q: int)
    requires Expects(q, 39) || Expects(q, 40)
    ensures q == 25
  {
  }

  lemma ArrayRulesReadable(q: int)
    ensures Expects(q, 39) ==> Readable(q, 34, 0) && Readable(q, 35, 0)
    ensures Expects(q, 40) ==> Readable(q, 37, 0)
  {
    if Expects(q, 39) || Expects(q, 40) {
      ArrayExpecters(q);
      OneSymbolReadable(25, 34, 36, 32);
      LongArrayReadable();
      OneSymbolReadable(25, 37, 39, 33);
    }
  }

  lemma SettingListRulesReadable(q: int)
    ensures Expects(q, 25) ==> Readable(q, 4, 0) && Readable(q, 5, 0)
    ensures Expects(q, 26) ==> Readable(q, 7, 0)
  {
    assert Readable(7, 5, 2);
  }

  lemma OuterRulesReadable(q: int)
    ensures Expects(q, 24) ==> Readable(q, 3, 0)
    ensures Expects(q, 27) ==> Readable(q, 9, 0) && Readable(q, 10, 0)
  {
  }

  lemma FirstTokenReadable(q: int, r: int, x: int, next: int)
    requires 1 < r <= NRULES && 0 < R2(r) && RhsAt(r, 0) == x && 0 < x < NTOKENS
    requires 0 <= q < NSTATES && ActionOf(q, x) == Shift(next) && Readable(next, r, 1)
    ensures Readable(q, r, 0)
  {
  }

  /** What a state that expects a value does with an opening bracket. */
  lemma BracketShifts(q: int)
    requires q == 8 || q == 26 || q == 42
    ensures ActionOf(q, 13) == Shift(16) && ActionOf(q, 15) == Shift(17) && ActionOf(q, 18) == Shift(18)
  {
  }

  lemma BracketExpecters(q: int)
    requires Expects(q, 30) || Expects(q, 32) || Expects(q, 41)
    ensures q == 8 || q == 26 || q == 42
  {
  }

  lemma ArrayTailReadable()
    ensures Readable(16, 14, 1)
  {
    assert Readable(41, 14, 4);
    assert Readable(34, 14, 3);
    assert Readable(25, 14, 2);
  }

  lemma ArrayRuleReadable(q: int)
    requires Expects(q, 30)
    ensures Readable(q, 14, 0)
  {
    BracketExpecters(q);
    BracketShifts(q);
    ArrayTailReadable();
    FirstTokenReadable(q, 14, 13, 16);
  }

  lemma ListTailReadable()
    ensures Readable(17, 16, 1)
  {
    assert Readable(43, 16, 4);
    assert Readable(37, 16, 3);
    assert Readable(26, 16, 2);
  }

  lemma ListRuleReadable(q: int)
    requires Expects(q, 32)
    ensures Readable(q, 16, 0)
  {
    BracketExpecters(q);
    BracketShifts(q);
    ListTailReadable();
    FirstTokenReadable(q, 16, 15, 17);
  }

  lemma GroupTailReadable()
    ensures Readable(18, 39, 1)
  {
    assert Readable(44, 39, 4);
    assert Readable(39, 39, 3);
    assert Readable(27, 39, 2);
  }

  lemma GroupRuleReadable(q: int)
    requires Expects(q, 41)
    ensures Readable(q, 39, 0)
  {
    BracketExpecters(q);
    BracketShifts(q);
    GroupTailReadable();
    FirstTokenReadable(q, 39, 18, 18);
  }

  lemma SettingTailReadable()
    ensures Readable(1, 12, 1)
  {
    assert Readable(30, 12, 5);
    assert Readable(21, 12, 4);
    assert Readable(8, 12, 3);
    assert Readable(5, 12, 2);
  }

  lemma SettingExpecters(q: int)
    requires Expects(q, 28)
    ensures ActionOf(q, 10) == Shift(1)
  {
  }

  lemma SettingRuleReadable(q: int)
    requires Expects(q, 28)
    ensures Readable(q, 12, 0)
  {
    SettingExpecters(q);
    SettingTailReadable();
  }

  lemma LowRulesReadable(q: int, r: int)
    requires 2 <= r <= 16 && R2(r) != 0 && 0 <= q < NSTATES && Expects(q, R1(r))
    ensures Readable(q, r, 0)
  {
    if r == 12 {
      SettingRuleReadable(q);
    } else if r == 14 {
      ArrayRuleReadable(q);
    } else if r == 16 {
      ListRuleReadable(q);
    } else if 4 <= r <= 7 {
      SettingListRulesReadable(q);
    } else {
      OuterRulesReadable(q);
    }
  }

  lemma HighRulesReadable(q: int, r: int)
    requires 30 <= r <= NRULES && R2(r) != 0 && 0 <= q < NSTATES && Expects(q, R1(r))
    ensures Readable(q, r, 0)
  {
    if r == 30 || r == 31 || r == 33 {
      ListRulesReadable(q);
    } else if r == 34 || r == 35 || r == 37 {
      ArrayRulesReadable(q);
    } else {
      assert r == 39;
      GroupRuleReadable(q);
    }
  }

  lemma ValueRuleReadable(q: int, r: int)
    requires 17 <= r <= 22 && Expects(q, R1(r))
    ensures Readable(q, r, 0)
  {
    if r <= 20 {
      assert R1(r) == 34;
      ValueRulesReadable(q);
    } else {
      assert R1(r) == 35;
      StringRulesReadable(q);
    }
  }

  /** Whoever expects a nonterminal can read each of its rules to the end. */
  lemma RulesReadable(q: int, r: int)
    requires 2 <= r <= NRULES && 0 <= q < NSTATES && Expects(q, R1(r))
    ensures Readable(q, r, 0)
  {
    if R2(r) == 0 {
      EmptyRulesReadable(q, r);
    } else if r <= 16 {
      LowRulesReadable(q, r);
    } else if r <= 22 {
      ValueRuleReadable(q, r);
    } else if r <= 29 {
      ScalarRuleReadable(q, r);
    } else {
      HighRulesReadable(q, r);
    }
  }
}
