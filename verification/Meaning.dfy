/** What a derivation denotes, compositionally, and that the semantic actions, which work by
    moving `ctx->parent` and `ctx->setting` about, build exactly that. */
module Meaning {
  import opened Wrappers
  import opened Settings
  import opened ParseActions
  import opened GrammarTables
  import opened LrParser
  import opened Derivations

  // ----- the compositional meaning of a derivation -----

  function TokenValue(t: Token): Value {
    match t
    case TBoolean(b) => BoolV(b)
    case TInteger(i) => IntV(i, false)
    case THex(i) => IntV(i, true)
    case TInteger64(l) => Int64V(l, false)
    case THex64(l) => Int64V(l, true)
    case TFloat(f) => FloatV(f)
    case _ => NoneV
  }

  /** Adjacent string tokens are one string. */
  function Text(t: Tree): string {
    match t
    case Leaf(token) => if token.TString? then token.sval else ""
    case Node(_, kids) => TextAll(kids)
  }

  function TextAll(ts: seq<Tree>): string {
    if ts == [] then "" else Text(ts[0]) + TextAll(ts[1..])
  }

  /** The value that a value, array, list, group or simple value denotes. */
  function Denote(t: Tree): Value {
    match t
    case Leaf(token) => TokenValue(token)
    case Node(r, kids) =>
      if r == 29 then StringV(TextAll(kids))
      else if |kids| == 1 then Denote(kids[0])
      else if |kids| == 4 then
        Aggregate(if r == 14 then KArray else if r == 16 then KList else KGroup, Items(kids[2]))
      else NoneV
  }

  /** The settings that a list of values or settings denotes. */
  function Items(t: Tree): seq<Setting> {
    match t
    case Leaf(_) => []
    case Node(r, kids) =>
      if kids == [] then []
      else if r == 4 then [Member(kids[0])]
      else if r == 5 && |kids| == 2 then Items(kids[0]) + [Member(kids[1])]
      else if r == 30 || r == 34 then [Setting(None, Denote(kids[0]))]
      else if (r == 31 || r == 35) && |kids| == 3 then
        Items(kids[0]) + [Setting(None, Denote(kids[2]))]
      else Items(kids[0])
  }

  function Member(t: Tree): Setting {
    match t
    case Leaf(_) => Setting(None, NoneV)
    case Node(_, kids) =>
      if |kids| == 5 && kids[0].Leaf? && kids[0].token.TName? then
        Setting(Some(kids[0].token.sval), Denote(kids[3]))
      else Setting(None, NoneV)
  }

  // ----- which meanings the actions refuse -----

  /** The item can follow the ones before it: names in groups are valid and new, elements of
      an array have the type of the first. */
  predicate LegalNext(kind: Kind, before: seq<Setting>, s: Setting)
    decreases s, 2
  {
    match kind
    case KGroup =>
      s.name.Some? && ValidName(s.name.value) && !HasMember(before, s.name.value)
      && LegalSetting(s)
    case KArray => before == [] || SameType(before[0].value, s.value)
    case KList => LegalSetting(s)
  }

  predicate LegalSetting(s: Setting)
    decreases s, 1
  {
    Legal(s.value)
  }

  predicate LegalItems(kind: Kind, list: seq<Setting>)
    decreases list, 0
  {
    list == [] ||
    (LegalItems(kind, list[..|list| - 1])
     && LegalNext(kind, list[..|list| - 1], list[|list| - 1]))
  }

  predicate Legal(v: Value)
    decreases v, 1
  {
    match v
    case GroupV(list) => LegalItems(KGroup, list)
    case ArrayV(list) => LegalItems(KArray, list)
    case ListV(list) => LegalItems(KList, list)
    case _ => true
  }

  lemma LegalAggregate(kind: Kind, list: seq<Setting>)
    ensures Legal(Aggregate(kind, list)) <==> LegalItems(kind, list)
  {
  }

  // ----- running the actions without a stack limit -----

  function ReduceFreely(r: int, sem: Sem): (next: SemNext)
    requires 1 < r <= NRULES && 0 <= R2(r) < |sem.vs|
    ensures next.SemGo? ==> |next.sem.vs| == |sem.vs| - R2(r) + 1
    ensures next.SemGo? ==> next.sem.vs[..|sem.vs| - R2(r)] == sem.vs[..|sem.vs| - R2(r)]
  {
    var n := R2(r);
    match Act(r, sem.ctx, sem.vs)
    case Fault => SemStop(Crashed)
    case Fail(e) => SemStop(Rejected(e))
    case Done(ctx) =>
      SemGo(Sem(ctx, sem.vs[..|sem.vs| - n] + [if n == 0 then Undef else sem.vs[|sem.vs| - n]]))
  }

  /** `Eval` with unbounded stacks. */
  function Effect(t: Tree, sem: Sem): (next: SemNext)
    requires Valid(t) && sem.vs != []
    ensures next.SemGo? ==> |next.sem.vs| == |sem.vs| + 1 && next.sem.vs[..|sem.vs|] == sem.vs
  {
    match t
    case Leaf(token) => SemGo(sem.(vs := sem.vs + [Lval(token)]))
    case Node(r, kids) =>
      match EffectAll(kids, sem)
      case SemStop(result) => SemStop(result)
      case SemGo(sem') =>
        assert sem'.vs[..|sem.vs|] == sem.vs;
        ReduceFreely(r, sem')
  }

  function EffectAll(ts: seq<Tree>, sem: Sem): (next: SemNext)
    requires ValidAll(ts) && sem.vs != []
    ensures next.SemGo? ==>
              |next.sem.vs| == |sem.vs| + |ts| && next.sem.vs[..|sem.vs|] == sem.vs
  {
    if ts == [] then SemGo(sem)
    else
      match Effect(ts[0], sem)
      case SemStop(result) => SemStop(result)
      case SemGo(sem') =>
        var next := EffectAll(ts[1..], sem');
        assert next.SemGo? ==> next.sem.vs[..|sem.vs|] == next.sem.vs[..|sem'.vs|][..|sem.vs|];
        next
  }

  // ----- how high the stacks get -----

  function Max(a: int, b: int): int { if a > b then a else b }

  /** How far evaluating a tree raises the stacks at most. */
  function Height(t: Tree): nat {
    match t
    case Leaf(_) => 1
    case Node(_, kids) => Max(1, HeightAll(kids))
  }

  function HeightAll(ts: seq<Tree>): nat {
    if ts == [] then 0 else Max(Height(ts[0]), 1 + HeightAll(ts[1..]))
  }

  lemma {:induction false} HeightAtLeast(ts: seq<Tree>)
    ensures HeightAll(ts) >= |ts|
  {
    if ts != [] {
      HeightAtLeast(ts[1..]);
    }
  }

  /** With enough room the bounded evaluation is the free one; without, it stops. */
  lemma {:induction false} EvalIsEffect(t: Tree, sem: Sem)
    requires Valid(t) && 0 < |sem.vs| < YYMAXDEPTH
    ensures if |sem.vs| + Height(t) < YYMAXDEPTH then Eval(t, sem) == Effect(t, sem)
            else Eval(t, sem).SemStop?
    ensures |sem.vs| + Height(t) >= YYMAXDEPTH && Effect(t, sem).SemGo? ==>
              Eval(t, sem) == SemStop(Rejected(MemoryExhausted))
    decreases t
  {
    if t.Node? {
      EvalAllIsEffectAll(t.kids, sem);
      HeightAtLeast(t.kids);
    }
  }

  lemma {:induction false} EvalAllIsEffectAll(ts: seq<Tree>, sem: Sem)
    requires ValidAll(ts) && 0 < |sem.vs| < YYMAXDEPTH
    ensures if |sem.vs| + HeightAll(ts) < YYMAXDEPTH then EvalAll(ts, sem) == EffectAll(ts, sem)
            else EvalAll(ts, sem).SemStop?
    ensures |sem.vs| + HeightAll(ts) >= YYMAXDEPTH && EffectAll(ts, sem).SemGo? ==>
              EvalAll(ts, sem) == SemStop(Rejected(MemoryExhausted))
    decreases ts
  {
    if ts != [] {
      EvalIsEffect(ts[0], sem);
      match Effect(ts[0], sem)
      case SemStop(_) =>
      case SemGo(sem') =>
        if |sem'.vs| < YYMAXDEPTH {
          EvalAllIsEffectAll(ts[1..], sem');
        }
    }
  }
}
