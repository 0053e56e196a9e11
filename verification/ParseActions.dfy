/** Tokens, semantic values, the parse context and the semantic actions of the grammar.

    The settings tree under construction is kept as its rightmost spine: `spine[0]` is the
    root group, the last frame is `ctx->parent`, and a frame holds the children its
    aggregate has received so far.  Every aggregate that is open is the newest child of the
    one before it, so the spine determines the whole tree. */
module ParseActions {
  import opened Wrappers
  import opened Settings

  datatype Token =
    | TBoolean(ival: int) | TInteger(ival: int) | THex(ival: int)
    | TInteger64(llval: int) | THex64(llval: int)
    | TFloat(fval: Double) | TString(sval: string) | TName(sval: string)
    | TEquals | TArrayStart | TArrayEnd | TListStart | TListEnd
    | TComma | TGroupStart | TGroupEnd | TSemicolon | TGarbage | TError

  /** The symbol number YYTRANSLATE gives a token; 0 is the end of input. */
  function Code(t: Token): (k: int)
    ensures 3 <= k < 23
  {
    match t
    case TBoolean(_) => 3
    case TInteger(_) => 4
    case THex(_) => 5
    case TInteger64(_) => 6
    case THex64(_) => 7
    case TFloat(_) => 8
    case TString(_) => 9
    case TName(_) => 10
    case TEquals => 11
    case TArrayStart => 13
    case TArrayEnd => 14
    case TListStart => 15
    case TListEnd => 16
    case TComma => 17
    case TGroupStart => 18
    case TGroupEnd => 19
    case TSemicolon => 20
    case TGarbage => 21
    case TError => 22
  }

  /** An entry of the value stack: a token's value, or memory nobody initialised. */
  datatype SemVal = Undef | Lval(token: Token)

  datatype Frame = Frame(name: Option<string>, kind: Kind, done: seq<Setting>)

  /** `newest` says that `ctx->setting` is the newest child of `ctx->parent`; otherwise it is
      NULL or left over from some other aggregate.  `str` is the pending string buffer. */
  datatype Ctx = Ctx(spine: seq<Frame>, newest: bool, str: string)

  datatype ParseError = DuplicateSetting | ElementTypeMismatch | SyntaxError | MemoryExhausted

  /** Outcome of an action.  `Fault` marks the use of a pointer that is NULL or that points
      somewhere else than the grammar's author meant. */
  datatype ActOutcome = Done(ctx: Ctx) | Fail(error: ParseError) | Fault

  function TopDone(spine: seq<Frame>): seq<Setting>
    requires spine != []
  {
    spine[|spine| - 1].done
  }

  function TopKind(spine: seq<Frame>): Kind
    requires spine != []
  {
    spine[|spine| - 1].kind
  }

  /** The spine with other children in its last frame. */
  function WithDone(spine: seq<Frame>, list: seq<Setting>): seq<Frame>
    requires spine != []
  {
    spine[..|spine| - 1] + [spine[|spine| - 1].(done := list)]
  }

  function Top(ctx: Ctx): Frame
    requires ctx.spine != []
  {
    ctx.spine[|ctx.spine| - 1]
  }

  function SetTop(ctx: Ctx, f: Frame): Ctx
    requires ctx.spine != []
  {
    ctx.(spine := ctx.spine[..|ctx.spine| - 1] + [f])
  }

  /** `__config_list_add` on `ctx->parent`. */
  function AddChild(ctx: Ctx, s: Setting): Ctx
    requires ctx.spine != []
  {
    SetTop(ctx, Top(ctx).(done := Top(ctx).done + [s]))
  }

  /** `config_setting_add(ctx->parent, name, CONFIG_TYPE_NONE)` at a setting's name. */
  function BeginSetting(ctx: Ctx, name: string): ActOutcome
    requires ctx.spine != []
  {
    var f := Top(ctx);
    if !f.kind.KGroup? then Done(AddChild(ctx, Setting(None, NoneV)).(newest := true))
    else if !ValidName(name) || HasMember(f.done, name) then Fail(DuplicateSetting)
    else Done(AddChild(ctx, Setting(Some(name), NoneV)).(newest := true))
  }

  /** `ctx->setting` is the newest child of `ctx->parent` and has no value yet. */
  predicate Fresh(ctx: Ctx) {
    && ctx.spine != []
    && ctx.newest
    && Top(ctx).done != []
    && Top(ctx).done[|Top(ctx).done| - 1].value.NoneV?
  }

  /** The opening bracket of an array, list or group. */
  function Open(ctx: Ctx, kind: Kind): ActOutcome
    requires ctx.spine != []
  {
    var f := Top(ctx);
    if f.kind.KList? then 
      Done(Ctx(ctx.spine + [Frame(None, kind, [])], false, ctx.str))
    else if !Fresh(ctx) then Fault
    else
      var last := |f.done| - 1;
      var ctx' := SetTop(ctx, f.(done := f.done[..last]));
      Done(Ctx(ctx'.spine + [Frame(f.done[last].name, kind, [])], false, ctx.str))
  }

  /** The closing bracket: `ctx->parent = ctx->parent->parent`. */
  function Close(ctx: Ctx): ActOutcome
    requires ctx.spine != []
  {
    if |ctx.spine| == 1 then Fault
    else
      var f := Top(ctx);
      var outer := ctx.(spine := ctx.spine[..|ctx.spine| - 1], newest := false);
      Done(AddChild(outer, Setting(f.name, Aggregate(f.kind, f.done))))
  }

  /** A scalar: a new element inside an array or list, otherwise the value of `ctx->setting`. */
  function Scalar(ctx: Ctx, v: Value): ActOutcome
    requires ctx.spine != []
  {
    var f := Top(ctx);
    if f.kind.KGroup? then
      if !Fresh(ctx) then Fault
      else
        var last := |f.done| - 1;
        Done(SetTop(ctx, f.(done := f.done[..last] + [Setting(f.done[last].name, v)])))
    else if f.kind.KArray? && f.done != [] && !SameType(f.done[0].value, v) then
      Fail(ElementTypeMismatch)
    else Done(AddChild(ctx.(newest := false), Setting(None, v)))
  }

  /** The semantic action of rule `r`, run with the value stack `vs` before it is popped. */
  function Act(r: int, ctx: Ctx, vs: seq<SemVal>): ActOutcome {
    if ctx.spine == [] || vs == [] then Fault
    else
      var v := vs[|vs| - 1];
      match r
      case 11 => if v.Lval? && v.token.TName? then BeginSetting(ctx, v.token.sval) else Fault
      case 13 => Open(ctx, KArray)
      case 14 => Close(ctx)
      case 15 => Open(ctx, KList)
      case 16 => Close(ctx)
      case 21 =>
        if v.Lval? && v.token.TString? then Done(ctx.(str := ctx.str + v.token.sval)) else Fault
      case 22 =>
        if v.Lval? && v.token.TString? then Done(ctx.(str := ctx.str + v.token.sval)) else Fault
      case 23 => if v.Lval? && v.token.TBoolean? then Scalar(ctx, BoolV(v.token.ival)) else Fault
      case 24 =>
        if v.Lval? && v.token.TInteger? then Scalar(ctx, IntV(v.token.ival, false)) else Fault
      case 25 =>
        if v.Lval? && v.token.TInteger64? then Scalar(ctx, Int64V(v.token.llval, false)) else Fault
      case 26 => if v.Lval? && v.token.THex? then Scalar(ctx, IntV(v.token.ival, true)) else Fault
      case 27 =>
        if v.Lval? && v.token.THex64? then Scalar(ctx, Int64V(v.token.llval, true)) else Fault
      case 28 => if v.Lval? && v.token.TFloat? then Scalar(ctx, FloatV(v.token.fval)) else Fault
      case 29 => Scalar(ctx.(str := ""), StringV(ctx.str))
      case 38 => Open(ctx, KGroup)
      case 39 => Close(ctx)
      case _ => Done(ctx)
  }

  /** A name is what is reported as a duplicate, a value what is reported as a mismatch; every
      other rule succeeds where the pointers that it uses are right. */
  lemma ErrorsByRule(r: int, ctx: Ctx, vs: seq<SemVal>)
    ensures match Act(r, ctx, vs)
            case Fail(DuplicateSetting) => r == 11
            case Fail(ElementTypeMismatch) => 23 <= r <= 29
            case Fail(_) => false
            case _ => true
  {
  }
}
