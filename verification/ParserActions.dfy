/** The grammar's actions on the settings of the configuration that is being read. */
module ParserActions {
  import opened Wrappers
  import opened Settings
  import opened SettingHeap
  import opened SettingTrees
  import opened ParseActions
  import opened LrParser
  import opened HeapSpine

  lemma TypeIsTag(a: Value, b: Value)
    ensures SameType(a, b) <==> TagOfValue(a) == TagOfValue(b)
  {
  }

  /** `parse_context`: `ctx->parent`, `ctx->setting` and the string buffer. */
  class ParseContext {
    const config: Config
    var parent: Node
    var setting: Node?
    var str: string
    /** What the context amounts to on values. */
    ghost var value: Ctx
    /** The settings from the root to `parent`, and those that are finished. */
    ghost var path: seq<Node>
    ghost var closed: set<Node>

    ghost function Value(): Ctx
      reads this
    {
      value
    }

    /** `ctx->setting`, if it is the newest child of `ctx->parent` and has no value yet. */
    ghost function Loose(): Node?
      reads this
    {
      if Fresh(value) then setting else null
    }

    ghost predicate Valid()
      reads this, config, config.depth.Keys, closed
    {
      && config.Valid() && value.spine != [] && value.str == str
      && Mirror(config, path, value.spine, Loose(), closed)
      && parent == path[|path| - 1] && (Fresh(value) ==> setting != null)
    }

    constructor (casts: Casts)
      ensures Valid() && value == InitialCtx && fresh(config) && fresh(config.depth.Keys)
    {
      var empty := new Config(casts);
      config := empty;
      parent := empty.root;
      setting := null;
      str := "";
      value := InitialCtx;
      path := [empty.root];
      closed := {};
      new;
      assert config.Linked(config.root);
      assert FrameOk(config, path, value.spine, null, closed, 0);
    }

    /** What is finished once the newest setting is left as it is. */
    ghost function Settled(): set<Node>
      reads this
    {
      if Fresh(value) && setting != null then closed + {setting} else closed
    }

    lemma SettledMirror()
      requires Valid()
      ensures Mirror(config, path, value.spine, null, Settled())
      ensures parent in config.depth && parent.content == Agg(Top(value).kind)
      ensures forall i | 0 <= i < |path| :: path[i] in config.depth
    {
      if Fresh(value) {
        HeapSpine.Settled(config, path, value.spine, setting, closed);
      }
      forall i | 0 <= i < |path| ensures path[i] in config.depth {
        assert FrameOk(config, path, value.spine, Loose(), closed, i);
      }
      assert FrameOk(config, path, value.spine, Loose(), closed, |path| - 1);
    }

    /** The children of the parent with one more that has no value yet. */
    ghost function WithNamed(name: string): seq<Setting>
      reads this
      requires value.spine != []
    {
      TopDone(value.spine) + [Setting(if Top(value).kind.KGroup? then Some(name) else None, NoneV)]
    }

    /** `config_setting_add` of a setting without a type. */
    method AddNamed(name: string) returns (added: Node?)
      requires Valid()
      modifies config, config.depth.Keys
      ensures added == null <==> BeginSetting(Value(), name).Fail?
      ensures added != null ==>
                && config.Valid() && fresh(added)
                && Mirror(config, path, WithDone(value.spine, WithNamed(name)), added, old(Settled()))
      ensures fresh(config.depth.Keys - old(config.depth.Keys))
    {
      SettledMirror();
      ghost var done := Settled();
      SameNames(config, path, value.spine, null, done, name);
      added := config.Add(parent, Some(name), NoneT);
      if added != null {
        GrownMirror(config, path, value.spine, done, added);
      }
    }

    /** A setting's name: add the setting, unless the group has one of that name. */
    method NameSetting(name: string) returns (failure: Option<ParseError>)
      requires Valid()
      modifies this, config, config.depth.Keys
      ensures match BeginSetting(old(Value()), name)
              case Done(ctx) => failure.None? && Valid() && Value() == ctx
              case Fail(e) => failure == Some(e)
              case Fault => false
      ensures fresh(config.depth.Keys - old(config.depth.Keys))
    {
      ghost var done := Settled();
      var added := AddNamed(name);
      setting := added;
      if added == null {
        return Some(DuplicateSetting);
      }
      closed := done;
      value := BeginSetting(value, name).ctx;
      return None;
    }

    /** An opening bracket in a list: the parent gets a new element, which becomes the parent. */
    method OpenElement(kind: Kind)
      requires Valid() && Top(Value()).kind.KList?
      modifies this, config, config.depth.Keys
      ensures Valid() && Value() == Open(old(Value()), kind).ctx
      ensures fresh(config.depth.Keys - old(config.depth.Keys))
    {
      SettledMirror();
      ghost var done := Settled();
      var added := config.Add(parent, None, AggT(kind));
      GrownMirror(config, path, value.spine, done, added);
      parent := added;
      closed, path := done, path + [added];
      value := Open(value, kind).ctx;
    }

    /** An opening bracket elsewhere: the setting just named becomes the parent. */
    method OpenSetting(kind: Kind)
      requires Valid() && !Top(Value()).kind.KList? && Fresh(Value())
      modifies this, config.depth.Keys
      ensures Valid() && Value() == Open(old(Value()), kind).ctx
    {
      SettledMirror();
      assert LooseOk(config, path, value.spine, setting, closed);
      config.SetType(setting, kind);
      ChangedMirror(config, path, value.spine, setting, closed);
      path := path + [setting];
      parent := setting;
      setting := null;
      value := Open(value, kind).ctx;
    }

    /** An opening bracket: the new aggregate becomes the parent. */
    method OpenAggregate(kind: Kind)
      requires Valid() && Open(Value(), kind).Done?
      modifies this, config, config.depth.Keys
      ensures Valid() && Value() == Open(old(Value()), kind).ctx
      ensures fresh(config.depth.Keys - old(config.depth.Keys))
    {
      SettledMirror();
      if parent.content == Agg(KList) {
        OpenElement(kind);
      } else {
        OpenSetting(kind);
      }
    }

    /** A closing bracket: the parent's parent becomes the parent. */
    method CloseAggregate()
      requires Valid() && |Value().spine| > 1
      modifies this
      ensures Valid() && Value() == Close(old(Value())).ctx
    {
      SettledMirror();
      ghost var k := |path| - 1;
      ghost var done := Settled();
      assert FrameOk(config, path, value.spine, null, done, k - 1);
      assert config.Elements(path[k - 1]);
      assert config.Held(path[k - 1], path[k - 1].elements[|value.spine[k - 1].done|]);
      ClosedMirror(config, path, value.spine, done);
      parent := parent.parent;
      closed, path := done + {path[k]}, path[..k];
      value := Close(value).ctx;
    }

    /** The value and the format of a setting that has just been added. */
    method Finish(e: Node, v: Value, ghost spine: seq<Frame>, ghost done: set<Node>)
      requires config.Valid() && Mirror(config, path, spine, e, done)
      requires forall i | 0 <= i < |path| :: path[i] in config.depth
      requires (e.content == Plain(NoneV) || e.content == Plain(WithoutFormat(v))) && !v.IsAggregate()
      modifies e`content
      ensures config.Valid() && TopDone(spine) != []
      ensures var list := TopDone(spine); var last := |list| - 1;
        Mirror(config, path, WithDone(spine, list[..last] + [Setting(list[last].name, v)]), null, done + {e})
    {
      assert LooseOk(config, path, spine, e, done);
      if e.content.value.NoneV? {
        var ok := config.SetScalar(e, v);
      }
      if v.IntV? || v.Int64V? {
        var ok := config.SetFormat(e, v.hex);
      }
      ChangedMirror(config, path, spine, e, done);
      ghost var list := TopDone(spine);
      list := list[..|list| - 1] + [Setting(list[|list| - 1].name, v)];
      HeapSpine.Settled(config, path, WithDone(spine, list), e, done);
    }

    /** The value of the setting just named. */
    method StoreValue(v: Value)
      requires Valid() && Fresh(Value()) && Top(Value()).kind.KGroup? && !v.IsAggregate() && !v.NoneV?
      modifies this, config.depth.Keys
      ensures Valid() && Value() == Scalar(old(Value()), v).ctx
    {
      SettledMirror();
      assert LooseOk(config, path, value.spine, setting, closed);
      Finish(setting, v, value.spine, closed);
      closed := closed + {setting};
      value := Scalar(value, v).ctx;
    }

    /** `config_setting_set_*_elem` on the array or list that is open. */
    method AppendLoose(v: Value) returns (e: Node?)
      requires Valid() && !Top(Value()).kind.KGroup? && !v.IsAggregate() && !v.NoneV?
      modifies config, config.depth.Keys
      ensures e == null <==> Scalar(Value(), v).Fail?
      ensures e != null ==>
                && config.Valid() && fresh(e) && e.content == Plain(WithoutFormat(v))
                && Mirror(config, path, WithDone(value.spine, TopDone(value.spine) + [Setting(None, WithoutFormat(v))]),
                          e, old(Settled()))
                && forall i | 0 <= i < |path| :: path[i] in config.depth
      ensures fresh(config.depth.Keys - old(config.depth.Keys))
    {
      SettledMirror();
      FirstElement(v);
      ghost var done := Settled();
      e := config.AppendElem(parent, v);
      if e != null {
        GrownMirror(config, path, value.spine, done, e);
      }
    }

    /** One more element, in the array or list that is open. */
    method StoreElement(v: Value) returns (failure: Option<ParseError>)
      requires Valid() && !Top(Value()).kind.KGroup? && !v.IsAggregate() && !v.NoneV?
      modifies this, config, config.depth.Keys
      ensures match Scalar(old(Value()), v)
              case Done(ctx) => failure.None? && Valid() && Value() == ctx
              case Fail(e) => failure == Some(e)
              case Fault => false
      ensures fresh(config.depth.Keys - old(config.depth.Keys))
    {
      ghost var done := Settled();
      ghost var spine := value.spine;
      var e := AppendLoose(v);
      if e == null {
        return Some(ElementTypeMismatch);
      }
      ghost var grown := WithDone(spine, TopDone(spine) + [Setting(None, WithoutFormat(v))]);
      Finish(e, v, grown, done);
      StoredSpine(spine, v);
      closed := done + {e};
      value := Scalar(value, v).ctx;
      return None;
    }

    lemma StoredSpine(spine: seq<Frame>, v: Value)
      requires spine != []
      ensures var grown := WithDone(spine, TopDone(spine) + [Setting(None, WithoutFormat(v))]);
              var list := TopDone(grown);
        WithDone(grown, list[..|list| - 1] + [Setting(list[|list| - 1].name, v)]) ==
        WithDone(spine, TopDone(spine) + [Setting(None, v)])
    {
    }

    /** The library goes by the type of the first element as the specification does. */
    lemma FirstElement(v: Value)
      requires Valid()
      ensures |parent.elements| == |Top(value).done|
      ensures Top(value).done != [] ==>
                (SameType(Top(value).done[0].value, v) <==> TagOf(parent.elements[0].content) == TagOfValue(v))
    {
      assert FrameOk(config, path, value.spine, Loose(), closed, |path| - 1);
      if Top(value).done != [] {
        TopElement(config, path, value.spine, Loose(), closed, 0);
        TypeIsTag(Top(value).done[0].value, v);
      }
    }

    /** A scalar: the value of the setting just named, or one more element. */
    method StoreScalar(v: Value) returns (failure: Option<ParseError>)
      requires Valid() && !Scalar(Value(), v).Fault? && !v.IsAggregate() && !v.NoneV?
      modifies this, config, config.depth.Keys
      ensures match Scalar(old(Value()), v)
              case Done(ctx) => failure.None? && Valid() && Value() == ctx
              case Fail(e) => failure == Some(e)
              case Fault => false
      ensures fresh(config.depth.Keys - old(config.depth.Keys))
    {
      SettledMirror();
      if parent.content == Agg(KArray) || parent.content == Agg(KList) {
        failure := StoreElement(v);
      } else {
        StoreValue(v);
        failure := None;
      }
    }

    /** `parsectx_append_string`. */
    method AppendString(text: string)
      requires Valid()
      modifies this
      ensures Valid() && Value() == old(Value()).(str := old(Value()).str + text)
    {
      str := str + text;
      value := value.(str := str);
    }

    /** `parsectx_take_string`. */
    method TakeString() returns (text: string)
      requires Valid()
      modifies this
      ensures Valid() && text == old(Value()).str && Value() == old(Value()).(str := "")
    {
      text := str;
      str := "";
      value := value.(str := "");
    }

    /** The switch over the rules; `vs` is the value stack. */
    method RunAction(r: int, ghost vs: seq<SemVal>, top: SemVal) returns (failure: Option<ParseError>)
      requires Valid() && vs != [] && top == vs[|vs| - 1] && !Act(r, Value(), vs).Fault?
      modifies this, config, config.depth.Keys
      ensures match Act(r, old(Value()), vs)
              case Done(ctx) => failure.None? && Valid() && Value() == ctx
              case Fail(e) => failure == Some(e)
              case Fault => false
      ensures fresh(config.depth.Keys - old(config.depth.Keys))
    {
      failure := None;
      match r
      case 11 => failure := NameSetting(top.token.sval);
      case 13 => OpenAggregate(KArray);
      case 15 => OpenAggregate(KList);
      case 38 => OpenAggregate(KGroup);
      case 14 => CloseAggregate();
      case 16 => CloseAggregate();
      case 39 => CloseAggregate();
      case 21 => AppendString(top.token.sval);
      case 22 => AppendString(top.token.sval);
      case 23 => failure := StoreScalar(BoolV(top.token.ival));
      case 24 => failure := StoreScalar(IntV(top.token.ival, false));
      case 25 => failure := StoreScalar(Int64V(top.token.llval, false));
      case 26 => failure := StoreScalar(IntV(top.token.ival, true));
      case 27 => failure := StoreScalar(Int64V(top.token.llval, true));
      case 28 => failure := StoreScalar(FloatV(top.token.fval));
      case 29 =>
        var text := TakeString();
        failure := StoreScalar(StringV(text));
      case _ =>
    }
  }
}
