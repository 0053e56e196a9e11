/** `config_setting_copy`: a deep copy below another parent. */
module SettingCopy {
  import opened Wrappers
  import opened Settings
  import opened SettingHeap
  import opened SettingTrees
  import opened CopyValues

  // ----- the copying methods -----

  /** `parent` has one more element, which with what is below it, all new, makes up `t`. */
  twostate predicate Appended(config: Config, parent: Node, t: Setting, new made: set<Node>)
    reads *
  {
    && fresh(made) && parent in old(config.depth) && config.depth.Keys == old(config.depth.Keys) + made
    && |parent.elements| == |old(parent.elements)| + 1
    && parent.elements[..|old(parent.elements)|] == old(parent.elements)
    && Rep(parent.elements[|old(parent.elements)|], t, made)
  }

  /** No new element. */
  twostate predicate NotAppended(config: Config, parent: Node)
    reads *
  {
    config.depth == old(config.depth) && parent.elements == old(parent.elements)
  }

  /** `config_setting_add` succeeds. */
  ghost predicate CanTake(config: Config, parent: Node, name: Option<string>)
    reads config, parent, parent.elements
  {
    || parent.content == Agg(KArray) || parent.content == Agg(KList)
    || (parent.content == Agg(KGroup) && name.Some? && ValidName(name.value)
        && !config.HasNamed(parent, name.value))
  }

  lemma RepAggregate(n: Node, t: Setting, S: set<Node>, kind: Kind)
    requires Rep(n, t, S) && t.value.IsAggregate() && n.content == Agg(kind)
    ensures t.value == Aggregate(kind, t.value.list) && |n.elements| == |t.value.list|
    ensures CopyValue(t.value) == Aggregate(kind, CopyItems(kind, t.value.list))
    ensures MeetsNull(t.value) <==> ItemsMeetNull(kind, t.value.list)
  {
  }

  /** `config_setting_copy_simple` for a scalar below a group or list. */
  method CopyScalar(config: Config, parent: Node, src: Node, ghost t: Setting, ghost S: set<Node>)
    returns (ghost made: set<Node>)
    requires config.Valid() && parent in config.depth && parent.content.Agg?
    requires Rep(src, t, S) && parent !in S && !t.value.IsAggregate()
    requires parent.content == Agg(KGroup) ==> src.name.Some?
    modifies config`depth, parent`elements, parent`capacity
    ensures config.Valid()
    ensures if old(CanTake(config, parent, src.name)) then
              Appended(config, parent, Copied(old(parent.content.kind), t), made)
            else made == {} && NotAppended(config, parent)
  {
    RepScalar(src, t, S);
    var setting := AddLike(config, parent, src);
    made := {};
    if setting != null {
      Fill(config, setting, src.content.value);
      made := {setting};
      GrownAppended(config, parent, setting, Copied(parent.content.kind, t));
    }
  }

  /** `config_setting_add` with the name and type of another setting. */
  method AddLike(config: Config, parent: Node, src: Node) returns (setting: Node?)
    requires config.Valid() && parent in config.depth && parent.content.Agg?
    requires parent.content == Agg(KGroup) ==> src.name.Some?
    modifies config`depth, parent`elements, parent`capacity
    ensures config.Valid() && (setting != null <==> old(CanTake(config, parent, src.name)))
    ensures setting == null ==> NotAppended(config, parent)
    ensures setting != null ==>
              && fresh(setting) && config.Grown(parent, setting)
              && setting.content == Blank(TagOf(old(src.content)))
              && setting.name == if parent.content == Agg(KGroup) then old(src.name) else None
  {
    var kind := parent.content.kind;
    assert parent.content == Agg(kind) && (kind.KGroup? || kind.KArray? || kind.KList?);
    setting := config.Add(parent, src.name, TagOf(src.content));
  }

  /** Gives a new setting the value and the format that its type was chosen for. */
  method Fill(config: Config, setting: Node, v: Value)
    requires config.Valid() && setting in config.depth && !v.IsAggregate()
    requires setting.content == Blank(TagOf(Plain(v))) || setting.content == Plain(WithoutFormat(v))
    modifies setting`content
    ensures config.Valid() && setting.content == Plain(v)
  {
    var ok := config.SetScalar(setting, v);
    if v.IntV? || v.Int64V? {
      ok := config.SetFormat(setting, v.hex);
    }
  }

  twostate lemma GrownAppended(config: Config, new parent: Node, new setting: Node, new t: Setting)
    requires parent in old(config.depth) && config.Grown(parent, setting) && fresh(setting)
    requires setting.name == t.name && setting.content == Plain(t.value) && !t.value.IsAggregate()
    ensures Appended(config, parent, t, {setting})
  {
    assert parent.elements[|old(parent.elements)|] == setting;
  }

  /** The type of the first element, if there is one. */
  ghost function ElemTag(vector: Node): Option<Tag>
    reads vector, vector.elements
  {
    if vector.elements == [] then None else Some(TagOf(vector.elements[0].content))
  }

  /** `config_setting_copy_elem` for a scalar in an array or list.  `crashed` tells that it goes
      on through a null pointer. */
  method CopyScalarElem(config: Config, parent: Node, src: Node, ghost t: Setting, ghost S: set<Node>)
    returns (crashed: bool, ghost made: set<Node>)
    requires config.Valid() && parent in config.depth
    requires parent.content == Agg(KArray) || parent.content == Agg(KList)
    requires Rep(src, t, S) && parent !in S && !t.value.IsAggregate()
    modifies config`depth, parent`elements, parent`capacity
    ensures config.Valid()
    ensures crashed <==> ItemMeetsNull(old(parent.content.kind), old(ElemTag(parent)), t)
    ensures !crashed ==>
              ItemAppended(config, parent, CopyItem(old(parent.content.kind), old(ElemTag(parent)), t), made)
  {
    RepScalar(src, t, S);
    var v := src.content.value;
    made := {};
    crashed := false;
    if !v.NoneV? {
      var setting := config.AppendElem(parent, v);
      if setting == null {
        crashed := v.IntV? || v.Int64V?;
      } else {
        Fill(config, setting, v);
        made := {setting};
        GrownAppended(config, parent, setting, Copied(parent.content.kind, t));
      }
    }
  }

  // ----- aggregates -----

  /** What copying an element of an aggregate appends, if anything. */
  twostate predicate ItemAppended(config: Config, parent: Node, item: seq<Setting>, new made: set<Node>)
    reads *
  {
    if |item| == 1 then Appended(config, parent, item[0], made)
    else item == [] && made == {} && NotAppended(config, parent)
  }

  /** The children of the new aggregate are the copies of the first `i` elements. */
  ghost predicate CopiedSoFar(agg: Node, kind: Kind, list: seq<Setting>, i: nat, made: set<Node>)
    reads agg, made
    requires i <= |list|
  {
    var items := CopyItems(kind, list[..i]);
    agg.content == Agg(kind) && |agg.elements| == |items| &&
    forall j | 0 <= j < |items| :: Rep(agg.elements[j], items[j], made)
  }

  lemma CopyItemsNext(kind: Kind, list: seq<Setting>, i: nat)
    requires i < |list|
    ensures CopyItems(kind, list[..i + 1]) ==
            CopyItems(kind, list[..i]) + CopyItem(kind, FirstTag(list[..i]), list[i])
    ensures ItemsMeetNull(kind, list[..i + 1]) <==>
            ItemsMeetNull(kind, list[..i]) || ItemMeetsNull(kind, FirstTag(list[..i]), list[i])
  {
    assert list[..i + 1][..i] == list[..i];
  }

  /** The names so far are names of earlier members, so the next one is new. */
  lemma {:induction false} CopiedNames(list: seq<Setting>, i: nat)
    requires i <= |list|
    ensures |CopyItems(KGroup, list[..i])| == i
    ensures forall j | 0 <= j < i :: CopyItems(KGroup, list[..i])[j].name == list[j].name
  {
    if i > 0 {
      CopiedNames(list, i - 1);
      CopyItemsNext(KGroup, list, i - 1);
    }
  }

  lemma NextNameIsNew(config: Config, agg: Node, list: seq<Setting>, i: nat, made: set<Node>)
    requires i < |list| && CopiedSoFar(agg, KGroup, list, i, made) && WellNamedItems(KGroup, list)
    ensures CanTake(config, agg, list[i].name)
  {
    CopiedNames(list, i);
    assert WellNamedItem(KGroup, list[i]);
    var name := list[i].name.value;
    SegmentOfValidName(name);
    forall j | 0 <= j < |agg.elements| ensures !Named(agg.elements[j], name) {
      assert Rep(agg.elements[j], CopyItems(KGroup, list[..i])[j], made);
      assert WellNamedItem(KGroup, list[j]);
      SegmentOfValidName(list[j].name.value);
      assert list[j].name != list[i].name;
    }
  }

  /** The first copied element has the type of the first element that has one. */
  lemma {:induction false} CopiedFirst(kind: Kind, list: seq<Setting>)
    requires !kind.KGroup?
    ensures var items := CopyItems(kind, list);
      FirstTag(list) == if items == [] then None else Some(TagOfValue(items[0].value))
  {
    if list != [] {
      var before, s := list[..|list| - 1], list[|list| - 1];
      CopiedFirst(kind, before);
      CopyKeepsType(s.value);
      assert CopyItems(kind, list) == CopyItems(kind, before) + CopyItem(kind, FirstTag(before), s);
    }
  }

  lemma ElemTagIsFirst(agg: Node, kind: Kind, list: seq<Setting>, i: nat, made: set<Node>)
    requires i <= |list| && CopiedSoFar(agg, kind, list, i, made) && !kind.KGroup?
    ensures ElemTag(agg) == FirstTag(list[..i])
  {
    CopiedFirst(kind, list[..i]);
    if agg.elements != [] {
      RepTag(agg.elements[0], CopyItems(kind, list[..i])[0], made);
    }
  }

  /** `config_setting_copy_simple`, which also copies members of groups. */
  method CopySimple(config: Config, parent: Node, src: Node, ghost t: Setting, ghost S: set<Node>)
    returns (crashed: bool, ghost made: set<Node>)
    requires config.Valid() && parent in config.depth && parent.content.Agg?
    requires Rep(src, t, S) && parent !in S && WellNamed(t.value)
    requires parent.content == Agg(KGroup) ==> src.name.Some?
    modifies config`depth, parent`elements, parent`capacity
    ensures config.Valid()
    ensures crashed <==> old(CanTake(config, parent, src.name)) && MeetsNull(t.value)
    ensures !crashed ==>
              if old(CanTake(config, parent, src.name)) then
                Appended(config, parent, Copied(old(parent.content.kind), t), made)
              else made == {} && NotAppended(config, parent)
    decreases t, 3
  {
    if src.content.Agg? {
      crashed, made := CopyAggregate(config, parent, src, t, S);
    } else {
      made := CopyScalar(config, parent, src, t, S);
      crashed := false;
    }
  }

  /** `config_setting_copy_elem`. */
  method CopyElem(config: Config, parent: Node, src: Node, ghost t: Setting, ghost S: set<Node>)
    returns (crashed: bool, ghost made: set<Node>)
    requires config.Valid() && parent in config.depth
    requires parent.content == Agg(KArray) || parent.content == Agg(KList)
    requires Rep(src, t, S) && parent !in S && WellNamed(t.value)
    modifies config`depth, parent`elements, parent`capacity
    ensures config.Valid()
    ensures crashed <==> ItemMeetsNull(old(parent.content.kind), old(ElemTag(parent)), t)
    ensures !crashed ==>
              ItemAppended(config, parent, CopyItem(old(parent.content.kind), old(ElemTag(parent)), t), made)
    decreases t, 3
  {
    if src.content.Agg? {
      RepAggregate(src, t, S, src.content.kind);
      crashed, made := CopyAggregate(config, parent, src, t, S);
    } else {
      crashed, made := CopyScalarElem(config, parent, src, t, S);
    }
  }

  /** The copies so far, with the one that the next element adds. */
  twostate lemma CopiedNext(config: Config, new agg: Node, new kind: Kind, new list: seq<Setting>,
                            new i: nat, new made: set<Node>, new more: set<Node>)
    requires agg in old(config.depth) && i < |list| && made <= old(config.depth.Keys)
    requires old(CopiedSoFar(agg, kind, list, i, made))
    requires ItemAppended(config, agg, CopyItem(kind, FirstTag(list[..i]), list[i]), more)
    requires agg !in made && unchanged(agg`content) && forall n | n in made :: unchanged(n)
    ensures CopiedSoFar(agg, kind, list, i + 1, made + more)
  {
    CopyItemsNext(kind, list, i);
    var before, items := old(agg.elements), CopyItems(kind, list[..i + 1]);
    forall j | 0 <= j < |items| ensures Rep(agg.elements[j], items[j], made + more) {
      if j < |before| {
        assert agg.elements[j] == before[j];
        assert old(Rep(before[j], items[j], made));
        RepGrows(before[j], items[j], made, made + more);
      } else {
        RepGrows(agg.elements[j], items[j], more, made + more);
      }
    }
  }

  /** Copies one element of an aggregate of the given kind into its copy. */
  method CopyInto(config: Config, agg: Node, kind: Kind, child: Node, ghost t: Setting, ghost S: set<Node>,
                  ghost first: Option<Tag>)
    returns (crashed: bool, ghost more: set<Node>)
    requires config.Valid() && agg in config.depth && agg.content == Agg(kind)
    requires Rep(child, t, S) && agg !in S && WellNamed(t.value)
    requires if kind.KGroup? then CanTake(config, agg, t.name) else ElemTag(agg) == first
    modifies config`depth, agg`elements, agg`capacity
    ensures config.Valid() && (crashed <==> ItemMeetsNull(kind, first, t))
    ensures !crashed ==> ItemAppended(config, agg, CopyItem(kind, first, t), more)
    decreases t, 4
  {
    if kind.KGroup? {
      crashed, more := CopySimple(config, agg, child, t, S);
    } else {
      crashed, more := CopyElem(config, agg, child, t, S);
    }
  }

  /** One round of the loop over the source's elements. */
  method CopyNext(config: Config, agg: Node, kind: Kind, src: Node, i: nat,
                  ghost t: Setting, ghost S: set<Node>, ghost made: set<Node>)
    returns (crashed: bool, ghost made': set<Node>)
    requires config.Valid() && agg in config.depth && agg !in S && agg !in made
    requires Rep(src, t, S) && src.content == Agg(kind) && i < |src.elements| && WellNamed(t.value)
    requires |src.elements| == |t.value.list| && t.value == Aggregate(kind, t.value.list)
    requires CopiedSoFar(agg, kind, t.value.list, i, made) && made <= config.depth.Keys
    modifies config`depth, agg`elements, agg`capacity
    ensures config.Valid()
    ensures crashed <==> ItemMeetsNull(kind, FirstTag(t.value.list[..i]), t.value.list[i])
    ensures !crashed ==>
              && CopiedSoFar(agg, kind, t.value.list, i + 1, made')
              && made <= made' && fresh(made' - made) && agg !in made'
              && config.depth.Keys == old(config.depth.Keys) + (made' - made)
    decreases t, 0
  {
    ghost var list := t.value.list;
    var child := src.elements[i];
    ghost var first := FirstTag(list[..i]);
    ReadyForNext(config, agg, kind, list, i, made);
    ghost var more;
    crashed, more := CopyInto(config, agg, kind, child, list[i], S, first);
    made' := made + more;
    if !crashed {
      CopiedNext(config, agg, kind, list, i, made, more);
    }
  }

  /** The new aggregate can take the next element. */
  lemma ReadyForNext(config: Config, agg: Node, kind: Kind, list: seq<Setting>, i: nat, made: set<Node>)
    requires i < |list| && CopiedSoFar(agg, kind, list, i, made) && WellNamed(Aggregate(kind, list))
    ensures agg.content == Agg(kind) && WellNamed(list[i].value)
    ensures if kind.KGroup? then CanTake(config, agg, list[i].name) else ElemTag(agg) == FirstTag(list[..i])
  {
    NamedElement(kind, list, i);
    if kind.KGroup? {
      NextNameIsNew(config, agg, list, i, made);
    } else {
      ElemTagIsFirst(agg, kind, list, i, made);
    }
  }

  lemma NamedElement(kind: Kind, list: seq<Setting>, i: nat)
    requires WellNamed(Aggregate(kind, list)) && i < |list|
    ensures WellNamed(list[i].value)
  {
    assert WellNamedItem(kind, list[i]);
  }

  /** `config_setting_copy_aggregate`. */
  method CopyAggregate(config: Config, parent: Node, src: Node, ghost t: Setting, ghost S: set<Node>)
    returns (crashed: bool, ghost made: set<Node>)
    requires config.Valid() && parent in config.depth && parent.content.Agg?
    requires Rep(src, t, S) && parent !in S && WellNamed(t.value) && src.content.Agg?
    requires parent.content == Agg(KGroup) ==> src.name.Some?
    modifies config`depth, parent`elements, parent`capacity
    ensures config.Valid()
    ensures crashed <==> old(CanTake(config, parent, src.name)) && MeetsNull(t.value)
    ensures !crashed ==>
              if old(CanTake(config, parent, src.name)) then
                Appended(config, parent, Copied(old(parent.content.kind), t), made)
              else made == {} && NotAppended(config, parent)
    decreases t, 2
  {
    var kind := src.content.kind;
    RepAggregate(src, t, S, kind);
    ghost var list := t.value.list;
    var added: Node? := AddLike(config, parent, src);
    if added == null {
      return false, {};
    }
    var agg: Node := added;
    crashed, made := CopyLoop(config, agg, kind, src, t, S);
    if !crashed {
      WholeCopy(agg, kind, list, made);
      WholeAppended(config, parent, agg, Copied(parent.content.kind, t), made);
      made := made + {agg};
    }
  }

  twostate lemma WholeAppended(config: Config, new parent: Node, new agg: Node, new t: Setting,
                               new made: set<Node>)
    requires parent in old(config.depth) && fresh(agg) && fresh(made)
    requires config.depth.Keys == old(config.depth.Keys) + {agg} + made
    requires parent.elements == old(parent.elements) + [agg] && Rep(agg, t, made + {agg})
    ensures Appended(config, parent, t, made + {agg})
  {
    assert parent.elements[|old(parent.elements)|] == agg;
  }

  /** The loop over the elements of the source. */
  method CopyLoop(config: Config, agg: Node, kind: Kind, src: Node, ghost t: Setting, ghost S: set<Node>)
    returns (crashed: bool, ghost made: set<Node>)
    requires config.Valid() && agg in config.depth && agg !in S && agg.content == Agg(kind) && agg.elements == []
    requires Rep(src, t, S) && src.content == Agg(kind) && WellNamed(t.value)
    requires |src.elements| == |t.value.list| && t.value == Aggregate(kind, t.value.list)
    modifies config`depth, agg`elements, agg`capacity
    ensures config.Valid() && (crashed <==> ItemsMeetNull(kind, t.value.list))
    ensures !crashed ==>
              && CopiedSoFar(agg, kind, t.value.list, |t.value.list|, made)
              && fresh(made) && agg !in made && config.depth.Keys == old(config.depth.Keys) + made
    decreases t, 1
  {
    var n := |src.elements|;
    var i := 0;
    made := {};
    while i < n
      invariant 0 <= i <= n && config.Valid()
      invariant !ItemsMeetNull(kind, t.value.list[..i])
      invariant CopiedSoFar(agg, kind, t.value.list, i, made)
      invariant fresh(made) && agg !in made
      invariant config.depth.Keys == old(config.depth.Keys) + made
    {
      CopyItemsNext(kind, t.value.list, i);
      crashed, made := CopyNext(config, agg, kind, src, i, t, S, made);
      if crashed {
        NullMetEarlier(kind, t.value.list, i + 1);
        return;
      }
      i := i + 1;
    }
    assert t.value.list[..n] == t.value.list;
    crashed := false;
  }

  /** The new aggregate with all its children makes up the copy. */
  lemma WholeCopy(agg: Node, kind: Kind, list: seq<Setting>, made: set<Node>)
    requires CopiedSoFar(agg, kind, list, |list|, made)
    ensures Rep(agg, Setting(agg.name, Aggregate(kind, CopyItems(kind, list))), made + {agg})
  {
    assert list[..|list|] == list;
    var items := CopyItems(kind, list);
    forall j | 0 <= j < |items| ensures Rep(agg.elements[j], items[j], made + {agg}) {
      RepGrows(agg.elements[j], items[j], made, made + {agg});
    }
  }

  /** `config_setting_copy`: appends a copy of any setting of a configuration, `t` with all that
      is below it, to a group or list of another or the same one, unless the group has a member
      of that name, or the copying crashes.  The new parent is not inside the source. */
  method CopySetting(config: Config, parent: Node, source: Config, src: Node)
    returns (ok: bool, crashed: bool, ghost t: Setting, ghost made: set<Node>)
    requires config.Valid() && parent in config.depth
    requires source.Valid() && src in source.depth && parent !in Below(source, src)
    requires parent.content == Agg(KGroup) ==> src.name.Some?
    modifies config`depth, parent`elements, parent`capacity
    ensures config.Valid() && WellNamed(t.value)
    ensures old(Rep(src, t, Below(source, src))) && Rep(src, t, old(Below(source, src)))
    ensures ok <==> parent.content == Agg(KGroup) || parent.content == Agg(KList)
    ensures crashed <==> ok && old(CanTake(config, parent, src.name)) && MeetsNull(t.value)
    ensures !crashed ==>
              if ok && old(CanTake(config, parent, src.name)) then
                Appended(config, parent, Copied(old(parent.content.kind), t), made)
              else made == {} && NotAppended(config, parent)
  {
    t := TreeBelow(source, src);
    ghost var S := Below(source, src);
    if parent.content != Agg(KGroup) && parent.content != Agg(KList) {
      return false, false, t, {};
    }
    ok := true;
    crashed, made := CopySimple(config, parent, src, t, S);
  }
}
