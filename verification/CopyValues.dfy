/** What a copy of a setting holds, which sources crash the copying, and which are copied as
    they are. */
module CopyValues {
  import opened Wrappers
  import opened Settings
  import opened SettingHeap
  import opened SettingTrees

  /** The type that the library goes by in an array: that of the first element with a value. */
  function FirstTag(list: seq<Setting>): Option<Tag> {
    if list == [] then None
    else
      var first, last := FirstTag(list[..|list| - 1]), list[|list| - 1].value;
      if first.None? && !last.NoneV? then Some(TagOfValue(last)) else first
  }

  /** The elements that an aggregate has leave it open to one of the value's type. */
  predicate Suits(kind: Kind, first: Option<Tag>, v: Value) {
    kind != KArray || first.None? || first.value == TagOfValue(v)
  }

  /** What copying an element of an aggregate of the given kind appends: elements of arrays
      and lists lose their names, those without a type are left out, and so are scalars of
      another type than the first of an array. */
  function CopyItem(kind: Kind, first: Option<Tag>, s: Setting): seq<Setting>
    decreases s, 1
  {
    if kind.KGroup? then [Setting(s.name, CopyValue(s.value))]
    else if s.value.IsAggregate() then [Setting(None, CopyValue(s.value))]
    else if s.value.NoneV? || !Suits(kind, first, s.value) then []
    else [Setting(None, CopyValue(s.value))]
  }

  function CopyItems(kind: Kind, list: seq<Setting>): seq<Setting>
    decreases list, 0
  {
    if list == [] then []
    else
      var before := list[..|list| - 1];
      CopyItems(kind, before) + CopyItem(kind, FirstTag(before), list[|list| - 1])
  }

  function CopyValue(v: Value): Value
    decreases v, 1
  {
    match v
    case GroupV(list) => GroupV(CopyItems(KGroup, list))
    case ArrayV(list) => ArrayV(CopyItems(KArray, list))
    case ListV(list) => ListV(CopyItems(KList, list))
    case _ => v
  }

  /** What the copy of a setting is below a parent of the given kind. */
  function Copied(kind: Kind, s: Setting): Setting {
    Setting(if kind.KGroup? then s.name else None, CopyValue(s.value))
  }

  // ----- sources that crash the copying -----

  /** An integer is refused by an array whose first element has another type: the format is then
      set through the null pointer that `config_setting_set_int_elem` returned. */
  predicate ItemMeetsNull(kind: Kind, first: Option<Tag>, s: Setting)
    decreases s, 1
  {
    MeetsNull(s.value) || ((s.value.IntV? || s.value.Int64V?) && !Suits(kind, first, s.value))
  }

  predicate ItemsMeetNull(kind: Kind, list: seq<Setting>)
    decreases list, 0
  {
    list != []
    && (ItemsMeetNull(kind, list[..|list| - 1])
        || ItemMeetsNull(kind, FirstTag(list[..|list| - 1]), list[|list| - 1]))
  }

  predicate MeetsNull(v: Value)
    decreases v, 1
  {
    match v
    case GroupV(list) => ItemsMeetNull(KGroup, list)
    case ArrayV(list) => ItemsMeetNull(KArray, list)
    case ListV(list) => ItemsMeetNull(KList, list)
    case _ => false
  }

  lemma {:induction false} NullMetEarlier(kind: Kind, list: seq<Setting>, i: nat)
    requires i <= |list| && ItemsMeetNull(kind, list[..i])
    ensures ItemsMeetNull(kind, list)
    decreases |list|
  {
    if i < |list| {
      assert list[..|list| - 1][..i] == list[..i];
      NullMetEarlier(kind, list[..|list| - 1], i);
    } else {
      assert list[..i] == list;
    }
  }

  /** A copied value keeps its type. */
  lemma CopyKeepsType(v: Value)
    ensures SameType(v, CopyValue(v)) && TagOfValue(CopyValue(v)) == TagOfValue(v)
  {
  }

  // ----- when the copy equals the source -----

  /** No element of an array or list has a name or lacks a type, and the scalars in an array
      have the type of its first element. */
  predicate Regular(v: Value)
    decreases v, 1
  {
    match v
    case GroupV(list) => RegularItems(KGroup, list)
    case ArrayV(list) => RegularItems(KArray, list)
    case ListV(list) => RegularItems(KList, list)
    case _ => true
  }

  predicate RegularItems(kind: Kind, list: seq<Setting>)
    decreases list, 0
  {
    forall i | 0 <= i < |list| :: RegularItem(kind, list[0].value, list[i])
  }

  predicate RegularItem(kind: Kind, first: Value, s: Setting)
    decreases s, 2
  {
    && Regular(s.value)
    && (kind.KGroup? ||
        (s.name.None? && !s.value.NoneV?
         && (kind.KArray? && !s.value.IsAggregate() ==> TagOfValue(s.value) == TagOfValue(first))))
  }

  /** The copy equals the source exactly if the source is regular; then no null pointer is met. */
  lemma {:induction false} CopyEqualsSource(v: Value)
    ensures CopyValue(v) == v <==> Regular(v)
    ensures Regular(v) ==> !MeetsNull(v)
    decreases v, 1
  {
    match v
    case GroupV(list) => CopyItemsEqual(KGroup, list);
    case ArrayV(list) => CopyItemsEqual(KArray, list);
    case ListV(list) => CopyItemsEqual(KList, list);
    case _ =>
  }

  lemma {:induction false} CopyItemsNoLonger(kind: Kind, list: seq<Setting>)
    ensures |CopyItems(kind, list)| <= |list|
  {
    if list != [] {
      CopyItemsNoLonger(kind, list[..|list| - 1]);
    }
  }

  lemma {:induction false} CopyItemsEqual(kind: Kind, list: seq<Setting>)
    ensures CopyItems(kind, list) == list <==> RegularItems(kind, list)
    ensures RegularItems(kind, list) ==> !ItemsMeetNull(kind, list)
    decreases list, 0
  {
    if list != [] {
      var before, s := list[..|list| - 1], list[|list| - 1];
      assert list == before + [s];
      CopyItemsEqual(kind, before);
      CopyItemsNoLonger(kind, before);
      CopyItemEqual(kind, FirstTag(before), s);
      SnocEqual(CopyItems(kind, before), CopyItem(kind, FirstTag(before), s), before, s);
      RegularSnoc(kind, before, s);
    }
  }

  lemma SnocEqual(a: seq<Setting>, item: seq<Setting>, b: seq<Setting>, s: Setting)
    requires |a| <= |b| && |item| <= 1
    ensures a + item == b + [s] <==> a == b && item == [s]
  {
    if a + item == b + [s] {
      assert |a| == |b| && |item| == 1;
      assert (a + item)[..|a|] == a && (b + [s])[..|a|] == b;
      assert (a + item)[|a|] == item[0] && (b + [s])[|a|] == s;
    }
  }

  /** The scalars of the list that have the type, in order, as elements. */
  function OfType(list: seq<Setting>, tag: Tag): seq<Setting> {
    if list == [] then []
    else
      var s := list[0];
      (if TagOfValue(s.value) == tag then [Setting(None, s.value)] else []) + OfType(list[1..], tag)
  }

  lemma {:induction false} OfTypeConcat(a: seq<Setting>, b: seq<Setting>, tag: Tag)
    ensures OfType(a + b, tag) == OfType(a, tag) + OfType(b, tag)
  {
    if a == [] {
      assert a + b == b;
    } else {
      assert (a + b)[0] == a[0] && (a + b)[1..] == a[1..] + b;
      OfTypeConcat(a[1..], b, tag);
    }
  }

  lemma OneOfType(s: Setting, tag: Tag)
    ensures OfType([s], tag) == if TagOfValue(s.value) == tag then [Setting(None, s.value)] else []
  {
    assert [s][1..] == [];
  }

  lemma ScalarCopied(first: Option<Tag>, s: Setting)
    requires !s.value.IsAggregate()
    ensures CopyItem(KArray, first, s) ==
            if s.value.NoneV? || !Suits(KArray, first, s.value) then [] else [Setting(None, s.value)]
  {
  }

  lemma {:induction false} ArrayItemsAre(list: seq<Setting>, first: nat)
    requires forall i | 0 <= i < |list| :: !list[i].value.IsAggregate()
    requires first < |list| && !list[first].value.NoneV? && forall i | 0 <= i < first :: list[i].value.NoneV?
    ensures CopyItems(KArray, list) == OfType(list, TagOfValue(list[first].value))
    ensures FirstTag(list) == Some(TagOfValue(list[first].value))
    decreases |list|
  {
    var before, s, tag := list[..|list| - 1], list[|list| - 1], TagOfValue(list[first].value);
    assert list == before + [s];
    OfTypeConcat(before, [s], tag);
    OneOfType(s, tag);
    ScalarCopied(FirstTag(before), s);
    if first < |before| {
      ArrayItemsAre(before, first);
    } else {
      NothingTyped(before, tag);
    }
  }

  /** Of an array of scalars those are copied that have the type of the first with a type. */
  lemma ArrayCopyIs(list: seq<Setting>, first: nat)
    requires forall i | 0 <= i < |list| :: !list[i].value.IsAggregate()
    requires first < |list| && !list[first].value.NoneV? && forall i | 0 <= i < first :: list[i].value.NoneV?
    ensures CopyValue(ArrayV(list)) == ArrayV(OfType(list, TagOfValue(list[first].value)))
  {
    ArrayItemsAre(list, first);
  }

  lemma {:induction false} NothingTyped(list: seq<Setting>, tag: Tag)
    requires (forall i | 0 <= i < |list| :: list[i].value.NoneV?) && tag != NoneT
    ensures CopyItems(KArray, list) == [] && FirstTag(list) == None && OfType(list, tag) == []
  {
    if list != [] {
      var before := list[..|list| - 1];
      NothingTyped(before, tag);
      assert list == before + [list[|list| - 1]];
      OfTypeConcat(before, [list[|list| - 1]], tag);
      assert [list[|list| - 1]][1..] == [];
    }
  }

  /** The element is copied as it is after elements of which the first has type `first`. */
  predicate KeptItem(kind: Kind, first: Option<Tag>, s: Setting) {
    && Regular(s.value)
    && (kind.KGroup? ||
        (s.name.None? && !s.value.NoneV? && (s.value.IsAggregate() || Suits(kind, first, s.value))))
  }

  lemma {:induction false} FirstOfRegular(kind: Kind, list: seq<Setting>)
    requires RegularItems(kind, list) && !kind.KGroup? && list != []
    ensures FirstTag(list) == Some(TagOfValue(list[0].value))
  {
    var before := list[..|list| - 1];
    assert RegularItem(kind, list[0].value, list[|list| - 1]);
    if |list| > 1 {
      assert forall i | 0 <= i < |before| :: before[i] == list[i];
      FirstOfRegular(kind, before);
    }
  }

  lemma RegularSnoc(kind: Kind, list: seq<Setting>, s: Setting)
    ensures RegularItems(kind, list + [s]) <==> RegularItems(kind, list) && KeptItem(kind, FirstTag(list), s)
  {
    var all := list + [s];
    assert all[|list|] == s && forall i | 0 <= i < |list| :: all[i] == list[i];
    if RegularItems(kind, all) {
      assert RegularItem(kind, all[0].value, all[|list|]);
      assert RegularItems(kind, list);
    }
    if RegularItems(kind, list) && !kind.KGroup? && list != [] {
      FirstOfRegular(kind, list);
    }
  }

  lemma {:induction false} CopyItemEqual(kind: Kind, first: Option<Tag>, s: Setting)
    ensures CopyItem(kind, first, s) == [s] <==> KeptItem(kind, first, s)
    ensures KeptItem(kind, first, s) ==> !ItemMeetsNull(kind, first, s)
    decreases s, 2
  {
    CopyEqualsSource(s.value);
    var c := Setting(if kind.KGroup? then s.name else None, CopyValue(s.value));
    assert s == Setting(s.name, s.value);
    assert [c] == [s] <==> c == s by {
      assert [c][0] == c && [s][0] == s;
    }
    if kind.KGroup? || s.value.IsAggregate() || (!s.value.NoneV? && Suits(kind, first, s.value)) {
      assert CopyItem(kind, first, s) == [c];
    }
  }

  lemma CopyPair(kind: Kind, a: Setting, b: Setting)
    ensures FirstTag([a]) == if a.value.NoneV? then None else Some(TagOfValue(a.value))
    ensures CopyItems(kind, [a, b]) == CopyItem(kind, None, a) + CopyItem(kind, FirstTag([a]), b)
    ensures ItemsMeetNull(kind, [a, b]) <==>
            ItemMeetsNull(kind, None, a) || ItemMeetsNull(kind, FirstTag([a]), b)
  {
    assert [a, b][..1] == [a] && [a][..0] == [] && FirstTag([]) == None;
    assert CopyItems(kind, []) == [] && CopyItems(kind, [a]) == CopyItem(kind, None, a);
    assert ItemsMeetNull(kind, [a]) <==> ItemMeetsNull(kind, None, a);
  }

  /** Arrays of mixed types, which `config_setting_add` makes: an integer behind a scalar of
      another type crashes the copying, any other scalar there is not in the copy. */
  lemma MixedArrays(a: Value, b: Value)
    requires !a.IsAggregate() && !a.NoneV? && !b.IsAggregate() && !b.NoneV? && !SameType(a, b)
    ensures var mixed := [Setting(None, a), Setting(None, b)];
      && CopyValue(ArrayV(mixed)) == ArrayV([Setting(None, a)])
      && (MeetsNull(ArrayV(mixed)) <==> b.IntV? || b.Int64V?)
  {
    var first, second := Setting(None, a), Setting(None, b);
    CopyPair(KArray, first, second);
    assert TagOfValue(a) != TagOfValue(b) && !Suits(KArray, Some(TagOfValue(a)), b);
    assert !ItemMeetsNull(KArray, None, first);
    assert ItemMeetsNull(KArray, Some(TagOfValue(a)), second) <==> b.IntV? || b.Int64V?;
  }
}
