/** Settings that were read from a text are copied without a crash, and the copy is equal. */
module CopiesOfReadTrees {
  import Floats
  import opened Wrappers
  import opened Settings
  import opened TreeText
  import opened SettingTrees
  import opened CopyValues
  import ReadTrees
  import RoundTrip

  lemma {:induction false} GoodValueCopies(v: Value)
    requires GoodValue(v)
    ensures WellNamed(v) && Regular(v)
    decreases v, 1
  {
    if v.IsAggregate() {
      var kind := if v.GroupV? then KGroup else if v.ArrayV? then KArray else KList;
      assert v == Aggregate(kind, v.list);
      GoodItemsCopy(kind, v.list);
    }
  }

  lemma {:induction false} GoodItemsCopy(kind: Kind, list: seq<Setting>)
    requires ReadTrees.GoodItems(kind, list)
    ensures WellNamedItems(kind, list) && RegularItems(kind, list)
    decreases list, 0
  {
    forall i | 0 <= i < |list| ensures WellNamedItem(kind, list[i]) && RegularItem(kind, list[0].value, list[i]) {
      GoodItemCopies(kind, list, i);
    }
  }

  lemma {:induction false} GoodItemCopies(kind: Kind, list: seq<Setting>, i: nat)
    requires ReadTrees.GoodItems(kind, list) && i < |list|
    ensures WellNamedItem(kind, list[i]) && RegularItem(kind, list[0].value, list[i])
    decreases list[i], 2
  {
    if kind.KArray? {
      assert GoodScalar(list[i].value);
    }
    GoodValueCopies(list[i].value);
  }

  /** Whatever text a tree was read from, copying the tree meets no null pointer and gives the
      same tree. */
  lemma ReadTreesCopyEqual(libc: Floats.Libc, text: string, i: nat)
    requires RoundTrip.Read(libc, text).Ok? && i < |RoundTrip.Read(libc, text).value|
    ensures var s := RoundTrip.Read(libc, text).value[i];
      && WellNamed(s.value) && !MeetsNull(s.value)
      && Copied(KGroup, s) == s && Copied(KList, s) == Setting(None, s.value)
  {
    RoundTrip.ReadIsGood(libc, text);
    var list := RoundTrip.Read(libc, text).value;
    GoodItemCopies(KGroup, list, i);
    CopyEqualsSource(list[i].value);
    assert list[i] == Setting(list[i].name, list[i].value);
  }
}
