/** The trees of values that settings stand for: what the pointers of a configuration lead to. */
module SettingTrees {
  import opened Wrappers
  import opened Settings
  import opened SettingHeap

  // ----- the tree of values below a setting -----

  /** The settings below `n`, all of them in `S`, make up the value `t`. */
  ghost predicate Rep(n: Node, t: Setting, S: set<Node>)
    reads S
    decreases t
  {
    && n in S && n.name == t.name
    && match n.content
       case Plain(v) => t.value == v && !v.IsAggregate()
       case Agg(kind) =>
         && t.value.IsAggregate() && t.value == Aggregate(kind, t.value.list)
         && |n.elements| == |t.value.list|
         && forall i | 0 <= i < |n.elements| :: Rep(n.elements[i], t.value.list[i], S)
  }

  lemma {:induction false} RepGrows(n: Node, t: Setting, S: set<Node>, S': set<Node>)
    requires Rep(n, t, S) && S <= S'
    ensures Rep(n, t, S')
    decreases t
  {
    if t.value.IsAggregate() {
      forall i | 0 <= i < |n.elements| ensures Rep(n.elements[i], t.value.list[i], S') {
        RepGrows(n.elements[i], t.value.list[i], S, S');
      }
    }
  }

  function TagOfValue(v: Value): Tag {
    match v
    case GroupV(_) => AggT(KGroup)
    case ArrayV(_) => AggT(KArray)
    case ListV(_) => AggT(KList)
    case _ => TagOf(Plain(v))
  }

  /** The type tag and value of a setting that is no aggregate. */
  lemma RepScalar(n: Node, t: Setting, S: set<Node>)
    requires Rep(n, t, S) && !t.value.IsAggregate()
    ensures n.content == Plain(t.value)
  {
  }

  lemma RepTag(n: Node, t: Setting, S: set<Node>)
    requires Rep(n, t, S)
    ensures TagOf(n.content) == TagOfValue(t.value)
  {
  }

  // ----- names -----

  /** The members of groups have valid names that differ, other elements have none. */
  predicate WellNamed(v: Value)
    decreases v, 1
  {
    match v
    case GroupV(list) => WellNamedItems(KGroup, list)
    case ArrayV(list) => WellNamedItems(KArray, list)
    case ListV(list) => WellNamedItems(KList, list)
    case _ => true
  }

  predicate WellNamedItems(kind: Kind, list: seq<Setting>)
    decreases list, 0
  {
    && (forall i | 0 <= i < |list| :: WellNamedItem(kind, list[i]))
    && (kind.KGroup? ==> forall i, j | 0 <= i < j < |list| :: list[i].name != list[j].name)
  }

  predicate WellNamedItem(kind: Kind, s: Setting)
    decreases s, 2
  {
    && WellNamed(s.value)
    && if kind.KGroup? then s.name.Some? && ValidName(s.name.value) else s.name.None?
  }

  // ----- the tree below any setting of a configuration -----

  /** The setting and all below it. */
  ghost function Below(config: Config, top: Node): set<Node>
    reads config, config.depth.Keys
  {
    set n | n in config.depth && config.Under(n, top)
  }

  lemma {:induction false} UnderTrans(config: Config, n: Node, mid: Node, top: Node)
    requires n in config.depth && mid in config.depth && config.Under(n, mid) && config.Under(mid, top)
    ensures config.Under(n, top)
    decreases config.depth[n]
  {
    if n != mid {
      UnderTrans(config, n.parent, mid, top);
    }
  }

  lemma ElementBelow(config: Config, n: Node, i: nat)
    requires config.Valid() && n in config.depth && i < |n.elements|
    ensures config.Held(n, n.elements[i]) && config.Under(n.elements[i], n)
    ensures Below(config, n.elements[i]) < Below(config, n)
  {
    assert config.Elements(n);
    var c := n.elements[i];
    assert config.Held(n, c) && config.Linked(c);
    forall m | m in Below(config, c) ensures m in Below(config, n) {
      UnderTrans(config, m, c, n);
    }
    if config.Under(n, c) {
      config.UnderIsDeeper(n, c);
    }
    assert n in Below(config, n) && n !in Below(config, c);
  }

  /** Every setting of a configuration has a tree below it, in which the names are in order. */
  lemma {:induction false} TreeBelow(config: Config, n: Node) returns (t: Setting)
    requires config.Valid() && n in config.depth
    ensures Rep(n, t, Below(config, n)) && WellNamed(t.value)
    decreases Below(config, n), |n.elements| + 1
  {
    assert config.Linked(n);
    match n.content
    case Plain(v) => t := Setting(n.name, v);
    case Agg(kind) =>
      var list := ElementsBelow(config, n, |n.elements|);
      t := Setting(n.name, Aggregate(kind, list));
      NamesBelow(config, n, kind, list);
  }

  lemma {:induction false} ElementsBelow(config: Config, n: Node, k: nat) returns (list: seq<Setting>)
    requires config.Valid() && n in config.depth && k <= |n.elements|
    ensures |list| == k
    ensures forall i | 0 <= i < k :: Rep(n.elements[i], list[i], Below(config, n)) && WellNamed(list[i].value)
    decreases Below(config, n), k
  {
    list := [];
    if k > 0 {
      list := ElementsBelow(config, n, k - 1);
      ElementBelow(config, n, k - 1);
      var t := TreeBelow(config, n.elements[k - 1]);
      RepGrows(n.elements[k - 1], t, Below(config, n.elements[k - 1]), Below(config, n));
      list := list + [t];
    }
  }

  lemma NamesBelow(config: Config, n: Node, kind: Kind, list: seq<Setting>)
    requires config.Valid() && n in config.depth && n.content == Agg(kind) && |list| == |n.elements|
    requires forall i | 0 <= i < |list| :: Rep(n.elements[i], list[i], Below(config, n)) && WellNamed(list[i].value)
    ensures WellNamedItems(kind, list)
  {
    assert config.Elements(n) && config.DistinctNames(n);
    forall i | 0 <= i < |list| ensures WellNamedItem(kind, list[i]) {
      assert config.Held(n, n.elements[i]) && Rep(n.elements[i], list[i], Below(config, n));
    }
    forall i, j | 0 <= i < j < |list| && kind.KGroup? ensures list[i].name != list[j].name {
      assert config.Held(n, n.elements[i]) && config.Held(n, n.elements[j]);
      assert Rep(n.elements[i], list[i], Below(config, n)) && Rep(n.elements[j], list[j], Below(config, n));
    }
  }
}
