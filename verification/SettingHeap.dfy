/** `config_setting_t` objects, linked by parent pointers and lists of elements. */
module SettingHeap {
  import opened Wrappers
  import opened Settings
  import opened Numerals
  import opened ElementLists

  /** A type tag with the scalar value, if any. */
  datatype Content = Plain(value: Value) | Agg(kind: Kind)

  /** The type tags. */
  datatype Tag = NoneT | IntT | Int64T | FloatT | StringT | BoolT | AggT(kind: Kind)

  function TagOf(c: Content): Tag {
    match c
    case Agg(kind) => AggT(kind)
    case Plain(v) =>
      match v
      case IntV(_, _) => IntT
      case Int64V(_, _) => Int64T
      case FloatV(_) => FloatT
      case StringV(_) => StringT
      case BoolV(_) => BoolT
      case _ => NoneT
  }

  /** What zeroed memory holds for a tag. */
  function Blank(tag: Tag): (c: Content)
    ensures TagOf(c) == tag && (c.Plain? ==> !c.value.IsAggregate())
  {
    match tag
    case NoneT => Plain(NoneV)
    case IntT => Plain(IntV(0, false))
    case Int64T => Plain(Int64V(0, false))
    case FloatT => Plain(FloatV(0))
    case StringT => Plain(StringV(""))
    case BoolT => Plain(BoolV(0))
    case AggT(kind) => Agg(kind)
  }

  /** The casts between integers and doubles that automatic conversion makes. */
  datatype Casts = Casts(ofInt: int -> Double, toInt: Double -> int, toInt64: Double -> int)

  /** What a number becomes in a setting of another type, if that takes it: a 32-bit integer takes
      a 64-bit one, and with automatic conversion integers and doubles take each other. */
  function Converted(was: Value, v: Value, casts: Option<Casts>): (r: Option<Value>)
    ensures r.Some? ==> !r.value.IsAggregate() && SameType(was, r.value)
  {
    if was.IntV? && v.Int64V? then Some(IntV(if Int32(v.llval) then v.llval else 0, was.hex))
    else if casts.None? then None
    else if was.FloatV? && v.IntV? then Some(FloatV(casts.value.ofInt(v.ival)))
    else if was.FloatV? && v.Int64V? then Some(FloatV(casts.value.ofInt(v.llval)))
    else if was.IntV? && v.FloatV? then Some(IntV(casts.value.toInt(v.fval), was.hex))
    else if was.Int64V? && v.FloatV? then Some(Int64V(casts.value.toInt64(v.fval), was.hex))
    else None
  }

  /** What the functions `config_setting_set_*` store, or that they refuse: a setting without a
      type takes any value, others one of their type or what can be converted to it. */
  function Stored(c: Content, v: Value, casts: Option<Casts>): Option<Content> {
    match c
    case Agg(_) => None
    case Plain(was) =>
      if was.NoneV? then Some(Plain(WithoutFormat(v)))
      else if was.IntV? && v.IntV? then Some(Plain(IntV(v.ival, was.hex)))
      else if was.Int64V? && v.Int64V? then Some(Plain(Int64V(v.llval, was.hex)))
      else if SameType(was, v) then Some(Plain(v))
      else
        match Converted(was, v, casts)
        case Some(stored) => Some(Plain(stored))
        case None => None
  }

  /** The type of a setting never changes and values of that type are kept, as is the format of
      integers; a 64-bit integer goes into a 32-bit one if it fits and is 0 there otherwise, and
      numbers of other types are taken only where the configuration converts. */
  lemma WhatIsStored(was: Value, v: Value, casts: Option<Casts>)
    requires !was.IsAggregate() && !v.IsAggregate() && !v.NoneV?
    ensures var r := Stored(Plain(was), v, casts);
            && (r.Some? ==> r.value.Plain? && SameType(r.value.value, if was.NoneV? then v else was))
            && (was.NoneV? || SameType(was, v) ==>
                  r == Some(Plain(match v
                                  case IntV(i, _) => IntV(i, was.IntV? && was.hex)
                                  case Int64V(l, _) => Int64V(l, was.Int64V? && was.hex)
                                  case _ => v)))
            && (was.IntV? && v.Int64V? ==>
                  r == Some(Plain(IntV(if -0x8000_0000 <= v.llval <= 0x7FFF_FFFF then v.llval else 0, was.hex))))
            && (was.FloatV? && (v.IntV? || v.Int64V?) && casts.Some? ==>
                  r == Some(Plain(FloatV(casts.value.ofInt(if v.IntV? then v.ival else v.llval)))))
            && (r.Some? <==> was.NoneV? || SameType(was, v) || (was.IntV? && v.Int64V?)
                             || (casts.Some? && was.FloatV? && (v.IntV? || v.Int64V?))
                             || (casts.Some? && v.FloatV? && (was.IntV? || was.Int64V?)))
    ensures Stored(Agg(KGroup), v, casts) == Stored(Agg(KArray), v, casts) == Stored(Agg(KList), v, casts) == None
  {
  }

  class Node {
    var name: Option<string>
    var parent: Node?
    var content: Content
    var elements: seq<Node>       // the contents of value.list
    var capacity: nat             // how many elements are allocated

    constructor (parent: Node?, name: Option<string>, content: Content)
      ensures this.parent == parent && this.name == name && this.content == content
      ensures elements == [] && capacity == 0
    {
      this.parent := parent;
      this.name := name;
      this.content := content;
      elements := [];
      capacity := 0;
    }

    /** There is room for whole chunks. */
    predicate Roomy()
      reads this
    {
      |elements| <= capacity && capacity % CHUNK_SIZE == 0
    }

    /** `__config_list_add`. */
    method ListAdd(setting: Node)
      requires Roomy()
      modifies this`elements, this`capacity
      ensures Roomy() && elements == old(elements) + [setting]
    {
      if |elements| % CHUNK_SIZE == 0 {
        capacity := |elements| + CHUNK_SIZE;
      }
      assert |elements| < capacity;
      elements := elements + [setting];
    }

    /** `__config_list_remove`. */
    method ListRemove(idx: nat) returns (removed: Node)
      requires Roomy() && idx < |elements|
      modifies this`elements
      ensures Roomy() && removed == old(elements)[idx]
      ensures elements == old(elements)[..idx] + old(elements)[idx + 1..]
    {
      removed := elements[idx];
      elements := elements[..idx] + elements[idx + 1..];
    }
  }

  // ----- names -----

  /** The position is at the end of the segment: end of the string or a path separator. */
  predicate SegmentEnds(s: string, i: nat)
    requires i <= |s|
  {
    i == |s| || IsPathToken(s[i])
  }

  lemma SegmentStep(a: string, b: string, i: nat)
    requires i <= |a| && i <= |b|
    ensures SegmentEnds(a, i) ==> Segment(a[i..]) == ""
    ensures !SegmentEnds(a, i) ==> Segment(a[i..]) == [a[i]] + Segment(a[i + 1..])
    ensures SegmentEnds(b, i) ==> Segment(b[i..]) == ""
    ensures !SegmentEnds(b, i) ==> Segment(b[i..]) == [b[i]] + Segment(b[i + 1..])
  {
    if !SegmentEnds(a, i) {
      assert a[i..][1..] == a[i + 1..];
    }
    if !SegmentEnds(b, i) {
      assert b[i..][1..] == b[i + 1..];
    }
  }

  lemma ConsEqual(a: char, s: string, b: char, t: string)
    ensures [a] + s == [b] + t <==> a == b && s == t
  {
    if [a] + s == [b] + t {
      assert ([a] + s)[0] == ([b] + t)[0] && ([a] + s)[1..] == ([b] + t)[1..];
    }
  }

  /** `__config_name_compare`: 0 exactly if the names agree up to the first separator. */
  method NameCompare(a: string, b: string) returns (r: int)
    ensures r == 0 <==> Segment(a) == Segment(b)
  {
    var i := 0;
    while true
      invariant 0 <= i <= |a| && i <= |b|
      invariant Segment(a) == Segment(b) <==> Segment(a[i..]) == Segment(b[i..])
      decreases |a| - i
    {
      SegmentStep(a, b, i);
      var pd, qd := SegmentEnds(a, i), SegmentEnds(b, i);
      if pd && qd {
        return 0;
      } else if pd {
        return -1;
      } else if qd {
        return 1;
      }
      ConsEqual(a[i], Segment(a[i + 1..]), b[i], Segment(b[i + 1..]));
      if a[i] < b[i] {
        return -1;
      } else if a[i] > b[i] {
        return 1;
      }
      i := i + 1;
    }
  }

  /** The setting's name agrees with `name` up to the first separator. */
  predicate Named(n: Node, name: string)
    reads n
  {
    n.name.Some? && Segment(n.name.value) == Segment(name)
  }

  /** `__config_list_search`: the first member that `name` denotes. */
  method ListSearch(list: seq<Node>, name: string) returns (found: Node?, idx: nat)
    ensures found != null ==> idx < |list| && found == list[idx] && Named(found, name)
    ensures found != null ==> forall j | 0 <= j < idx :: !Named(list[j], name)
    ensures found == null ==> forall j | 0 <= j < |list| :: !Named(list[j], name)
  {
    idx := 0;
    while idx < |list|
      invariant idx <= |list|
      invariant forall j | 0 <= j < idx :: !Named(list[j], name)
    {
      var member := list[idx];
      if member.name.Some? {
        var order := NameCompare(name, member.name.value);
        if order == 0 {
          return member, idx;
        }
      }
      idx := idx + 1;
    }
    return null, idx;
  }

  /** `config_setting_get_elem`; `idx` has passed through an unsigned parameter. */
  method GetElem(vector: Node, idx: nat) returns (element: Node?)
    ensures element == if vector.content.Agg? && idx < |vector.elements| then vector.elements[idx] else null
  {
    if !vector.content.Agg? || |vector.elements| <= idx {
      return null;
    }
    return vector.elements[idx];
  }

  /** `config_setting_get_member`. */
  method GetMember(setting: Node, name: string) returns (found: Node?, ghost idx: nat)
    ensures setting.content != Agg(KGroup) ==> found == null
    ensures setting.content == Agg(KGroup) && found != null ==>
              idx < |setting.elements| && found == setting.elements[idx] && Named(found, name)
              && forall j | 0 <= j < idx :: !Named(setting.elements[j], name)
    ensures setting.content == Agg(KGroup) && found == null ==>
              forall j | 0 <= j < |setting.elements| :: !Named(setting.elements[j], name)
  {
    if setting.content != Agg(KGroup) {
      return null, 0;
    }
    found, idx := ListSearch(setting.elements, name);
  }

  class Config {
    const casts: Casts
    var autoConvert: bool         // CONFIG_OPTION_AUTOCONVERT
    var root: Node
    /** All settings of the tree with their distance from the root. */
    ghost var depth: map<Node, nat>

    /** The setting is the root or among the elements of its parent. */
    ghost predicate Linked(n: Node)
      reads this, depth.Keys
    {
      && n in depth && n.Roomy()
      && (n.content.Plain? ==> n.elements == [] && !n.content.value.IsAggregate())
      && (n == root || (n.parent != null && n.parent in depth && depth[n] == depth[n.parent] + 1
                        && n in n.parent.elements))
    }

    /** An element points back to its setting; members of groups have valid names, other
        elements have none. */
    ghost predicate Held(n: Node, c: Node)
      reads this, depth.Keys
      requires n in depth
    {
      && c in depth && c.parent == n
      && if n.content == Agg(KGroup) then c.name.Some? && ValidName(c.name.value) else c.name.None?
    }

    ghost predicate Elements(n: Node)
      reads this, depth.Keys
      requires n in depth
    {
      && (forall i | 0 <= i < |n.elements| :: Held(n, n.elements[i]))
      && (forall i, j | 0 <= i < j < |n.elements| :: n.elements[i] != n.elements[j])
    }

    ghost predicate DistinctNames(n: Node)
      reads this, depth.Keys
      requires n in depth && Elements(n)
    {
      n.content == Agg(KGroup) ==>
        forall i, j | 0 <= i < j < |n.elements| && Held(n, n.elements[i]) && Held(n, n.elements[j]) ::
          n.elements[i].name != n.elements[j].name
    }

    ghost predicate Valid()
      reads this, depth.Keys
    {
      && root in depth && root.parent == null && root.content == Agg(KGroup)
      && (forall n {:trigger Linked(n)} | n in depth :: Linked(n))
      && (forall n {:trigger Elements(n)} | n in depth :: Elements(n))
      && (forall n {:trigger DistinctNames(n)} | n in depth :: DistinctNames(n))
    }

    /** `config_init`. */
    constructor (casts: Casts)
      ensures Valid() && depth.Keys == {root} && root.elements == [] && fresh(root)
      ensures this.casts == casts && !autoConvert && root.name == None && depth[root] == 0
    {
      this.casts, autoConvert := casts, false;
      root := new Node(null, None, Agg(KGroup));
      new;
      depth := map[root := 0];
    }

    /** The tree has got `setting` as the new last element of `parent` and is otherwise as it was. */
    twostate predicate Grown(parent: Node, new setting: Node)
      reads this, depth.Keys
    {
      && parent in old(depth) && setting !in old(depth) && root == old(root)
      && depth == old(depth)[setting := old(depth)[parent] + 1]
      && parent.Roomy() && parent.elements == old(parent.elements) + [setting]
      && unchanged(parent`name, parent`parent, parent`content) && parent.content.Agg?
      && setting.parent == parent && setting.elements == [] && setting.Roomy()
      && (setting.content.Plain? ==> !setting.content.value.IsAggregate())
      && (if parent.content == Agg(KGroup) then
            setting.name.Some? && ValidName(setting.name.value)
            && forall i | 0 <= i < |old(parent.elements)| :: old(parent.elements[i].name) != setting.name
          else setting.name.None?)
      && forall n | n in old(depth) && n != parent :: unchanged(n)
    }

    twostate lemma GrownLinked(parent: Node, new setting: Node, new n: Node)
      requires old(Valid()) && Grown(parent, setting) && n in depth
      ensures Linked(n)
    {
      if n == setting {
        assert setting == parent.elements[|old(parent.elements)|];
      } else {
        assert old(Linked(n));
      }
    }

    twostate lemma GrownElements(parent: Node, new setting: Node, new n: Node)
      requires old(Valid()) && Grown(parent, setting) && n in depth
      ensures Elements(n)
    {
      if n != setting {
        assert old(Elements(n));
        forall i | 0 <= i < |n.elements| ensures Held(n, n.elements[i]) {
          if n.elements[i] != setting {
            assert old(Held(n, n.elements[i]));
          }
        }
      }
    }

    twostate lemma GrownNames(parent: Node, new setting: Node, new n: Node)
      requires old(Valid()) && Grown(parent, setting) && n in depth && Elements(n)
      ensures DistinctNames(n)
    {
      if n != setting {
        assert old(Elements(n)) && old(DistinctNames(n));
        forall i, j | 0 <= i < j < |n.elements| && n.content == Agg(KGroup)
          ensures n.elements[i].name != n.elements[j].name
        {
          assert old(Held(n, n.elements[i]));
          assert n.elements[j] != setting ==> old(Held(n, n.elements[j]));
        }
      }
    }

    twostate lemma GrownValid(parent: Node, new setting: Node)
      requires old(Valid()) && Grown(parent, setting)
      ensures Valid()
    {
      forall n | n in depth ensures Linked(n) {
        GrownLinked(parent, setting, n);
      }
      forall n | n in depth ensures Elements(n) {
        GrownElements(parent, setting, n);
      }
      forall n | n in depth ensures DistinctNames(n) {
        GrownNames(parent, setting, n);
      }
    }

    /** `config_setting_create` below a setting of the tree; the value is stored in the same go. */
    method Create(parent: Node, name: Option<string>, content: Content) returns (setting: Node?)
      requires Valid() && parent in depth && (content.Plain? ==> !content.value.IsAggregate())
      requires if parent.content == Agg(KGroup) then
                 name.Some? && ValidName(name.value)
                 && forall i | 0 <= i < |parent.elements| :: parent.elements[i].name != name
               else name.None?
      modifies this`depth, parent`elements, parent`capacity
      ensures Valid() && (setting == null <==> parent.content.Plain?)
      ensures setting == null ==> depth == old(depth) && parent.elements == old(parent.elements)
      ensures setting != null ==>
                && fresh(setting) && Grown(parent, setting)
                && setting.name == name && setting.content == content
    {
      assert Linked(parent);
      if parent.content.Plain? {
        return null;
      }
      setting := new Node(parent, name, content);
      parent.ListAdd(setting);
      depth := depth[setting := depth[parent] + 1];
      GrownValid(parent, setting);
    }

    /** A member of the group is named like `name` is up to its first separator. */
    ghost predicate HasNamed(n: Node, name: string)
      reads n, n.elements
    {
      exists i | 0 <= i < |n.elements| :: Named(n.elements[i], name)
    }

    /** `config_setting_add` to a group. */
    method AddMember(parent: Node, name: string, tag: Tag) returns (setting: Node?)
      requires Valid() && parent in depth && parent.content == Agg(KGroup)
      modifies this`depth, parent`elements, parent`capacity
      ensures Valid()
      ensures setting == null <==> !ValidName(name) || old(HasNamed(parent, name))
      ensures setting == null ==> depth == old(depth) && parent.elements == old(parent.elements)
      ensures setting != null ==>
                && fresh(setting) && Grown(parent, setting) && setting.content == Blank(tag)
                && setting.name == Some(name)
    {
      if !ValidName(name) {
        return null;
      }
      var taken := IsTaken(parent, name);
      if taken {
        return null;
      }
      setting := Create(parent, Some(name), Blank(tag));
    }

    /** Whether `config_setting_get_member` finds the name. */
    method IsTaken(parent: Node, name: string) returns (taken: bool)
      requires parent.content == Agg(KGroup)
      ensures taken <==> HasNamed(parent, name)
      ensures !taken ==> forall i | 0 <= i < |parent.elements| :: parent.elements[i].name != Some(name)
    {
      var found, idx := GetMember(parent, name);
      taken := found != null;
      if !taken {
        NewMemberName(parent, name);
      }
    }

    /** `config_setting_add`.  A group's member must be given a name. */
    method Add(parent: Node, name: Option<string>, tag: Tag) returns (setting: Node?)
      requires Valid() && parent in depth
      requires parent.content == Agg(KGroup) ==> name.Some?
      modifies this`depth, parent`elements, parent`capacity
      ensures Valid()
      ensures setting == null <==>
                || parent.content.Plain?
                || (parent.content == Agg(KGroup)
                    && (!ValidName(name.value) || old(HasNamed(parent, name.value))))
      ensures setting == null ==> depth == old(depth) && parent.elements == old(parent.elements)
      ensures setting != null ==>
                && fresh(setting) && Grown(parent, setting) && setting.content == Blank(tag)
                && setting.name == if parent.content == Agg(KGroup) then name else None
    {
      if parent.content == Agg(KGroup) {
        setting := AddMember(parent, name.value, tag);
      } else {
        setting := Create(parent, None, Blank(tag));
      }
    }

    lemma NewMemberName(parent: Node, name: string)
      requires forall j | 0 <= j < |parent.elements| :: !Named(parent.elements[j], name)
      ensures forall i | 0 <= i < |parent.elements| :: parent.elements[i].name != Some(name)
    {
      forall i | 0 <= i < |parent.elements| ensures parent.elements[i].name != Some(name) {
        assert !Named(parent.elements[i], name);
      }
    }

    // ----- removal -----

    /** The setting is `top` or lies below it. */
    ghost predicate Under(n: Node, top: Node)
      reads this, depth.Keys
      requires n in depth
      decreases depth[n]
    {
      n == top ||
      (n.parent != null && n.parent in depth && depth[n.parent] < depth[n] && Under(n.parent, top))
    }

    lemma {:induction false} UnderIsDeeper(n: Node, top: Node)
      requires n in depth && top in depth && Under(n, top)
      ensures depth[top] <= depth[n]
      decreases depth[n]
    {
      if n != top {
        UnderIsDeeper(n.parent, top);
      }
    }

    /** The settings that are neither `top` nor below it. */
    ghost function Without(top: Node): map<Node, nat>
      reads this, depth.Keys
    {
      map n | n in depth && !Under(n, top) :: depth[n]
    }

    /** The element at `idx` and all that is below it are gone; all else is as it was. */
    twostate predicate Shrunk(parent: Node, new idx: nat)
      reads *
    {
      && parent in old(depth) && idx < |old(parent.elements)| && root == old(root)
      && depth == old(Without(parent.elements[idx]))
      && parent.elements == old(parent.elements)[..idx] + old(parent.elements)[idx + 1..]
      && parent.Roomy() && unchanged(parent`name, parent`parent, parent`content)
      && forall n | n in old(depth) && n != parent :: unchanged(n)
    }

    /** What becomes of the elements of `parent`. */
    twostate lemma ShrunkIndex(parent: Node, new idx: nat, new i: nat)
      requires Shrunk(parent, idx)
      requires i < |parent.elements|
      ensures i < idx ==> parent.elements[i] == old(parent.elements)[i]
      ensures i >= idx ==>
                i + 1 < |old(parent.elements)| && parent.elements[i] == old(parent.elements)[i + 1]
    {
    }

    /** A remaining setting's remaining elements are not below the removed one. */
    twostate lemma RemainingElement(parent: Node, new idx: nat, new n: Node, new c: Node)
      requires old(Valid()) && Shrunk(parent, idx) && n in depth
      requires c in old(depth) && old(Held(n, c)) && c != old(parent.elements[idx])
      ensures c in depth && Held(n, c)
    {
      assert old(Linked(c));
    }

    twostate lemma ShrunkLinked(parent: Node, new idx: nat, new n: Node)
      requires old(Valid()) && Shrunk(parent, idx) && n in depth
      ensures Linked(n)
    {
      var removed := old(parent.elements[idx]);
      assert old(Linked(n)) && old(Linked(parent));
      if n != root {
        assert !old(Under(n.parent, removed));
        if n.parent == parent {
          assert n != removed;
          var k :| 0 <= k < |old(parent.elements)| && old(parent.elements)[k] == n;
          if k < idx {
            assert parent.elements[k] == n;
          } else {
            assert parent.elements[k - 1] == n;
          }
        }
      }
    }

    /** Where a remaining element was before. */
    twostate lemma FormerPlace(parent: Node, new idx: nat, new n: Node, new i: nat) returns (k: nat)
      requires old(Valid()) && Shrunk(parent, idx) && n in depth && i < |n.elements|
      ensures k < |old(n.elements)| && old(n.elements)[k] == n.elements[i]
      ensures n == parent ==> k != idx
    {
      k := i;
      if n == parent {
        ShrunkIndex(parent, idx, i);
        k := if i < idx then i else i + 1;
      }
    }

    twostate lemma ShrunkHeld(parent: Node, new idx: nat, new n: Node, new i: nat)
      requires old(Valid()) && Shrunk(parent, idx) && n in depth && i < |n.elements|
      ensures Held(n, n.elements[i])
    {
      var k := FormerPlace(parent, idx, n, i);
      assert old(Elements(n));
      assert old(Elements(parent));
      assert old(Held(n, n.elements[k]));
      RemainingElement(parent, idx, n, n.elements[i]);
    }

    twostate lemma ShrunkApart(parent: Node, new idx: nat, new n: Node, new i: nat, new j: nat)
      requires old(Valid()) && Shrunk(parent, idx) && n in depth && i < j < |n.elements|
      ensures n.elements[i] != n.elements[j]
    {
      assert old(Elements(n)) && old(Elements(parent));
      if n == parent {
        ShrunkIndex(parent, idx, i);
        ShrunkIndex(parent, idx, j);
      }
    }

    twostate lemma ShrunkElements(parent: Node, new idx: nat, new n: Node)
      requires old(Valid()) && Shrunk(parent, idx) && n in depth
      ensures Elements(n)
    {
      forall i | 0 <= i < |n.elements| ensures Held(n, n.elements[i]) {
        ShrunkHeld(parent, idx, n, i);
      }
      forall i, j | 0 <= i < j < |n.elements| ensures n.elements[i] != n.elements[j] {
        ShrunkApart(parent, idx, n, i, j);
      }
    }

    twostate lemma ShrunkNames(parent: Node, new idx: nat, new n: Node)
      requires old(Valid()) && Shrunk(parent, idx) && n in depth && Elements(n)
      ensures DistinctNames(n)
    {
      assert old(Elements(n)) && old(DistinctNames(n));
      forall i, j | 0 <= i < j < |n.elements| && n.content == Agg(KGroup)
        ensures n.elements[i].name != n.elements[j].name
      {
        assert Held(n, n.elements[i]) && Held(n, n.elements[j]);
        var i', j' := i, j;
        if n == parent {
          ShrunkIndex(parent, idx, i);
          ShrunkIndex(parent, idx, j);
          i' := if i < idx then i else i + 1;
          j' := if j < idx then j else j + 1;
        }
        assert old(Held(n, n.elements[i'])) && old(Held(n, n.elements[j']));
        assert old(n.elements[i'].name) != old(n.elements[j'].name);
        assert n.elements[i] == old(n.elements[i']) && n.elements[j] == old(n.elements[j']);
        SameName(parent, idx, n, n.elements[i]);
        SameName(parent, idx, n, n.elements[j]);
      }
    }

    twostate lemma SameName(parent: Node, new idx: nat, new n: Node, new c: Node)
      requires Shrunk(parent, idx) && c in old(depth)
      ensures c.name == old(c.name)
    {
      if c != parent {
        assert unchanged(c);
      }
    }

    twostate lemma RootRemains(parent: Node, new idx: nat)
      requires old(Valid()) && Shrunk(parent, idx)
      ensures root in depth && root.parent == null && root.content == Agg(KGroup)
    {
      assert old(Elements(parent));
      assert old(Held(parent, parent.elements[idx]));
    }

    twostate lemma ShrunkValid(parent: Node, new idx: nat)
      requires old(Valid()) && Shrunk(parent, idx)
      ensures Valid()
    {
      RootRemains(parent, idx);
      forall n | n in depth ensures Linked(n) {
        ShrunkLinked(parent, idx, n);
      }
      forall n | n in depth ensures Elements(n) {
        ShrunkElements(parent, idx, n);
      }
      forall n | n in depth ensures DistinctNames(n) {
        ShrunkNames(parent, idx, n);
      }
    }

    /** Takes an element out of its list; `__config_setting_destroy` then frees what is below. */
    method TakeOut(parent: Node, idx: nat)
      requires Valid() && parent in depth && idx < |parent.elements|
      modifies this`depth, parent`elements
      ensures Valid() && Shrunk(parent, idx)
    {
      assert Linked(parent);
      ghost var removed := parent.elements[idx];
      ghost var remaining := Without(removed);
      var gone := parent.ListRemove(idx);
      depth := remaining;
      ShrunkValid(parent, idx);
    }

    /** `config_setting_remove`: the name ends at its first separator. */
    method Remove(parent: Node, name: string) returns (ok: bool, ghost idx: nat)
      requires Valid() && parent in depth
      modifies this`depth, parent`elements
      ensures Valid() && (ok <==> parent.content == Agg(KGroup) && old(HasNamed(parent, name)))
      ensures ok ==> Shrunk(parent, idx) && old(Named(parent.elements[idx], name))
      ensures !ok ==> depth == old(depth) && parent.elements == old(parent.elements)
    {
      if parent.content != Agg(KGroup) {
        return false, 0;
      }
      var found, i := ListSearch(parent.elements, name);
      if found == null {
        return false, 0;
      }
      TakeOut(parent, i);
      return true, i;
    }

    /** `config_setting_remove_elem`. */
    method RemoveElem(parent: Node, idx: nat) returns (ok: bool)
      requires Valid() && parent in depth
      modifies this`depth, parent`elements
      ensures Valid() && (ok <==> parent.content.Agg? && idx < |old(parent.elements)|)
      ensures ok ==> Shrunk(parent, idx)
      ensures !ok ==> depth == old(depth) && parent.elements == old(parent.elements)
    {
      assert Linked(parent);
      if !parent.content.Agg? || |parent.elements| <= idx {
        return false;
      }
      TakeOut(parent, idx);
      return true;
    }

    // ----- values -----

    /** One scalar setting has got other content; all else is as it was. */
    twostate predicate Changed(setting: Node)
      reads *
    {
      && setting in old(depth) && depth == old(depth) && root == old(root) && old(setting.content.Plain?)
      && (setting.content.Plain? ==> !setting.content.value.IsAggregate())
      && unchanged(setting`name, setting`parent, setting`elements, setting`capacity)
      && forall n | n in old(depth) && n != setting :: unchanged(n)
    }

    twostate lemma ChangedElements(setting: Node, new n: Node)
      requires old(Valid()) && Changed(setting) && n in depth
      ensures Linked(n) && Elements(n)
    {
      assert old(Linked(n)) && old(Elements(n));
      assert old(Linked(setting));
      forall i | 0 <= i < |n.elements| ensures Held(n, n.elements[i]) {
        assert old(Held(n, n.elements[i]));
      }
    }

    twostate lemma ChangedNames(setting: Node, new n: Node)
      requires old(Valid()) && Changed(setting) && n in depth && Elements(n)
      ensures DistinctNames(n)
    {
      assert old(Linked(setting)) && old(Elements(n)) && old(DistinctNames(n));
      forall i, j | 0 <= i < j < |n.elements| && n.content == Agg(KGroup)
        ensures n.elements[i].name != n.elements[j].name
      {
        assert old(Held(n, n.elements[i])) && old(Held(n, n.elements[j]));
      }
    }

    twostate lemma ChangedValid(setting: Node)
      requires old(Valid()) && Changed(setting)
      ensures Valid()
    {
      forall n | n in depth ensures Linked(n) && Elements(n) {
        ChangedElements(setting, n);
      }
      forall n | n in depth ensures DistinctNames(n) {
        ChangedNames(setting, n);
      }
      assert old(Linked(setting));
    }

    twostate lemma SameTreeValid()
      requires old(Valid()) && unchanged(`root, `depth) && forall n | n in depth :: unchanged(n)
      ensures Valid()
    {
      forall n | n in depth ensures Linked(n) && Elements(n) && DistinctNames(n) {
        assert old(Linked(n)) && old(Elements(n)) && old(DistinctNames(n));
        forall i | 0 <= i < |n.elements| ensures Held(n, n.elements[i]) {
          assert old(Held(n, n.elements[i]));
        }
        forall i, j | 0 <= i < j < |n.elements| && n.content == Agg(KGroup)
          ensures n.elements[i].name != n.elements[j].name
        {
          assert old(Held(n, n.elements[i])) && old(Held(n, n.elements[j]));
        }
      }
    }

    /** `config_set_auto_convert`. */
    method SetAutoConvert(flag: bool)
      requires Valid()
      modifies `autoConvert
      ensures Valid() && autoConvert == flag
    {
      autoConvert := flag;
      SameTreeValid();
    }

    /** The casts that are made, if any. */
    function Conversion(): Option<Casts>
      reads `autoConvert
    {
      if autoConvert then Some(casts) else None
    }

    /** `config_setting_set_int` and its relatives. */
    method SetScalar(setting: Node, v: Value) returns (ok: bool)
      requires Valid() && setting in depth && !v.IsAggregate()
      modifies setting`content
      ensures Valid()
      ensures match old(Stored(setting.content, v, Conversion()))
              case Some(c) => ok && setting.content == c
              case None => !ok && setting.content == old(setting.content)
    {
      assert Linked(setting);
      match setting.content {
        case Agg(_) => return false;
        case Plain(was) =>
          if was.NoneV? {
            setting.content := Plain(WithoutFormat(v));
          } else if was.IntV? && v.IntV? {
            setting.content := Plain(IntV(v.ival, was.hex));
          } else if was.Int64V? && v.Int64V? {
            setting.content := Plain(Int64V(v.llval, was.hex));
          } else if SameType(was, v) {
            setting.content := Plain(v);
          } else {
            var stored := Converted(was, v, Conversion());
            if stored.None? {
              return false;
            }
            setting.content := Plain(stored.value);
          }
      }
      ChangedValid(setting);
      return true;
    }

    /** A setting without a value becomes an empty aggregate. */
    method SetType(setting: Node, kind: Kind)
      requires Valid() && setting in depth && setting.content == Plain(NoneV)
      modifies setting`content
      ensures Valid() && setting.content == Agg(kind)
    {
      setting.content := Agg(kind);
      ChangedValid(setting);
    }

    /** `config_setting_set_format`. */
    method SetFormat(setting: Node, hex: bool) returns (ok: bool)
      requires Valid() && setting in depth
      modifies setting`content
      ensures Valid()
      ensures ok <==>
              old(setting.content).Plain? && (old(setting.content).value.IntV? || old(setting.content).value.Int64V?)
      ensures !ok ==> setting.content == old(setting.content)
      ensures ok ==> setting.content == Plain(old(setting.content).value.(hex := hex))
    {
      if setting.content.Plain? && (setting.content.value.IntV? || setting.content.value.Int64V?) {
        setting.content := Plain(setting.content.value.(hex := hex));
        ChangedValid(setting);
        return true;
      }
      return false;
    }

    /** `config_setting_set_*_elem` with a negative index appends an element, unless the array's
        first element has another type. */
    method AppendElem(vector: Node, v: Value) returns (element: Node?)
      requires Valid() && vector in depth && !v.IsAggregate() && !v.NoneV?
      modifies this`depth, vector`elements, vector`capacity
      ensures Valid()
      ensures element != null <==>
                || old(vector.content) == Agg(KList)
                || (old(vector.content) == Agg(KArray) && (old(vector.elements) == []
                      || old(TagOf(vector.elements[0].content)) == TagOf(Plain(v))))
      ensures element != null ==>
                && fresh(element) && Grown(vector, element)
                && element.name == None && element.content == Plain(WithoutFormat(v))
      ensures element == null ==> depth == old(depth) && vector.elements == old(vector.elements)
    {
      if vector.content != Agg(KArray) && vector.content != Agg(KList) {
        return null;
      }
      if vector.content == Agg(KArray) && vector.elements != []
         && TagOf(vector.elements[0].content) != TagOf(Plain(v))
      {
        return null;
      }
      element := Create(vector, None, Plain(WithoutFormat(v)));
    }

    /** `config_setting_set_*_elem` with an index from 0 gives the element there the value. */
    method ReplaceElem(vector: Node, idx: nat, v: Value) returns (element: Node?)
      requires Valid() && vector in depth && !v.IsAggregate() && !v.NoneV?
      modifies if idx < |vector.elements| then {vector.elements[idx]} else {}
      ensures Valid() && vector.elements == old(vector.elements)
      ensures element != null <==> old(Replaced(vector, idx, v)).Some?
      ensures element != null ==>
                idx < |vector.elements| && element == vector.elements[idx]
                && element.content == old(Replaced(vector, idx, v)).value
    {
      assert Linked(vector) && Elements(vector);
      if vector.content != Agg(KArray) && vector.content != Agg(KList) {
        return null;
      }
      element := GetElem(vector, idx);
      if element == null {
        return null;
      }
      assert Held(vector, element);
      ghost var stored := Stored(element.content, v, Conversion());
      assert stored == Replaced(vector, idx, v);
      var ok := SetScalar(element, v);
      if !ok {
        return null;
      }
    }

    /** What the element at an index of an array or list holds once it has been given the value,
        if it takes it. */
    ghost function Replaced(vector: Node, idx: nat, v: Value): Option<Content>
      reads this, vector, vector.elements
    {
      if (vector.content != Agg(KList) && vector.content != Agg(KArray)) || |vector.elements| <= idx then None
      else Stored(vector.elements[idx].content, v, Conversion())
    }

    // ----- places and paths -----

    /** `config_setting_index`. */
    method Index(setting: Node) returns (i: int)
      requires Valid() && setting in depth
      ensures setting == root <==> i == -1
      ensures setting != root ==>
                setting.parent != null && 0 <= i < |setting.parent.elements| && setting.parent.elements[i] == setting
    {
      assert Linked(setting);
      if setting.parent == null {
        return -1;
      }
      i := 0;
      while i < |setting.parent.elements|
        invariant 0 <= i <= |setting.parent.elements|
        invariant forall k | 0 <= k < i :: setting.parent.elements[k] != setting
      {
        if setting.parent.elements[i] == setting {
          return;
        }
        i := i + 1;
      }
      assert false;
    }

    /** The place of an element is the index that gives it. */
    lemma IndexInvertsElem(n: Node, i: nat, j: nat)
      requires Valid() && n in depth && i < |n.elements| && j < |n.elements|
      ensures n.elements[i].parent == n && n.elements[i] in depth && n.elements[i] != root
      ensures n.elements[i] == n.elements[j] <==> i == j
    {
      assert Elements(n);
      assert Held(n, n.elements[i]);
    }

    /** No two members of a group answer to one name, not even up to a separator. */
    lemma NamesAreUnique(n: Node, name: string, i: nat, j: nat)
      requires Valid() && n in depth && n.content == Agg(KGroup)
      requires i < |n.elements| && j < |n.elements|
      requires Named(n.elements[i], name) && Named(n.elements[j], name)
      ensures i == j
    {
      assert Elements(n) && DistinctNames(n);
      assert Held(n, n.elements[i]) && Held(n, n.elements[j]);
      SegmentOfValidName(n.elements[i].name.value);
      SegmentOfValidName(n.elements[j].name.value);
      assert n.elements[i].name == n.elements[j].name;
    }

    /** The list of an array of settings always has room: the next append of an element needs
        no more than the chunk that appending allocates. */
    lemma CapacitySuffices(n: Node)
      requires Valid() && n in depth
      ensures |n.elements| <= n.capacity
      ensures |n.elements| % CHUNK_SIZE != 0 ==> |n.elements| < n.capacity
    {
      assert Linked(n);
    }
  }

  /** A value as stored in a new element of its type: the format is the default one. */
  function WithoutFormat(v: Value): Value {
    match v
    case IntV(i, _) => IntV(i, false)
    case Int64V(l, _) => Int64V(l, false)
    case _ => v
  }
}
