/** `config_lookup_from`: finding a setting by a dotted path. */
module SettingPaths {
  import opened Wrappers
  import opened Settings
  import opened Numerals
  import opened SettingHeap

  // ----- atoi -----

  predicate IsSpace(c: char) { c == ' ' || '\t' <= c <= '\r' }

  /** The digits at the start of the string. */
  function DigitRun(s: string): string {
    if s == "" || !IsDigit(s[0]) then "" else [s[0]] + DigitRun(s[1..])
  }

  /** `atoi`, which skips white space, takes a sign and stops at the first non-digit. */
  function AtoiOf(s: string): int {
    if s != "" && IsSpace(s[0]) then AtoiOf(s[1..])
    else
      var n: int := ValueOf(DigitRun(DropSign(s)), 10);
      ToInt32(Clamp(if s != "" && s[0] == '-' then -n else n, -TWO63, TWO63 - 1))
  }

  lemma {:induction false} DigitRunOfNumeral(s: string, rest: string)
    requires (forall i | 0 <= i < |s| :: IsDigit(s[i])) && (rest == "" || !IsDigit(rest[0]))
    ensures DigitRun(s + rest) == s
  {
    if s == "" {
      assert s + rest == rest;
    } else {
      assert (s + rest)[1..] == s[1..] + rest;
      DigitRunOfNumeral(s[1..], rest);
    }
  }

  /** Reading an index that a path holds between brackets. */
  lemma AtoiOfDecimal(i: nat, rest: string)
    requires i < TWO31 && rest != "" && !IsDigit(rest[0])
    ensures AtoiOf(Decimal(i) + rest) == i
  {
    NumeralRoundTrip(i, 10);
    var s := Numeral(i, 10);
    assert IsDigit(s[0]) && (s + rest)[0] == s[0];
    DigitRunOfNumeral(s, rest);
  }

  // ----- the path as the loop walks along it -----

  /** From the first character that is no separator. */
  function SkipSeparators(p: string): (r: string)
    ensures |r| <= |p| && (r != "" ==> !IsPathToken(r[0]))
  {
    if p != "" && IsPathToken(p[0]) then SkipSeparators(p[1..]) else p
  }

  /** From the next separator, or the end. */
  function SkipSegment(p: string): (r: string)
    ensures |r| <= |p| && (p != "" && !IsPathToken(p[0]) ==> |r| < |p|)
  {
    if p != "" && !IsPathToken(p[0]) then SkipSegment(p[1..]) else p
  }

  lemma {:induction false} SkipSegmentStops(s: string, rest: string)
    requires (forall i | 0 <= i < |s| :: !IsPathToken(s[i])) && (rest == "" || IsPathToken(rest[0]))
    ensures SkipSegment(s + rest) == rest
  {
    if s == "" {
      assert s + rest == rest;
    } else {
      assert (s + rest)[1..] == s[1..] + rest;
      SkipSegmentStops(s[1..], rest);
    }
  }

  lemma {:induction false} SegmentBeforeSeparator(s: string, rest: string)
    requires (forall i | 0 <= i < |s| :: !IsPathToken(s[i])) && (rest == "" || IsPathToken(rest[0]))
    ensures Segment(s + rest) == s
  {
    if s == "" {
      assert s + rest == rest;
    } else {
      assert (s + rest)[1..] == s[1..] + rest;
      SegmentBeforeSeparator(s[1..], rest);
    }
  }

  /** The first member that the path's first segment denotes, from place `i` on. */
  ghost function FirstNamed(list: seq<Node>, name: string, i: nat): Node?
    requires i <= |list|
    reads list
    decreases |list| - i
  {
    if i == |list| then null
    else if Named(list[i], name) then list[i]
    else FirstNamed(list, name, i + 1)
  }

  /** One segment: an index in brackets for any aggregate, otherwise the name of a member. */
  ghost function Hop(setting: Node, p: string): Node?
    requires p != ""
    reads setting, setting.elements
  {
    if p[0] == '[' then
      var idx := AtoiOf(p[1..]) % TWO32;      // passed as unsigned
      if setting.content.Agg? && idx < |setting.elements| then setting.elements[idx] else null
    else if setting.content == Agg(KGroup) then FirstNamed(setting.elements, p, 0)
    else null
  }

  /** Where a path leads.  A path that ends in an opening bracket and finds nothing there
      counts as used up. */
  ghost function Lookup(config: Config, setting: Node, path: string): Node?
    requires config.Valid() && setting in config.depth
    reads config, config.depth.Keys
    decreases |path|
  {
    var p := SkipSeparators(path);
    ElementsStay(config, setting);
    if p == "" then setting
    else
      var found := Hop(setting, p);
      var rest := if p[0] == '[' then p[1..] else p;
      if found == null then (if rest == "" then setting else null)
      else
        assert found in config.depth by { HopStays(config, setting, p); }
        Lookup(config, found, SkipSegment(rest))
  }

  lemma {:induction false} FirstNamedIsIn(list: seq<Node>, name: string, i: nat)
    requires i <= |list|
    ensures FirstNamed(list, name, i) != null ==> FirstNamed(list, name, i) in list
    decreases |list| - i
  {
    if i < |list| {
      FirstNamedIsIn(list, name, i + 1);
    }
  }

  lemma ElementsStay(config: Config, n: Node)
    requires config.Valid() && n in config.depth
    ensures forall c | c in n.elements :: c in config.depth
  {
    assert config.Elements(n);
    forall c: Node | c in n.elements ensures c in config.depth {
      assert config.Held(n, c);
    }
  }

  lemma HopStays(config: Config, setting: Node, p: string)
    requires config.Valid() && setting in config.depth && p != ""
    ensures Hop(setting, p) != null ==> Hop(setting, p) in config.depth
  {
    FirstNamedIsIn(setting.elements, p, 0);
    ElementsStay(config, setting);
  }

  lemma {:induction false} FirstNamedIs(list: seq<Node>, name: string, i: nat, k: nat)
    requires i <= k < |list| && Named(list[k], name)
    requires forall j | i <= j < k :: !Named(list[j], name)
    ensures FirstNamed(list, name, i) == list[k]
    decreases k - i
  {
    if i < k {
      FirstNamedIs(list, name, i + 1, k);
    }
  }

  lemma {:induction false} NoneNamed(list: seq<Node>, name: string, i: nat)
    requires i <= |list| && forall j | i <= j < |list| :: !Named(list[j], name)
    ensures FirstNamed(list, name, i) == null
    decreases |list| - i
  {
    if i < |list| {
      NoneNamed(list, name, i + 1);
    }
  }

  // ----- the loop -----

  /** One segment of the path, as the loop handles it. */
  method Find(setting: Node, p: string) returns (found: Node?)
    requires p != ""
    ensures found == Hop(setting, p)
  {
    if p[0] == '[' {
      found := GetElem(setting, AtoiOf(p[1..]) % TWO32);
    } else {
      ghost var idx;
      found, idx := GetMember(setting, p);
      if setting.content == Agg(KGroup) {
        if found != null {
          FirstNamedIs(setting.elements, p, 0, idx);
        } else {
          NoneNamed(setting.elements, p, 0);
        }
      }
    }
  }

  /** `config_lookup_from`: the loop ends and finds what `Lookup` says. */
  method LookupFrom(config: Config, setting: Node, path: string) returns (result: Node?)
    requires config.Valid() && setting in config.depth
    ensures result == Lookup(config, setting, path)
  {
    var at := setting;
    var p := path;
    while true
      invariant at in config.depth && Lookup(config, at, p) == Lookup(config, setting, path)
      decreases |p|
    {
      p := PastSeparators(p);
      if p == "" {
        return at;
      }
      var found := Find(at, p);
      HopStays(config, at, p);
      if p[0] == '[' {
        p := p[1..];
      }
      if found == null {
        return if p == "" then at else null;
      }
      at := found;
      p := PastSegment(p);
    }
  }

  method PastSeparators(path: string) returns (p: string)
    ensures p == SkipSeparators(path)
  {
    p := path;
    while p != "" && IsPathToken(p[0])
      invariant SkipSeparators(p) == SkipSeparators(path)
      decreases |p|
    {
      p := p[1..];
    }
  }

  method PastSegment(path: string) returns (p: string)
    ensures p == SkipSegment(path)
  {
    p := path;
    while p != "" && !IsPathToken(p[0])
      invariant SkipSegment(p) == SkipSegment(path)
      decreases |p|
    {
      p := p[1..];
    }
  }

  // ----- every setting has a path, and the path leads to it -----

  /** The places to take from `n` on are there. */
  ghost predicate Leads(config: Config, n: Node, route: seq<nat>)
    requires config.Valid()
    reads config, config.depth.Keys
    decreases |route|
  {
    n in config.depth &&
    (route == [] || (route[0] < |n.elements| && Leads(config, n.elements[route[0]], route[1..])))
  }

  ghost function Target(config: Config, n: Node, route: seq<nat>): Node
    requires config.Valid() && Leads(config, n, route)
    reads config, config.depth.Keys
    decreases |route|
  {
    if route == [] then n else Target(config, n.elements[route[0]], route[1..])
  }

  /** How a path names the element at place `i`. */
  ghost function StepName(n: Node, i: nat): string
    requires i < |n.elements|
    reads n, n.elements
  {
    if n.content == Agg(KGroup) && n.elements[i].name.Some? then n.elements[i].name.value
    else "[" + Decimal(i) + "]"
  }

  /** The path with the given separator. */
  ghost function PathOf(config: Config, n: Node, route: seq<nat>, sep: char): string
    requires config.Valid() && Leads(config, n, route)
    reads config, config.depth.Keys
    decreases |route|
  {
    if route == [] then ""
    else
      ElementsStay(config, n);
      StepName(n, route[0]) + (if |route| == 1 then "" else [sep])
      + PathOf(config, n.elements[route[0]], route[1..], sep)
  }

  lemma NameHop(config: Config, n: Node, i: nat, rest: string)
    requires config.Valid() && n in config.depth && i < |n.elements| && n.content == Agg(KGroup)
    requires rest == "" || IsPathToken(rest[0])
    ensures n.elements[i].name.Some?
    ensures var s := n.elements[i].name.value;
            && s != "" && s[0] != '[' && (forall k | 0 <= k < |s| :: !IsPathToken(s[k]))
            && Hop(n, s + rest) == n.elements[i]
  {
    assert config.Elements(n);
    assert config.Held(n, n.elements[i]);
    var s := n.elements[i].name.value;
    assert forall k | 0 <= k < |s| :: IsNameChar(s[k]);
    SegmentBeforeSeparator(s, rest);
    SegmentBeforeSeparator(s, "");
    assert s + "" == s && (s + rest)[0] == s[0];
    assert Named(n.elements[i], s + rest);
    forall j | 0 <= j < i ensures !Named(n.elements[j], s + rest) {
      if Named(n.elements[j], s + rest) {
        config.NamesAreUnique(n, s + rest, i, j);
      }
    }
    FirstNamedIs(n.elements, s + rest, 0, i);
  }

  lemma IndexHop(n: Node, i: nat, rest: string)
    requires i < |n.elements| && n.content.Agg? && i < TWO31
    ensures Hop(n, "[" + Decimal(i) + "]" + rest) == n.elements[i]
  {
    var p := "[" + Decimal(i) + "]" + rest;
    assert p[1..] == Decimal(i) + ("]" + rest);
    AtoiOfDecimal(i, "]" + rest);
    HopByIndex(n, p, i);
  }

  lemma HopByIndex(n: Node, p: string, i: nat)
    requires p != "" && p[0] == '[' && AtoiOf(p[1..]) == i && i < TWO31
    requires i < |n.elements| && n.content.Agg?
    ensures Hop(n, p) == n.elements[i]
  {
  }

  lemma IndexHasNoSeparator(i: nat)
    ensures forall k | 0 <= k < |Decimal(i) + "]"| :: !IsPathToken((Decimal(i) + "]")[k])
  {
    NumeralRoundTrip(i, 10);
    var s := Numeral(i, 10);
    assert forall k | 0 <= k < |s| :: IsBaseDigit(s[k], 10);
  }

  /** A separator in front of a path makes no difference. */
  lemma SeparatorSkipped(config: Config, n: Node, sep: char, path: string)
    requires config.Valid() && n in config.depth && IsPathToken(sep)
    ensures Lookup(config, n, [sep] + path) == Lookup(config, n, path)
  {
    assert ([sep] + path)[1..] == path;
  }

  /** One round of the loop. */
  lemma OneHop(config: Config, n: Node, p: string, rest: string)
    requires config.Valid() && n in config.depth && p != "" && !IsPathToken(p[0])
    requires Hop(n, p) != null && rest == SkipSegment(if p[0] == '[' then p[1..] else p)
    ensures Hop(n, p) in config.depth
    ensures Lookup(config, n, p) == Lookup(config, Hop(n, p), rest)
  {
    HopStays(config, n, p);
    assert SkipSeparators(p) == p;
  }

  lemma NameStep(config: Config, n: Node, i: nat, rest: string)
    requires config.Valid() && n in config.depth && i < |n.elements| && n.content == Agg(KGroup)
    requires rest == "" || IsPathToken(rest[0])
    ensures n.elements[i] in config.depth
    ensures Lookup(config, n, StepName(n, i) + rest) == Lookup(config, n.elements[i], rest)
  {
    NameHop(config, n, i, rest);
    var s := StepName(n, i);
    assert (s + rest)[0] == s[0];
    SkipSegmentStops(s, rest);
    OneHop(config, n, s + rest, rest);
  }

  lemma IndexStep(config: Config, n: Node, i: nat, rest: string)
    requires config.Valid() && n in config.depth && i < |n.elements| && i < TWO31 && n.content.Agg?
    requires rest == "" || IsPathToken(rest[0])
    ensures n.elements[i] in config.depth
    ensures Lookup(config, n, "[" + Decimal(i) + "]" + rest) == Lookup(config, n.elements[i], rest)
  {
    IndexHop(n, i, rest);
    var s, p := Decimal(i) + "]", "[" + Decimal(i) + "]" + rest;
    IndexHasNoSeparator(i);
    assert p[1..] == s + rest && p[0] == '[';
    SkipSegmentStops(s, rest);
    OneHop(config, n, p, rest);
  }

  /** The first step of a path, and what is left of it then. */
  lemma StepHop(config: Config, n: Node, i: nat, rest: string)
    requires config.Valid() && n in config.depth && i < |n.elements| && i < TWO31
    requires rest == "" || IsPathToken(rest[0])
    ensures n.elements[i] in config.depth
    ensures Lookup(config, n, StepName(n, i) + rest) == Lookup(config, n.elements[i], rest)
  {
    assert config.Linked(n);
    if n.content == Agg(KGroup) {
      NameStep(config, n, i, rest);
    } else {
      IndexStep(config, n, i, rest);
    }
  }

  /** Looking up the path of a setting finds that setting. */
  lemma {:induction false} LookupFindsPath(config: Config, n: Node, route: seq<nat>, sep: char)
    requires config.Valid() && Leads(config, n, route) && IsPathToken(sep)
    requires forall k | 0 <= k < |route| :: route[k] < TWO31
    ensures Lookup(config, n, PathOf(config, n, route, sep)) == Target(config, n, route)
    decreases |route|
  {
    if route != [] {
      var child, tail := n.elements[route[0]], route[1..];
      var path := PathOf(config, child, tail, sep);
      LookupFindsPath(config, child, tail, sep);
      if |route| == 1 {
        StepHop(config, n, route[0], "");
        assert StepName(n, route[0]) + "" + path == StepName(n, route[0]) + "";
      } else {
        StepHop(config, n, route[0], [sep] + path);
        SeparatorSkipped(config, child, sep, path);
        assert StepName(n, route[0]) + [sep] + path == StepName(n, route[0]) + ([sep] + path);
      }
    }
  }

  lemma {:induction false} RouteSnoc(config: Config, n: Node, route: seq<nat>, i: nat)
    requires config.Valid() && Leads(config, n, route) && i < |Target(config, n, route).elements|
    ensures Leads(config, n, route + [i])
    ensures Target(config, n, route + [i]) == Target(config, n, route).elements[i]
    decreases |route|
  {
    if route == [] {
      assert config.Elements(n);
      assert config.Held(n, n.elements[i]);
      assert route + [i] == [i] && [i][1..] == [];
    } else {
      assert (route + [i])[1..] == route[1..] + [i];
      RouteSnoc(config, n.elements[route[0]], route[1..], i);
    }
  }

  /** Every setting can be reached from the root. */
  lemma {:induction false} RouteTo(config: Config, n: Node) returns (route: seq<nat>)
    requires config.Valid() && n in config.depth
    requires forall m | m in config.depth :: |m.elements| <= TWO31
    ensures Leads(config, config.root, route) && Target(config, config.root, route) == n
    ensures forall k | 0 <= k < |route| :: route[k] < TWO31
    decreases config.depth[n]
  {
    if n == config.root {
      route := [];
    } else {
      assert config.Linked(n);
      var above := RouteTo(config, n.parent);
      var i :| 0 <= i < |n.parent.elements| && n.parent.elements[i] == n;
      RouteSnoc(config, config.root, above, i);
      route := above + [i];
    }
  }

  /** Every setting of a configuration is found by a path from the root, whichever separator
      joins its segments. */
  lemma EverySettingIsFound(config: Config, n: Node, sep: char) returns (route: seq<nat>)
    requires config.Valid() && n in config.depth && IsPathToken(sep)
    requires forall m | m in config.depth :: |m.elements| <= TWO31
    ensures Leads(config, config.root, route)
    ensures Lookup(config, config.root, PathOf(config, config.root, route, sep)) == n
  {
    route := RouteTo(config, n);
    LookupFindsPath(config, config.root, route, sep);
  }
}
