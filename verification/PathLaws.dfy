/** Where a path leads, told from its segments alone: each names a member of a group or gives the
    place of an element, and if one of them names nothing the path leads nowhere. */
module PathLaws {
  import opened Wrappers
  import opened Settings
  import opened Numerals
  import opened SettingHeap
  import opened SettingPaths

  // ----- segments -----

  /** The longest runs of characters that are no separators. */
  function Segments(path: string): (segments: seq<string>)
    ensures path != "" && !IsPathToken(path[0]) ==> segments != []
    ensures forall k | 0 <= k < |segments| :: segments[k] != ""
  {
    if path == "" then []
    else
      var more := Segments(path[1..]);
      if IsPathToken(path[0]) then more
      else if |path| == 1 || IsPathToken(path[1]) then [[path[0]]] + more
      else [[path[0]] + more[0]] + more[1..]
  }

  lemma {:induction false} SeparatorsSkipped(path: string)
    ensures Segments(path) == Segments(SkipSeparators(path))
  {
    if path != "" && IsPathToken(path[0]) {
      SeparatorsSkipped(path[1..]);
    }
  }

  lemma {:induction false} FirstSegment(p: string)
    requires p != "" && !IsPathToken(p[0])
    ensures Segments(p) == [Segment(p)] + Segments(SkipSegment(p)) && Segment(p) != "" && Segment(p)[0] == p[0]
  {
    if |p| == 1 || IsPathToken(p[1]) {
      assert Segment(p[1..]) == "" && SkipSegment(p[1..]) == p[1..];
      assert [p[0]] + "" == [p[0]];
    } else {
      FirstSegment(p[1..]);
    }
  }

  lemma {:induction false} SplitAtSegment(p: string)
    ensures p == Segment(p) + SkipSegment(p) && (SkipSegment(p) == "" || IsPathToken(SkipSegment(p)[0]))
  {
    if p != "" && !IsPathToken(p[0]) {
      SplitAtSegment(p[1..]);
    }
  }

  // ----- numbers in a path -----

  /** A number is read up to the next separator at most. */
  lemma {:induction false} DigitsEnd(s: string, rest: string)
    requires rest == "" || IsPathToken(rest[0])
    ensures DigitRun(s + rest) == DigitRun(s)
  {
    if s == "" {
      assert s + rest == rest;
    } else {
      assert (s + rest)[1..] == s[1..] + rest;
      DigitsEnd(s[1..], rest);
    }
  }

  lemma {:induction false} AtoiEnds(s: string, rest: string)
    requires rest == "" || IsPathToken(rest[0])
    ensures AtoiOf(s + rest) == AtoiOf(s)
  {
    if s == "" {
      assert s + rest == rest && DropSign(rest) == rest;
      DigitsEnd("", rest);
      assert "" + rest == rest;
    } else {
      assert (s + rest)[0] == s[0] && (s + rest)[1..] == s[1..] + rest;
      if IsSpace(s[0]) {
        AtoiEnds(s[1..], rest);
      } else {
        assert DropSign(s + rest) == DropSign(s) + rest;
        DigitsEnd(DropSign(s), rest);
      }
    }
  }

  lemma AtoiOfNumber(v: int, rest: string)
    requires Int32(v) && (rest == "" || !IsDigit(rest[0]))
    ensures AtoiOf(Decimal(v) + rest) == v
  {
    var digits := Numeral(if v < 0 then -v else v, 10);
    NumeralRoundTrip(if v < 0 then -v else v, 10);
    assert IsBaseDigit(digits[0], 10) && Decimal(v) == (if v < 0 then "-" else "") + digits;
    SignDropped(if v < 0 then "-" else "", digits, rest);
    assert forall i | 0 <= i < |digits| :: IsBaseDigit(digits[i], 10) ==> IsDigit(digits[i]);
    DigitRunOfNumeral(digits, rest);
  }

  lemma SignDropped(sign: string, digits: string, rest: string)
    requires (sign == "" || sign == "-") && digits != "" && IsDigit(digits[0])
    ensures var s := sign + digits + rest;
      DropSign(s) == digits + rest && !IsSpace(s[0]) && (s[0] == '-' <==> sign == "-")
  {
    var s := sign + digits + rest;
    if sign == "-" {
      assert s[1..] == digits + rest;
    } else {
      assert s == digits + rest;
    }
  }

  /** `atoi` reads a number behind white space and in front of anything but a digit. */
  lemma {:induction false} AtoiReads(space: string, v: int, rest: string)
    requires Int32(v) && (rest == "" || !IsDigit(rest[0])) && forall i | 0 <= i < |space| :: IsSpace(space[i])
    ensures AtoiOf(space + (Decimal(v) + rest)) == v
  {
    var s := space + (Decimal(v) + rest);
    if space == "" {
      AtoiOfNumber(v, rest);
      assert s == Decimal(v) + rest;
    } else {
      assert s[0] == space[0] && s[1..] == space[1..] + (Decimal(v) + rest);
      AtoiReads(space[1..], v, rest);
    }
  }

  // ----- steps that segments name -----

  /** The segment names the element at place `i`. */
  ghost predicate StepNamed(n: Node, segment: string, i: nat)
    requires segment != ""
    reads n, n.elements
  {
    i < |n.elements| &&
    if segment[0] == '[' then n.content.Agg? && i == AtoiOf(segment[1..]) % TWO32
    else n.content == Agg(KGroup) && n.elements[i].name == Some(segment)
  }

  /** The segments name the places of the route, one after the other. */
  ghost predicate Follows(config: Config, n: Node, segments: seq<string>, route: seq<nat>)
    requires config.Valid() && forall k | 0 <= k < |segments| :: segments[k] != ""
    reads config, config.depth.Keys
    decreases |route|
  {
    && n in config.depth && |segments| == |route|
    && (route == [] ||
        (ElementsStay(config, n); StepNamed(n, segments[0], route[0])
         && Follows(config, n.elements[route[0]], segments[1..], route[1..])))
  }

  lemma {:induction false} FollowsLeads(config: Config, n: Node, segments: seq<string>, route: seq<nat>)
    requires config.Valid() && forall k | 0 <= k < |segments| :: segments[k] != ""
    requires Follows(config, n, segments, route)
    ensures Leads(config, n, route)
    decreases |route|
  {
    if route != [] {
      FollowsLeads(config, n.elements[route[0]], segments[1..], route[1..]);
    }
  }

  lemma NamedBySegment(config: Config, n: Node, i: nat, p: string)
    requires config.Valid() && n in config.depth && n.content == Agg(KGroup) && i < |n.elements|
    ensures Named(n.elements[i], p) <==> n.elements[i].name == Some(Segment(p))
  {
    assert config.Elements(n);
    assert config.Held(n, n.elements[i]);
    SegmentOfValidName(n.elements[i].name.value);
  }

  /** A hop goes where the first segment says, and nowhere if it says nothing. */
  lemma HopIsNamed(config: Config, n: Node, p: string, i: nat)
    requires config.Valid() && n in config.depth && p != "" && !IsPathToken(p[0]) && Segment(p) != ""
    ensures StepNamed(n, Segment(p), i) ==> Hop(n, p) == n.elements[i]
  {
    FirstSegment(p);
    if StepNamed(n, Segment(p), i) {
      if p[0] == '[' {
        IndexOfSegment(p);
      } else {
        NamedBySegment(config, n, i, p);
        forall j | 0 <= j < i ensures !Named(n.elements[j], p) {
          if Named(n.elements[j], p) {
            config.NamesAreUnique(n, p, i, j);
          }
        }
        FirstNamedIs(n.elements, p, 0, i);
      }
    }
  }

  lemma IndexOfSegment(p: string)
    requires p != "" && p[0] == '[' && Segment(p) != ""
    ensures AtoiOf(p[1..]) == AtoiOf(Segment(p)[1..])
  {
    SplitAtSegment(p);
    TailOfSplit(p, Segment(p), SkipSegment(p));
    AtoiEnds(Segment(p)[1..], SkipSegment(p));
  }

  lemma TailOfSplit(p: string, a: string, b: string)
    requires p == a + b && a != ""
    ensures p[1..] == a[1..] + b
  {
  }

  lemma {:induction false} FirstNamedPlace(list: seq<Node>, name: string, i: nat) returns (k: nat)
    requires i <= |list| && FirstNamed(list, name, i) != null
    ensures i <= k < |list| && list[k] == FirstNamed(list, name, i) && Named(list[k], name)
    decreases |list| - i
  {
    if Named(list[i], name) {
      k := i;
    } else {
      k := FirstNamedPlace(list, name, i + 1);
    }
  }

  lemma HopPlace(config: Config, n: Node, p: string) returns (i: nat)
    requires config.Valid() && n in config.depth && p != "" && !IsPathToken(p[0]) && Segment(p) != ""
    requires Hop(n, p) != null
    ensures StepNamed(n, Segment(p), i) && Hop(n, p) == n.elements[i]
  {
    FirstSegment(p);
    if p[0] == '[' {
      IndexOfSegment(p);
      i := AtoiOf(p[1..]) % TWO32;
    } else {
      i := FirstNamedPlace(n.elements, p, 0);
      NamedBySegment(config, n, i, p);
    }
  }

  // ----- where a path leads -----

  /** The path stops at an opening bracket, with no number behind it. */
  predicate OpenEnd(path: string) {
    var segments := Segments(path);
    path != "" && path[|path| - 1] == '[' && segments != [] && segments[|segments| - 1] == "["
  }

  /** A path whose segments name a route leads to the end of the route. */
  lemma {:induction false} LookupFollows(config: Config, n: Node, path: string, route: seq<nat>)
    requires config.Valid() && Follows(config, n, Segments(path), route)
    ensures Leads(config, n, route) && Lookup(config, n, path) == Target(config, n, route)
    decreases |path|
  {
    FollowsLeads(config, n, Segments(path), route);
    var p := SkipSeparators(path);
    SeparatorsSkipped(path);
    if p != "" {
      FirstSegment(p);
      assert Segments(p)[1..] == Segments(SkipSegment(p));
      HopIsNamed(config, n, p, route[0]);
      LookupHop(config, n, path, p);
      LookupFollows(config, n.elements[route[0]], SkipSegment(p), route[1..]);
    }
  }

  lemma LookupHop(config: Config, n: Node, path: string, p: string)
    requires config.Valid() && n in config.depth && p == SkipSeparators(path) && p != ""
    ensures Hop(n, p) != null ==>
              Hop(n, p) in config.depth && Lookup(config, n, path) == Lookup(config, Hop(n, p), SkipSegment(p))
    ensures Hop(n, p) == null ==> Lookup(config, n, path) == if p == "[" then n else null
  {
    HopStays(config, n, p);
    assert p[0] == '[' ==> SkipSegment(p) == SkipSegment(p[1..]);
    assert p == [p[0]] + p[1..];
  }

  lemma {:induction false} SkippedEnd(path: string)
    requires SkipSeparators(path) != ""
    ensures path != "" && path[|path| - 1] == SkipSeparators(path)[|SkipSeparators(path)| - 1]
  {
    if IsPathToken(path[0]) {
      SkippedEnd(path[1..]);
    }
  }

  /** A path that leads somewhere leads along a route that its segments name; only an open
      bracket at its end need not name anything. */
  lemma {:induction false} FoundAlongRoute(config: Config, n: Node, path: string) returns (route: seq<nat>)
    requires config.Valid() && n in config.depth && Lookup(config, n, path) != null
    ensures Leads(config, n, route) && Target(config, n, route) == Lookup(config, n, path)
    ensures var segments := Segments(path);
      || Follows(config, n, segments, route)
      || (OpenEnd(path) && Follows(config, n, segments[..|segments| - 1], route))
    decreases |path|
  {
    var p := SkipSeparators(path);
    SeparatorsSkipped(path);
    if p == "" {
      route := [];
    } else {
      FirstSegment(p);
      SkippedEnd(path);
      LookupHop(config, n, path, p);
      if Hop(n, p) == null {
        assert Segment(p) == "[" by { SplitAtSegment(p); }
        route := [];
      } else {
        var i := HopPlace(config, n, p);
        var tail := FoundAlongRoute(config, n.elements[i], SkipSegment(p));
        route := [i] + tail;
        OneStepMore(config, n, path, p, i, tail);
      }
    }
  }

  lemma OneStepMore(config: Config, n: Node, path: string, p: string, i: nat, tail: seq<nat>)
    requires config.Valid() && n in config.depth && p == SkipSeparators(path) && p != "" && path != ""
    requires path[|path| - 1] == p[|p| - 1] && Segments(path) == [Segment(p)] + Segments(SkipSegment(p))
    requires Segment(p) != "" && StepNamed(n, Segment(p), i)
    requires var m, segments := n.elements[i], Segments(SkipSegment(p));
      && Leads(config, m, tail)
      && (|| Follows(config, m, segments, tail)
          || (OpenEnd(SkipSegment(p)) && Follows(config, m, segments[..|segments| - 1], tail)))
    ensures Leads(config, n, [i] + tail) && Target(config, n, [i] + tail) == Target(config, n.elements[i], tail)
    ensures var segments := Segments(path);
      || Follows(config, n, segments, [i] + tail)
      || (OpenEnd(path) && Follows(config, n, segments[..|segments| - 1], [i] + tail))
  {
    var segments, rest := Segments(path), SkipSegment(p);
    var route := [i] + tail;
    assert segments[1..] == Segments(rest) && route[1..] == tail;
    if !Follows(config, n.elements[i], Segments(rest), tail) {
      OpenLater(p);
      assert segments[..|segments| - 1][1..] == Segments(rest)[..|Segments(rest)| - 1];
    }
  }

  lemma OpenLater(p: string)
    requires p != "" && !IsPathToken(p[0]) && OpenEnd(SkipSegment(p))
    ensures p[|p| - 1] == '['
  {
    SplitAtSegment(p);
  }

  /** And where an open bracket follows such a route, the path leads somewhere. */
  lemma {:induction false} OpenBracketFound(config: Config, n: Node, path: string, route: seq<nat>)
    requires config.Valid() && OpenEnd(path) && Follows(config, n, Segments(path)[..|Segments(path)| - 1], route)
    ensures Lookup(config, n, path) != null
    decreases |path|
  {
    var p, segments := SkipSeparators(path), Segments(path);
    SeparatorsSkipped(path);
    FirstSegment(p);
    SplitAtSegment(p);
    LookupHop(config, n, path, p);
    var rest := SkipSegment(p);
    assert segments[1..] == Segments(rest);
    if route == [] {
      OnlySegment(path, p);
    } else {
      SkippedEnd(path);
      HopIsNamed(config, n, p, route[0]);
      assert segments[..|segments| - 1][1..] == Segments(rest)[..|Segments(rest)| - 1];
      OpenRest(p);
      OpenBracketFound(config, n.elements[route[0]], rest, route[1..]);
    }
  }

  lemma OnlySegment(path: string, p: string)
    requires OpenEnd(path) && p == SkipSeparators(path) && p != "" && |Segments(path)| == 1
    ensures p == "["
  {
    SeparatorsSkipped(path);
    FirstSegment(p);
    SplitAtSegment(p);
    SkippedEnd(path);
    var rest := SkipSegment(p);
    assert Segments(p)[1..] == Segments(rest);
    if rest != "" {
      NoSegments(rest);
    }
  }

  lemma {:induction false} NoSegments(rest: string)
    requires rest != "" && Segments(rest) == []
    ensures IsPathToken(rest[|rest| - 1])
  {
    if |rest| > 1 {
      NoSegments(rest[1..]);
    }
  }

  lemma OpenRest(p: string)
    requires p != "" && !IsPathToken(p[0]) && p[|p| - 1] == '[' && |Segments(p)| > 1
    requires Segments(p)[|Segments(p)| - 1] == "["
    ensures OpenEnd(SkipSegment(p))
  {
    FirstSegment(p);
    SplitAtSegment(p);
    var rest := SkipSegment(p);
    assert Segments(p)[1..] == Segments(rest) && rest != "";
  }

  /** The segments name some route. */
  ghost predicate NamesRoute(config: Config, n: Node, segments: seq<string>)
    requires config.Valid() && forall k | 0 <= k < |segments| :: segments[k] != ""
    reads config, config.depth.Keys
  {
    exists route :: Follows(config, n, segments, route)
  }

  /** A path leads nowhere exactly if no route is named by its segments, an opening bracket at the
      very end of the path apart. */
  lemma LookupIff(config: Config, n: Node, path: string)
    requires config.Valid() && n in config.depth
    ensures var segments := Segments(path);
      Lookup(config, n, path) != null <==>
        NamesRoute(config, n, segments) || (OpenEnd(path) && NamesRoute(config, n, segments[..|segments| - 1]))
  {
    var segments := Segments(path);
    if Lookup(config, n, path) != null {
      var route := FoundAlongRoute(config, n, path);
    }
    if NamesRoute(config, n, segments) {
      var route :| Follows(config, n, segments, route);
      LookupFollows(config, n, path, route);
    }
    if OpenEnd(path) {
      var before := segments[..|segments| - 1];
      if NamesRoute(config, n, before) {
        var route :| Follows(config, n, before, route);
        OpenBracketFound(config, n, path, route);
      }
    }
  }

  // ----- paths with a segment that names nothing -----

  /** The path of a route, and then more. */
  lemma {:induction false} LookupBehind(config: Config, n: Node, route: seq<nat>, sep: char, tail: string)
    requires config.Valid() && Leads(config, n, route) && IsPathToken(sep)
    requires forall k | 0 <= k < |route| :: route[k] < TWO31
    ensures Target(config, n, route) in config.depth
    ensures Lookup(config, n, PathOf(config, n, route, sep) + ([sep] + tail)) ==
            Lookup(config, Target(config, n, route), tail)
    decreases |route|
  {
    if route == [] {
      assert PathOf(config, n, route, sep) + ([sep] + tail) == [sep] + tail;
      SeparatorSkipped(config, n, sep, tail);
    } else {
      var child, more := n.elements[route[0]], route[1..];
      var path, step := PathOf(config, child, more, sep) + ([sep] + tail), StepName(n, route[0]);
      LookupBehind(config, child, more, sep, tail);
      if |route| == 1 {
        StepHop(config, n, route[0], [sep] + tail);
        assert step + "" + PathOf(config, child, more, sep) + ([sep] + tail) == step + ([sep] + tail);
        assert path == [sep] + tail;
      } else {
        StepHop(config, n, route[0], [sep] + path);
        SeparatorSkipped(config, child, sep, path);
        JoinPath(step, sep, PathOf(config, child, more, sep), tail);
      }
    }
  }

  lemma JoinPath(step: string, sep: char, path: string, tail: string)
    ensures step + [sep] + path + ([sep] + tail) == step + ([sep] + (path + ([sep] + tail)))
  {
  }

  /** A name without separators that does not look like an index. */
  predicate PlainName(name: string) {
    name != "" && name[0] != '[' && forall k | 0 <= k < |name| :: !IsPathToken(name[k])
  }

  /** A name that no member of the setting has leads nowhere, whatever comes behind it. */
  lemma MissingMember(config: Config, n: Node, name: string, rest: string)
    requires config.Valid() && n in config.depth && PlainName(name) && (rest == "" || IsPathToken(rest[0]))
    requires n.content == Agg(KGroup) ==> forall i | 0 <= i < |n.elements| :: n.elements[i].name != Some(name)
    ensures Lookup(config, n, name + rest) == null
  {
    var p := name + rest;
    assert p[0] == name[0] && p == SkipSeparators(p);
    SegmentBeforeSeparator(name, rest);
    LookupHop(config, n, p, p);
    if Hop(n, p) != null {
      var i := HopPlace(config, n, p);
    }
  }

  /** So is the index of an element that is not there, if it is closed. */
  lemma MissingElement(config: Config, n: Node, i: nat, rest: string)
    requires config.Valid() && n in config.depth && i < TWO31 && (n.content.Agg? ==> |n.elements| <= i)
    requires rest == "" || IsPathToken(rest[0])
    ensures Lookup(config, n, "[" + Decimal(i) + "]" + rest) == null
  {
    var p := "[" + Decimal(i) + "]" + rest;
    assert p[1..] == Decimal(i) + ("]" + rest) && |p| > 1;
    AtoiOfDecimal(i, "]" + rest);
    NoHop(n, p, i);
    LookupHop(config, n, p, p);
  }

  lemma NoHop(n: Node, p: string, i: nat)
    requires p != "" && p[0] == '[' && AtoiOf(p[1..]) == i && i < TWO31 && (n.content.Agg? ==> |n.elements| <= i)
    ensures Hop(n, p) == null
  {
  }

  /** A path along any route, then a name that is not there, then anything, leads nowhere. */
  lemma MissingNameIsNull(config: Config, n: Node, route: seq<nat>, sep: char, name: string, rest: string)
    requires config.Valid() && Leads(config, n, route) && IsPathToken(sep)
    requires forall k | 0 <= k < |route| :: route[k] < TWO31
    requires PlainName(name) && (rest == "" || IsPathToken(rest[0]))
    requires var m := Target(config, n, route);
      m.content == Agg(KGroup) ==> forall i | 0 <= i < |m.elements| :: m.elements[i].name != Some(name)
    ensures Lookup(config, n, PathOf(config, n, route, sep) + ([sep] + (name + rest))) == null
  {
    LookupBehind(config, n, route, sep, name + rest);
    MissingMember(config, Target(config, n, route), name, rest);
  }
}
