/** Printing a tree of settings and reading the text back, for all trees, and reading any text,
    printing the result and reading that.  Everything comes back but doubles: ten digits of one
    are printed, so it is read as whatever double `atof` makes of them. */
module RoundTrip {
  import opened Wrappers
  import opened Settings
  import opened ParseActions
  import opened GrammarTables
  import opened LrParser
  import opened Derivations
  import opened ParserTheorems
  import opened ParserContext
  import opened Meaning
  import opened TreeShapes
  import opened TreeEffects
  import opened StackNeeds
  import opened Numerals
  import opened Lexemes
  import opened Floats
  import opened Scanning
  import opened ScanLemmas
  import opened Writer
  import opened TreeText
  import opened ReadTrees
  import opened CanonicalTrees
  import opened FloatTrees

  /** `config_read`: the members of the root group, or why reading failed. */
  function Read(libc: Libc, text: string): Result<seq<Setting>, ParseError> {
    ReadResult(Tokenize(libc, text))
  }

  function ReadResult(tokens: seq<Token>): Result<seq<Setting>, ParseError> {
    ParserNeverCrashes(tokens);
    match Parse(tokens)
    case Accepted(ctx) => Ok(ctx.spine[0].done)
    case Rejected(e) => Err(e)
  }

  /** Trees of settings whose printed form has the tokens of the tree. */
  predicate Good(members: seq<Setting>) { GoodItems(KGroup, members) }

  /** The root and its value take one stack entry besides what the members take. */
  predicate FitsStack(members: seq<Setting>) { 1 + ItemsNeed(KGroup, members) < YYMAXDEPTH }

  lemma PrintedTokens(libc: Libc, members: seq<Setting>, width: nat)
    requires Good(members)
    ensures Tokenize(libc, Write(libc, members, width)) == MemberTokens(Printed(libc), members)
  {
    var text := WriteMembers(libc, members, 0, width);
    RootLayout(libc, members, width);
    MembersScanned(libc, members, 0, width, "");
    assert text + "" == text;
    assert MemberTokens(Printed(libc), members) + [] == MemberTokens(Printed(libc), members);
  }

  lemma RootLayout(libc: Libc, members: seq<Setting>, width: nat)
    ensures Write(libc, members, width) == WriteMembers(libc, members, 0, width)
  {
    var root := GroupV(members);
    assert WriteValue(libc, root, 0, width) == "" + WriteMembers(libc, members, 0, width) + "" + "";
  }

  function DocumentTree(members: seq<Setting>): Tree {
    if members == [] then Node(2, []) else Node(3, [ListTree(KGroup, members)])
  }

  lemma DocumentFits(members: seq<Setting>)
    requires Good(members)
    ensures Derives(DocumentTree(members), MemberTokens(Exactly, members))
    ensures Items(DocumentTree(members)) == members
    ensures Height(DocumentTree(members)) == ItemsNeed(KGroup, members)
  {
    ItemsNeedPositive(KGroup, members);
    if members != [] {
      ListFits(KGroup, members);
      UnitNode(3, ListTree(KGroup, members), 25, MemberTokens(Exactly, members), ItemsNeed(KGroup, members));
    }
  }

  // ----- good trees are legal -----

  lemma {:induction false} GoodIsLegal(v: Value)
    requires GoodValue(v)
    ensures Legal(v)
    decreases v, 1
  {
    if v.IsAggregate() {
      var kind := if v.GroupV? then KGroup else if v.ArrayV? then KArray else KList;
      assert v == Aggregate(kind, v.list);
      GoodItemsAreLegal(kind, v.list);
      LegalAggregate(kind, v.list);
    }
  }

  lemma {:induction false} GoodItemIsLegal(kind: Kind, s: Setting, before: seq<Setting>)
    requires GoodItem(kind, s) && GoodItems(kind, before + [s])
    ensures LegalNext(kind, before, s)
    decreases s, 2
  {
    var all := before + [s];
    match kind
    case KGroup =>
      GoodIsLegal(s.value);
      LegalMember(before, s.name.value, s.value);
      NewName(before, s);
    case KArray =>
      assert GoodArray(all);
      if before != [] {
        assert SameType(all[0].value, all[|before|].value) && all[0] == before[0];
      }
    case KList =>
      GoodIsLegal(s.value);
      LegalElement(before, s);
  }

  /** Distinct valid names stay distinct when compared up to a path separator. */
  lemma NewName(before: seq<Setting>, s: Setting)
    requires GoodItems(KGroup, before + [s]) && s.name.Some?
    ensures !HasMember(before, s.name.value)
  {
    var all := before + [s];
    assert GoodItem(KGroup, all[|before|]);
    SegmentOfValidName(s.name.value);
    forall i | 0 <= i < |before| && before[i].name.Some?
      ensures Segment(before[i].name.value) != Segment(s.name.value)
    {
      assert all[i] == before[i] && GoodItem(KGroup, all[i]) && all[i].name != all[|before|].name;
      SegmentOfValidName(before[i].name.value);
    }
  }

  lemma {:induction false} GoodItemsAreLegal(kind: Kind, list: seq<Setting>)
    requires GoodItems(kind, list)
    ensures LegalItems(kind, list)
    decreases list, 0
  {
    if list != [] {
      var before, s := list[..|list| - 1], list[|list| - 1];
      assert list == before + [s];
      GoodPrefix(kind, list);
      GoodItemsAreLegal(kind, before);
      GoodItemIsLegal(kind, s, before);
      LegalSnoc(kind, before, s);
    }
  }

  // ----- the theorems -----

  /** What reading back a printed good tree gives: the tree with its doubles printed and read, or
      a full stack; an infinity or the like makes the text unreadable. */
  lemma ReadPrinted(libc: Libc, members: seq<Setting>, width: nat)
    requires Good(members)
    ensures var result := Read(libc, Write(libc, members, width));
      if !AllIn(Finite(libc), members) then result.Err?
      else if FitsStack(members) then result == Ok(RereadList(libc, members))
      else result == Err(MemoryExhausted)
  {
    PrintedTokens(libc, members, width);
    if AllIn(Finite(libc), members) {
      RereadMemberTokens(libc, members);
      RereadGoodItems(libc, KGroup, members);
      RereadItemsNeed(libc, KGroup, members);
      ReadTokens(RereadList(libc, members));
    } else {
      UnreadTokens(libc, members);
    }
  }

  lemma ReadTokens(members: seq<Setting>)
    requires Good(members)
    ensures ReadResult(MemberTokens(Exactly, members)) ==
            if FitsStack(members) then Ok(members) else Err(MemoryExhausted)
  {
    DocumentFits(members);
    GoodItemsAreLegal(KGroup, members);
    AcceptedIffLegal(DocumentTree(members), MemberTokens(Exactly, members));
  }

  lemma UnreadTokens(libc: Libc, members: seq<Setting>)
    requires Good(members) && !AllIn(Finite(libc), members)
    ensures ReadResult(MemberTokens(Printed(libc), members)).Err?
  {
    var tokens := MemberTokens(Printed(libc), members);
    ParserNeverCrashes(tokens);
    if Parse(tokens).Accepted? {
      var t := ParserIsSound(tokens);
      OddFloatsDoNotParse(libc, members, t);
    }
  }

  /** Whatever text it came from, a tree that was read is good, and the stacks that reading
      the text took are enough for its printed form. */
  lemma ReadIsGood(libc: Libc, text: string)
    requires Read(libc, text).Ok?
    ensures Good(Read(libc, text).value) && FitsStack(Read(libc, text).value)
  {
    var tokens := Tokenize(libc, text);
    var t := ParserIsSound(tokens);
    AcceptedIffLegal(t, tokens);
    forall i | 0 <= i < |tokens| ensures GoodToken(tokens[i]) {
      ScannedTokensGood(libc, Scan(text, true, Initial, ""), i);
    }
    GoodYield(t);
    ItemsGood(t);
    ItemsNeedIsMet(t);
  }

  lemma KeptIsFinite(libc: Libc, members: seq<Setting>)
    ensures AllIn(Kept(libc), members) <==>
            AllIn(Finite(libc), members) && RereadList(libc, members) == members
  {
    if AllIn(Kept(libc), members) {
      WeakerList(Kept(libc), Finite(libc), members);
    }
    if AllIn(Finite(libc), members) {
      KeptList(libc, members);
    }
  }

  /** Printing a tree and reading the text gives the tree back exactly if the tree is good, its
      nesting fits the parser's stacks and ten digits are enough for each of its doubles. */
  lemma WriteThenRead(libc: Libc, members: seq<Setting>, width: nat)
    ensures Read(libc, Write(libc, members, width)) == Ok(members) <==>
            Good(members) && FitsStack(members) && AllIn(Kept(libc), members)
  {
    KeptIsFinite(libc, members);
    if Good(members) {
      ReadPrinted(libc, members, width);
    }
    if Read(libc, Write(libc, members, width)) == Ok(members) {
      ReadIsGood(libc, Write(libc, members, width));
    }
  }

  /** Reading any text, printing the result and reading that gives the same result exactly if
      ten digits are enough for the doubles in it. */
  lemma ReadWriteRead(libc: Libc, text: string, width: nat)
    requires Read(libc, text).Ok?
    ensures Read(libc, Write(libc, Read(libc, text).value, width)) == Read(libc, text) <==>
            AllIn(Kept(libc), Read(libc, text).value)
  {
    ReadIsGood(libc, text);
    WriteThenRead(libc, Read(libc, text).value, width);
  }

  /** Printing what was read back gives the same text if each of its doubles is printed as the
      one it came from; from then on nothing changes. */
  lemma WriteReadWrite(libc: Libc, members: seq<Setting>, width: nat)
    requires Good(members) && FitsStack(members) && AllIn(Stable(libc), members)
    ensures var text := Write(libc, members, width);
      Read(libc, text).Ok? && Write(libc, Read(libc, text).value, width) == text
  {
    WeakerList(Stable(libc), Finite(libc), members);
    ReadPrinted(libc, members, width);
    StableMembers(libc, members, 0, width);
    RootLayout(libc, members, width);
    RootLayout(libc, RereadList(libc, members), width);
  }

  // ----- doubles that do not come back -----

  /** A setting with a double as its value. */
  function OneFloat(name: string, d: Double): seq<Setting> { [Setting(Some(name), FloatV(d))] }

  lemma OneFloatIsGood(name: string, d: Double)
    requires GoodName(name)
    ensures Good(OneFloat(name, d)) && FitsStack(OneFloat(name, d))
  {
    var members := OneFloat(name, d);
    assert GoodItem(KGroup, members[0]);
    assert Need(members[0].value) == 1;
  }

  lemma OneFloatReread(libc: Libc, name: string, d: Double, width: nat)
    requires GoodName(name)
    ensures var result := Read(libc, Write(libc, OneFloat(name, d), width));
      if IsFinite(libc, d) then result == Ok(OneFloat(name, Reread(libc, d))) else result.Err?
  {
    var members := OneFloat(name, d);
    OneFloatIsGood(name, d);
    ReadPrinted(libc, members, width);
    RereadAt(libc, members);
    assert AllFloats(Finite(libc), members[0].value) == IsFinite(libc, d);
    assert RereadList(libc, members) == [RereadSetting(libc, members[0])];
  }

  lemma NineDigits(w: string)
    requires w == "0.123456789"
    ensures IsFloat(w) && 'e' !in w && '.' in w && KeptLength(w, |w|) == |w|
  {
    assert DropSign(w) == w && w[1] == '.';
    PointInDigits(w, 1);
  }

  /** A double that takes eleven digits, such as 0.12345678901, is read back as another one. */
  lemma DigitsAreLost(libc: Libc, name: string, d: Double, width: nat)
    requires GoodName(name)
    requires libc.general(d) == "0.123456789" && libc.atof("0.123456789") != d
    ensures var d' := libc.atof("0.123456789");
      Read(libc, Write(libc, OneFloat(name, d), width)) == Ok(OneFloat(name, d')) && d' != d
  {
    OneFloatReread(libc, name, d, width);
    ElevenDigits(libc, d);
  }

  lemma ElevenDigits(libc: Libc, d: Double)
    requires libc.general(d) == "0.123456789"
    ensures IsFinite(libc, d) && Reread(libc, d) == libc.atof("0.123456789")
  {
    var w := libc.general(d);
    NineDigits(w);
    assert w[..|w|] == w;
  }

  lemma Infinity(libc: Libc, d: Double)
    requires libc.general(d) == "inf"
    ensures !IsFinite(libc, d)
  {
    assert FloatText(libc, d) == "inf.0";
  }

  /** The printed form of an infinity cannot be read. */
  lemma InfinityIsLost(libc: Libc, name: string, d: Double, width: nat)
    requires GoodName(name) && libc.general(d) == "inf"
    ensures Read(libc, Write(libc, OneFloat(name, d), width)).Err?
  {
    OneFloatReread(libc, name, d, width);
    Infinity(libc, d);
  }
}
