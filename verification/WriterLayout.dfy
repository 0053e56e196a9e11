/** What a printed configuration looks like: its lines and their margins. */
module WriterLayout {
  import opened Wrappers
  import opened Settings
  import opened Numerals
  import opened Lexemes
  import opened Floats
  import opened Writer

  /** A line with the number of groups around it. */
  datatype Line = Line(level: nat, text: string)

  /** Blanks for each level, or a tab where the tab width is 0. */
  function Margin(level: nat, width: nat): string {
    if width == 0 then seq(level, _ => '\t') else seq(level * width, _ => ' ')
  }

  function Page(lines: seq<Line>, width: nat): string {
    if lines == [] then ""
    else Margin(lines[0].level, width) + lines[0].text + "\n" + Page(lines[1..], width)
  }

  function Title(s: Setting): string {
    match s.name
    case None => ""
    case Some(name) => name + if s.value.GroupV? then " : " else " = "
  }

  /** A group has lines of its own for its braces and its members, all else is on one line. */
  function LinesOf(libc: Libc, s: Setting, level: nat, width: nat): seq<Line>
    decreases s, 1
  {
    match s.value
    case GroupV(list) =>
      [Line(level, Title(s)), Line(level, "{")] + Lines(libc, list, level + 1, width) + [Line(level, "};")]
    case _ => [Line(level, Title(s) + WriteValue(libc, s.value, level + 1, width) + ";")]
  }

  function Lines(libc: Libc, list: seq<Setting>, level: nat, width: nat): seq<Line>
    decreases list, 0
  {
    if list == [] then [] else LinesOf(libc, list[0], level, width) + Lines(libc, list[1..], level, width)
  }

  lemma {:induction false} PageConcat(a: seq<Line>, b: seq<Line>, width: nat)
    ensures Page(a + b, width) == Page(a, width) + Page(b, width)
  {
    if a == [] {
      assert a + b == b;
    } else {
      assert (a + b)[0] == a[0] && (a + b)[1..] == a[1..] + b;
      PageConcat(a[1..], b, width);
    }
  }

  lemma PageOne(line: Line, width: nat)
    ensures Page([line], width) == Margin(line.level, width) + line.text + "\n"
  {
    assert [line][1..] == [];
  }

  lemma MarginIsIndent(level: nat, width: nat)
    ensures Margin(level, width) == if level > 0 then Indent(level + 1, width) else ""
  {
  }

  lemma HeadIs(s: Setting, level: nat, width: nat)
    ensures Head(s, level + 1, width) == Margin(level, width) + Title(s)
  {
    MarginIsIndent(level, width);
  }

  lemma {:induction false} MembersAreLines(libc: Libc, list: seq<Setting>, level: nat, width: nat)
    ensures WriteMembers(libc, list, level, width) == Page(Lines(libc, list, level, width), width)
    decreases list, 0
  {
    if list != [] {
      SettingIsLines(libc, list[0], level, width);
      MembersAreLines(libc, list[1..], level, width);
      PageConcat(LinesOf(libc, list[0], level, width), Lines(libc, list[1..], level, width), width);
    }
  }

  lemma {:induction false} SettingIsLines(libc: Libc, s: Setting, level: nat, width: nat)
    ensures WriteSetting(libc, s, level + 1, width) == Page(LinesOf(libc, s, level, width), width)
    decreases s, 1
  {
    HeadIs(s, level, width);
    match s.value
    case GroupV(list) =>
      MembersAreLines(libc, list, level + 1, width);
      GroupIsLines(libc, s, list, level, width);
    case _ =>
      var text := WriteValue(libc, s.value, level + 1, width);
      PageOne(Line(level, Title(s) + text + ";"), width);
      OneLine(Margin(level, width), Title(s), text);
  }

  lemma OneLine(margin: string, title: string, text: string)
    ensures (margin + title) + text + ";\n" == margin + (title + text + ";") + "\n"
  {
  }

  lemma GroupIsLines(libc: Libc, s: Setting, list: seq<Setting>, level: nat, width: nat)
    requires s.value == GroupV(list)
    requires WriteMembers(libc, list, level + 1, width) == Page(Lines(libc, list, level + 1, width), width)
    requires Head(s, level + 1, width) == Margin(level, width) + Title(s)
    ensures WriteSetting(libc, s, level + 1, width) == Page(LinesOf(libc, s, level, width), width)
  {
    var first, open, close := Line(level, Title(s)), Line(level, "{"), Line(level, "};");
    var inner := Lines(libc, list, level + 1, width);
    PageConcat([first, open] + inner, [close], width);
    PageConcat([first, open], inner, width);
    assert [first, open] == [first] + [open];
    PageConcat([first], [open], width);
    PageOne(first, width);
    PageOne(open, width);
    PageOne(close, width);
    MarginIsIndent(level, width);
    Braces(Margin(level, width), Title(s), Page(inner, width));
  }

  lemma Braces(margin: string, title: string, inner: string)
    ensures (margin + title) + ("\n" + margin + "{\n" + inner + (margin + "}")) + ";\n"
            == (margin + title + "\n") + (margin + "{" + "\n") + inner + (margin + "};" + "\n")
  {
  }

  /** A configuration is printed as its lines. */
  lemma WrittenInLines(libc: Libc, members: seq<Setting>, width: nat)
    ensures Write(libc, members, width) == Page(Lines(libc, members, 0, width), width)
  {
    MembersAreLines(libc, members, 0, width);
    var text := WriteMembers(libc, members, 0, width);
    var root := Setting(None, GroupV(members));
    assert Head(root, 0, width) == "" && Opening(0, width) == "" && Closing(0, width) == "";
    assert WriteValue(libc, root.value, 0, width) == text;
    assert Write(libc, members, width) == WriteSetting(libc, root, 0, width) == text;
  }

  // ----- on one line -----

  function Joined(texts: seq<string>): string {
    if texts == [] then "" else if |texts| == 1 then texts[0] else texts[0] + ", " + Joined(texts[1..])
  }

  function Texts(libc: Libc, list: seq<Setting>, depth: nat, width: nat): seq<string> {
    seq(|list|, i requires 0 <= i < |list| => WriteValue(libc, list[i].value, depth + 1, width))
  }

  /** Elements are separated by commas and stand between blanks. */
  lemma {:induction false} ElementsJoined(libc: Libc, list: seq<Setting>, depth: nat, width: nat)
    ensures WriteElems(libc, list, depth, width) ==
            if list == [] then "" else Joined(Texts(libc, list, depth, width)) + " "
  {
    if |list| > 1 {
      ElementsJoined(libc, list[1..], depth, width);
      assert Texts(libc, list, depth, width)[1..] == Texts(libc, list[1..], depth, width);
    } else if |list| == 1 {
      assert WriteElems(libc, list[1..], depth, width) == "";
      assert Texts(libc, list, depth, width)[0] == WriteValue(libc, list[0].value, depth + 1, width);
    }
  }

  /** Characters that print as they are, and the escapes of all others. */
  lemma EscapesAre(c: char)
    requires c as int < 256
    ensures Escape('\n') == "\\n" && Escape('\r') == "\\r" && Escape('\t') == "\\t" && Escape(FORM_FEED) == "\\f"
    ensures Escape('\\') == "\\\\" && Escape('\"') == "\\\""
    ensures c >= ' ' && c != '\\' && c != '\"' ==> Escape(c) == [c]
    ensures c < ' ' && c !in {'\n', '\r', '\t', FORM_FEED} ==>
              Escape(c) == ['\\', 'x', "0123456789ABCDEF"[c as int / 16], "0123456789ABCDEF"[c as int % 16]]
  {
  }

  /** Printed numbers do not start with a zero unless they are zero. */
  lemma {:induction false} NumeralIsShort(n: nat, base: nat)
    requires base == 10 || base == 16
    ensures if n == 0 then Numeral(n, base) == "0" else Numeral(n, base)[0] != '0'
  {
    if n >= base {
      NumeralIsShort(n / base, base);
    }
  }
}
