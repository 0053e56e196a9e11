/** The text that `config_write` prints for a tree of settings. */
module Writer {
  import opened Wrappers
  import opened Settings
  import opened Numerals
  import opened Lexemes
  import opened Floats

  /** One character inside a quoted string. */
  function Escape(c: char): string {
    if c == '\"' || c == '\\' then ['\\', c]
    else if c == '\n' then "\\n"
    else if c == '\r' then "\\r"
    else if c == FORM_FEED then "\\f"
    else if c == '\t' then "\\t"
    else if c >= ' ' then [c]
    else "\\x" + [DigitChar(c as nat / 16), DigitChar(c as nat % 16)]
  }

  function EscapeAll(s: string): string {
    if s == "" then "" else Escape(s[0]) + EscapeAll(s[1..])
  }

  function Spaces(n: nat): string { seq(n, _ => ' ') }

  function Tabs(n: nat): string { seq(n, _ => '\t') }

  /** `__config_indent`: blanks, or tabs when the tab width is 0. */
  function Indent(depth: nat, width: nat): string
    requires depth > 1
  {
    if width > 0 then Spaces((depth - 1) * width) else Tabs(depth - 1)
  }

  /** `__config_write_value` for everything but aggregates. */
  function WriteScalar(libc: Libc, v: Value): string
    requires !v.IsAggregate()
  {
    match v
    case NoneV => "???"
    case IntV(i, hex) => if hex then "0x" + Numeral(i % TWO32, 16) else Decimal(i)
    case Int64V(l, hex) =>
      (if hex then "0x" + Numeral(l % TWO64, 16) else Decimal(l)) + "L"
    case FloatV(d) => FloatText(libc, d)
    case StringV(s) => "\"" + EscapeAll(s) + "\""
    case BoolV(b) => if b != 0 then "true" else "false"
  }

  /** What a group that is not the root starts and ends with. */
  function Opening(depth: nat, width: nat): string {
    if depth > 0 then "\n" + (if depth > 1 then Indent(depth, width) else "") + "{\n" else ""
  }

  function Closing(depth: nat, width: nat): string {
    (if depth > 1 then Indent(depth, width) else "") + (if depth > 0 then "}" else "")
  }

  /** What stands in front of a setting's value. */
  function Head(s: Setting, depth: nat, width: nat): string {
    (if depth > 1 then Indent(depth, width) else "")
    + (if s.name.Some? then s.name.value + (if s.value.GroupV? then " : " else " = ") else "")
  }

  /** `__config_write_value`. */
  function WriteValue(libc: Libc, v: Value, depth: nat, width: nat): string
    decreases v, 1
  {
    match v
    case ListV(list) => "( " + WriteElems(libc, list, depth, width) + ")"
    case ArrayV(list) => "[ " + WriteElems(libc, list, depth, width) + "]"
    case GroupV(list) => Opening(depth, width) + WriteMembers(libc, list, depth, width) + Closing(depth, width)
    case _ => WriteScalar(libc, v)
  }

  /** The elements of a list or array. */
  function WriteElems(libc: Libc, list: seq<Setting>, depth: nat, width: nat): string
    decreases list, 0
  {
    if list == [] then ""
    else
      WriteElem(libc, list[0], depth + 1, width)
      + (if |list| > 1 then ", " else " ") + WriteElems(libc, list[1..], depth, width)
  }

  function WriteElem(libc: Libc, s: Setting, depth: nat, width: nat): string
    decreases s, 2
  {
    WriteValue(libc, s.value, depth, width)
  }

  /** `__config_write_setting`. */
  function WriteSetting(libc: Libc, s: Setting, depth: nat, width: nat): string
    decreases s, 2
  {
    Head(s, depth, width)
    + WriteValue(libc, s.value, depth, width) + (if depth > 0 then ";\n" else "")
  }

  /** The members of a group. */
  function WriteMembers(libc: Libc, list: seq<Setting>, depth: nat, width: nat): string
    decreases list, 0
  {
    if list == [] then ""
    else WriteSetting(libc, list[0], depth + 1, width) + WriteMembers(libc, list[1..], depth, width)
  }

  /** `config_write`: the root group is written at depth 0. */
  function Write(libc: Libc, members: seq<Setting>, width: nat): string {
    WriteSetting(libc, Setting(None, GroupV(members)), 0, width)
  }
}
