/** Configuration settings as values: what a tree of `config_setting_t` holds once its
    pointers are followed.  The constructors of `Value` stand for the CONFIG_TYPE_* tags. */
module Settings {
  import opened Wrappers

  /** A setting; only members of groups carry a name. */
  datatype Setting = Setting(name: Option<string>, value: Value)

  /** A double by its bit pattern. */
  type Double = int

  datatype Value =
    | NoneV                            // CONFIG_TYPE_NONE: named, but no value stored yet
    | IntV(ival: int, hex: bool)       // 32-bit; hex is CONFIG_FORMAT_HEX
    | Int64V(llval: int, hex: bool)
    | FloatV(fval: Double)
    | StringV(sval: string)            // a NULL string counts as ""
    | BoolV(bval: int)                 // an int used as a truth value
    | GroupV(list: seq<Setting>)
    | ArrayV(list: seq<Setting>)
    | ListV(list: seq<Setting>)
  {
    predicate IsAggregate() { GroupV? || ArrayV? || ListV? }
  }

  datatype Kind = KGroup | KArray | KList

  /** The aggregate of the given kind. */
  function Aggregate(kind: Kind, list: seq<Setting>): Value {
    match kind
    case KGroup => GroupV(list)
    case KArray => ArrayV(list)
    case KList => ListV(list)
  }

  /** Equality of type tags, as `__config_vector_checktype` compares them. */
  predicate SameType(a: Value, b: Value) {
    match a
    case NoneV => b.NoneV?
    case IntV(_, _) => b.IntV?
    case Int64V(_, _) => b.Int64V?
    case FloatV(_) => b.FloatV?
    case StringV(_) => b.StringV?
    case BoolV(_) => b.BoolV?
    case GroupV(_) => b.GroupV?
    case ArrayV(_) => b.ArrayV?
    case ListV(_) => b.ListV?
  }

  // ----- names -----

  predicate IsDigit(c: char) { '0' <= c <= '9' }

  predicate IsAlpha(c: char) { 'A' <= c <= 'Z' || 'a' <= c <= 'z' }

  predicate IsNameStart(c: char) { IsAlpha(c) || c == '*' }

  predicate IsNameChar(c: char) { IsAlpha(c) || IsDigit(c) || c == '*' || c == '_' || c == '-' }

  /** What `__config_validate_name` accepts. */
  predicate ValidName(name: string) {
    name != "" && IsNameStart(name[0]) && forall i | 0 <= i < |name| :: IsNameChar(name[i])
  }

  /** PATH_TOKENS: the separators of a lookup path. */
  predicate IsPathToken(c: char) { c == ':' || c == '.' || c == '/' }

  /** The part of a path before its first separator; names are compared up to there. */
  function Segment(s: string): string {
    if s == "" || IsPathToken(s[0]) then "" else [s[0]] + Segment(s[1..])
  }

  /** `__config_list_search` finds a member that `name` denotes. */
  predicate HasMember(list: seq<Setting>, name: string) {
    exists i | 0 <= i < |list| ::
      list[i].name.Some? && Segment(list[i].name.value) == Segment(name)
  }

  lemma {:induction false} SegmentOfValidName(name: string)
    requires forall i | 0 <= i < |name| :: IsNameChar(name[i])
    ensures Segment(name) == name
  {
    if name != "" {
      SegmentOfValidName(name[1..]);
    }
  }
}
