/** `config_write` as it runs: characters go to a stream one piece after another. */
module WriterLoop {
  import opened Wrappers
  import opened Settings
  import opened Numerals
  import opened Lexemes
  import opened Floats
  import opened Writer

  lemma Assoc(a: string, b: string, c: string)
    ensures a + (b + c) == a + b + c
  {
  }

  class Stream {
    const libc: Libc
    var text: string

    constructor (libc: Libc)
      ensures text == "" && this.libc == libc
    {
      this.libc := libc;
      text := "";
    }

    method Put(piece: string)
      modifies this
      ensures text == old(text) + piece
    {
      text := text + piece;
    }

    /** `__config_indent`. */
    method PutIndent(depth: nat, width: nat)
      requires depth > 1
      modifies this
      ensures text == old(text) + Indent(depth, width)
    {
      if width > 0 {
        Put(Spaces((depth - 1) * width));       // fprintf("%*s")
      } else {
        var i := 0;
        while i < depth - 1
          invariant 0 <= i <= depth - 1 && text == old(text) + Tabs(i)
        {
          Put("\t");
          i := i + 1;
          assert Tabs(i) == Tabs(i - 1) + "\t";
          Assoc(old(text), Tabs(i - 1), "\t");
        }
      }
    }

    /** One character of a quoted string. */
    method PutEscaped(c: char)
      modifies this
      ensures text == old(text) + Escape(c)
    {
      if c == '\"' || c == '\\' {
        Put("\\");
        Put([c]);
        Assoc(old(text), "\\", [c]);
        assert "\\" + [c] == Escape(c);
      } else if c == '\n' {
        Put("\\n");
      } else if c == '\r' {
        Put("\\r");
      } else if c == FORM_FEED {
        Put("\\f");
      } else if c == '\t' {
        Put("\\t");
      } else if c >= ' ' {
        Put([c]);
      } else {
        Put("\\x" + [DigitChar(c as nat / 16), DigitChar(c as nat % 16)]);
      }
    }

    /** A quoted string, character by character. */
    method PutString(s: string)
      modifies this
      ensures text == old(text) + WriteScalar(libc, StringV(s))
    {
      Put("\"");
      ghost var start := text;
      var i := 0;
      while i < |s|
        invariant 0 <= i <= |s|
        invariant text + EscapeAll(s[i..]) == start + EscapeAll(s)
      {
        EscapesFrom(s, i);
        Assoc(text, Escape(s[i]), EscapeAll(s[i + 1..]));
        PutEscaped(s[i]);
        i := i + 1;
      }
      Put("\"");
      assert s[i..] == "";
      Bracketed(old(text), "\"", EscapeAll(s), "\"");
    }

    /** The text of a double: `.0` if there is neither exponent nor point, otherwise no zeros at
        the end of a fraction. */
    method PutFloat(d: Double)
      modifies this
      ensures text == old(text) + FloatText(libc, d)
    {
      var buf := libc.general(d);
      if 'e' !in buf {
        if '.' !in buf {
          buf := buf + ".0";
        } else {
          ghost var all := buf;
          var p: int := |buf| - 1;
          while p > 0 && buf[p] == '0'
            invariant 0 <= p < |buf| && buf == all
            invariant KeptLength(all, p + 1) == KeptLength(all, |all|)
          {
            p := p - 1;
          }
          if p > 0 {
            buf := buf[..p + 1];
          } else {
            assert all == all[..|all|];
          }
        }
      }
      Put(buf);
    }

    /** `__config_write_value` for scalars. */
    method PutScalar(v: Value)
      requires !v.IsAggregate()
      modifies this
      ensures text == old(text) + WriteScalar(libc, v)
    {
      match v
      case BoolV(b) => Put(if b != 0 then "true" else "false");
      case IntV(i, hex) => Put(if hex then "0x" + Numeral(i % TWO32, 16) else Decimal(i));
      case Int64V(l, hex) => Put((if hex then "0x" + Numeral(l % TWO64, 16) else Decimal(l)) + "L");
      case FloatV(d) => PutFloat(d);
      case StringV(s) => PutString(s);
      case NoneV => Put("???");
    }

    /** The loop over the elements of a list or array, which counts `len` down. */
    method PutElems(list: seq<Setting>, depth: nat, width: nat)
      modifies this
      ensures text == old(text) + WriteElems(libc, list, depth, width)
      decreases list, 0
    {
      var i, len := 0, |list|;
      while len > 0
        invariant 0 <= i <= |list| && len == |list| - i
        invariant text + WriteElems(libc, list[i..], depth, width) ==
                  old(text) + WriteElems(libc, list, depth, width)
        decreases len
      {
        ElemsFrom(libc, list, i, depth, width);
        ghost var was := text;
        PutElem(list[i], depth + 1, width);
        len := len - 1;
        if len > 0 {
          Put(",");
        }
        Put(" ");
        i := i + 1;
        Joined(was, WriteElem(libc, list[i - 1], depth + 1, width), len > 0,
               WriteElems(libc, list[i..], depth, width));
      }
      assert list[i..] == [];
    }

    method PutElem(s: Setting, depth: nat, width: nat)
      modifies this
      ensures text == old(text) + WriteElem(libc, s, depth, width)
      decreases s, 2
    {
      PutValue(s.value, depth, width);
    }

    /** The loop over the members of a group. */
    method PutMembers(list: seq<Setting>, depth: nat, width: nat)
      modifies this
      ensures text == old(text) + WriteMembers(libc, list, depth, width)
      decreases list, 0
    {
      var i := 0;
      while i < |list|
        invariant 0 <= i <= |list|
        invariant text + WriteMembers(libc, list[i..], depth, width) ==
                  old(text) + WriteMembers(libc, list, depth, width)
      {
        MembersFrom(libc, list, i, depth, width);
        ghost var was := text;
        PutSetting(list[i], depth + 1, width);
        i := i + 1;
        Assoc(was, WriteSetting(libc, list[i - 1], depth + 1, width),
              WriteMembers(libc, list[i..], depth, width));
      }
      assert list[i..] == [];
    }

    method PutOpening(depth: nat, width: nat)
      modifies this
      ensures text == old(text) + Opening(depth, width)
    {
      if depth > 0 {
        Put("\n");
        if depth > 1 {
          PutIndent(depth, width);
        }
        Put("{\n");
      }
    }

    method PutClosing(depth: nat, width: nat)
      modifies this
      ensures text == old(text) + Closing(depth, width)
    {
      if depth > 1 {
        PutIndent(depth, width);
      }
      if depth > 0 {
        Put("}");
      }
    }

    method PutGroup(list: seq<Setting>, depth: nat, width: nat)
      modifies this
      ensures text == old(text) + WriteValue(libc, GroupV(list), depth, width)
      decreases list, 1
    {
      ghost var start := text;
      PutOpening(depth, width);
      PutMembers(list, depth, width);
      PutClosing(depth, width);
      Bracketed(start, Opening(depth, width), WriteMembers(libc, list, depth, width), Closing(depth, width));
    }

    /** `__config_write_value`. */
    method PutValue(v: Value, depth: nat, width: nat)
      modifies this
      ensures text == old(text) + WriteValue(libc, v, depth, width)
      decreases v, 1
    {
      ghost var start := text;
      match v {
        case ListV(list) =>
          Put("( ");
          PutElems(list, depth, width);
          Put(")");
          Bracketed(start, "( ", WriteElems(libc, list, depth, width), ")");
        case ArrayV(list) =>
          Put("[ ");
          PutElems(list, depth, width);
          Put("]");
          Bracketed(start, "[ ", WriteElems(libc, list, depth, width), "]");
        case GroupV(list) =>
          PutGroup(list, depth, width);
        case _ =>
          PutScalar(v);
      }
    }

    method PutHead(s: Setting, depth: nat, width: nat)
      modifies this
      ensures text == old(text) + Head(s, depth, width)
    {
      if depth > 1 {
        PutIndent(depth, width);
      }
      if s.name.Some? {
        Put(s.name.value);
        Put(if s.value.GroupV? then " : " else " = ");
      }
    }

    /** `__config_write_setting`. */
    method PutSetting(s: Setting, depth: nat, width: nat)
      modifies this
      ensures text == old(text) + WriteSetting(libc, s, depth, width)
      decreases s, 3
    {
      ghost var start := text;
      PutHead(s, depth, width);
      PutElem(s, depth, width);
      if depth > 0 {
        Put(";\n");
      }
      Bracketed(start, Head(s, depth, width), WriteValue(libc, s.value, depth, width), if depth > 0 then ";\n" else "");
    }
  }

  lemma Bracketed(start: string, open: string, body: string, close: string)
    ensures start + open + body + close == start + (open + body + close)
  {
  }

  lemma Joined(was: string, value: string, more: bool, others: string)
    ensures was + value + (if more then "," else "") + " " + others ==
            was + (value + (if more then ", " else " ") + others)
  {
    assert (if more then "," else "") + " " == if more then ", " else " ";
    assert was + value + (if more then "," else "") + " " ==
           was + value + ((if more then "," else "") + " ");
  }

  lemma EscapesFrom(s: string, i: nat)
    requires i < |s|
    ensures EscapeAll(s[i..]) == Escape(s[i]) + EscapeAll(s[i + 1..])
  {
    assert s[i..][1..] == s[i + 1..];
  }

  lemma ElemsFrom(libc: Libc, list: seq<Setting>, i: nat, depth: nat, width: nat)
    requires i < |list|
    ensures WriteElems(libc, list[i..], depth, width) ==
            WriteElem(libc, list[i], depth + 1, width)
            + (if i + 1 < |list| then ", " else " ") + WriteElems(libc, list[i + 1..], depth, width)
  {
    assert list[i..][1..] == list[i + 1..];
  }

  lemma MembersFrom(libc: Libc, list: seq<Setting>, i: nat, depth: nat, width: nat)
    requires i < |list|
    ensures WriteMembers(libc, list[i..], depth, width) ==
            WriteSetting(libc, list[i], depth + 1, width) + WriteMembers(libc, list[i + 1..], depth, width)
  {
    assert list[i..][1..] == list[i + 1..];
  }

  /** `config_write`. */
  method ConfigWrite(libc: Libc, members: seq<Setting>, width: nat) returns (text: string)
    ensures text == Write(libc, members, width)
  {
    var stream := new Stream(libc);
    stream.PutSetting(Setting(None, GroupV(members)), 0, width);
    text := stream.text;
  }
}
