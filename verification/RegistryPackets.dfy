/** Registry entries in packets of limited size, and the reader that takes them apart again. */
module RegistryPackets {
  import opened Wrappers
  import opened Numerals

  type byte = b: int | 0 <= b < 256

  const WORD: nat := 2
  const LONG: nat := 4
  const QUAD: nat := 8
  const HEADER := 14
  const SPLIT := 60000
  const ROOM := 60000 + 300
  const MAX_KEY := 32
  const MAX_VALUE := 254

  /** A stored value: a number, where 0 deletes, or a string, where None deletes. */
  datatype Value = Number(n: int) | Text(s: Option<seq<byte>>)

  datatype Entry = Entry(key: seq<byte>, index: nat, value: Value)

  // ----- numbers as bytes, least significant first -----

  function Bytes(v: nat, n: nat): (s: seq<byte>)
    ensures |s| == n
  {
    if n == 0 then [] else [v % 256] + Bytes(v / 256, n - 1)
  }

  function FromBytes(s: seq<byte>): nat {
    if s == [] then 0 else s[0] + 256 * FromBytes(s[1..])
  }

  function Pow256(n: nat): nat { if n == 0 then 1 else 256 * Pow256(n - 1) }

  lemma {:induction false} BytesRoundTrip(v: nat, n: nat)
    requires v < Pow256(n)
    ensures FromBytes(Bytes(v, n)) == v
  {
    if n > 0 {
      BytesRoundTrip(v / 256, n - 1);
      assert Bytes(v, n)[1..] == Bytes(v / 256, n - 1);
    }
  }

  lemma WordSizes()
    ensures Pow256(WORD) == 0x1_0000 && Pow256(LONG) == TWO32 && Pow256(QUAD) == TWO64
  {
    assert Pow256(4) == 256 * (256 * Pow256(2));
    assert Pow256(6) == 256 * (256 * Pow256(4));
    assert Pow256(8) == 256 * (256 * Pow256(6));
  }

  // ----- one entry -----

  predicate NoNul(s: seq<byte>) { forall i | 0 <= i < |s| :: s[i] != 0 }

  /** Keys and values fit their columns and are C strings. */
  predicate EntryOk(e: Entry) {
    && |e.key| <= MAX_KEY && NoNul(e.key) && e.index < TWO32
    && match e.value
       case Number(n) => Int64(n)
       case Text(None) => true
       case Text(Some(s)) => |s| <= MAX_VALUE && NoNul(s)
  }

  /** A length byte, the string and a NUL, all of which the length counts but itself. */
  function StringBytes(s: seq<byte>): seq<byte> {
    [(|s| + 1) % 256] + s + [0]
  }

  function ValueBytes(v: Value): seq<byte> {
    match v
    case Number(n) => if n != 0 then [0] + Bytes(n % TWO64, QUAD) else [1]
    case Text(Some(s)) => [2] + StringBytes(s)
    case Text(None) => [3]
  }

  function EntryBytes(e: Entry): seq<byte> {
    StringBytes(e.key) + Bytes(e.index, LONG) + ValueBytes(e.value)
  }

  function Body(entries: seq<Entry>): seq<byte> {
    if entries == [] then [] else Body(entries[..|entries| - 1]) + EntryBytes(entries[|entries| - 1])
  }

  function Header(account: nat, charId: nat, length: nat, count: nat): (h: seq<byte>)
    ensures |h| == HEADER
  {
    Bytes(0x2728, WORD) + Bytes(length, WORD) + Bytes(account, LONG) + Bytes(charId, LONG) + Bytes(count, WORD)
  }

  /** The packet with its length and count. */
  function Packet(account: nat, charId: nat, entries: seq<Entry>): seq<byte> {
    Header(account, charId, HEADER + |Body(entries)|, |entries|) + Body(entries)
  }

  lemma BodySnoc(entries: seq<Entry>, e: Entry)
    ensures Body(entries + [e]) == Body(entries) + EntryBytes(e)
  {
    assert (entries + [e])[..|entries|] == entries;
  }

  /** Writing another count or another length into a packet. */
  lemma PatchedCount(account: nat, charId: nat, length: nat, count: nat, count': nat, rest: seq<byte>)
    ensures var p := Header(account, charId, length, count) + rest;
            p[..12] + Bytes(count', WORD) + p[14..] == Header(account, charId, length, count') + rest
  {
  }

  lemma PatchedLength(account: nat, charId: nat, length: nat, count: nat, length': nat, rest: seq<byte>)
    ensures var p := Header(account, charId, length, count) + rest;
            p[..2] + Bytes(length', WORD) + p[4..] == Header(account, charId, length', count) + rest
  {
  }

  lemma EntrySize(e: Entry)
    requires EntryOk(e)
    ensures 7 <= |EntryBytes(e)| <= 295
  {
  }

  lemma {:induction false} BodySize(entries: seq<Entry>)
    requires forall i | 0 <= i < |entries| :: EntryOk(entries[i])
    ensures |Body(entries)| >= 7 * |entries|
  {
    if entries != [] {
      BodySize(entries[..|entries| - 1]);
      EntrySize(entries[|entries| - 1]);
    }
  }

  // ----- reading -----

  /** A C string ends at its first NUL. */
  function CString(s: seq<byte>): seq<byte> {
    if s == [] || s[0] == 0 then [] else [s[0]] + CString(s[1..])
  }

  lemma {:induction false} CStringOf(s: seq<byte>)
    requires NoNul(s)
    ensures CString(s + [0]) == s
  {
    if s != [] {
      assert (s + [0])[1..] == s[1..] + [0];
      CStringOf(s[1..]);
    }
  }

  /** What is read, and how many bytes that took, unless the bytes make no sense. */
  datatype StringFound = NoString | GotString(s: seq<byte>, size: nat)
  datatype ValueFound = NoValue | GotValue(value: Value, size: nat)
  datatype EntryFound = NoEntry | GotEntry(entry: Entry, size: nat)

  function ReadString(p: seq<byte>): StringFound {
    if p == [] || |p| < 1 + p[0] as int then NoString
    else GotString(CString(p[1..1 + p[0] as int]), 1 + p[0] as int)
  }

  function ReadValue(p: seq<byte>): ValueFound {
    if p == [] then NoValue
    else
      match p[0]
      case 0 => if |p| < 9 then NoValue else GotValue(Number(ToInt64(FromBytes(p[1..9]))), 9)
      case 1 => GotValue(Number(0), 1)
      case 2 =>
        (match ReadString(p[1..])
         case NoString => NoValue
         case GotString(s, size) => GotValue(Text(Some(s)), 1 + size))
      case 3 => GotValue(Text(None), 1)
      case _ => NoValue
  }

  function ReadEntry(p: seq<byte>): (r: EntryFound)
    ensures r.GotEntry? ==> r.size <= |p|
  {
    match ReadString(p)
    case NoString => NoEntry
    case GotString(key, n) =>
      if |p| < n + 4 then NoEntry
      else
        match ReadValue(p[n + 4..])
        case NoValue => NoEntry
        case GotValue(value, m) => GotEntry(Entry(key, FromBytes(p[n..n + 4]), value), n + 4 + m)
  }

  /** A way to find an entry at the start of some bytes, within those bytes. */
  type Reader = seq<byte> -> EntryFound

  ghost predicate StaysInside(read: Reader) {
    forall p :: read(p).GotEntry? ==> read(p).size <= |p|
  }

  /** `count` entries, or those before the first that makes no sense. */
  ghost function ReadList(read: Reader, p: seq<byte>, count: nat): seq<Entry>
    requires StaysInside(read)
  {
    if count == 0 then []
    else
      match read(p)
      case NoEntry => []
      case GotEntry(e, size) => [e] + ReadList(read, p[size..], count - 1)
  }

  /** `mapif_parse_Registry`'s layout. */
  ghost function ReadPacket(p: seq<byte>): seq<Entry> {
    if |p| < HEADER then [] else ReadList(ReadEntry, p[HEADER..], FromBytes(p[12..14]))
  }

  // ----- reading what was written -----

  lemma StringRead(s: seq<byte>, rest: seq<byte>)
    requires NoNul(s) && |s| < 255
    ensures ReadString(StringBytes(s) + rest) == GotString(s, |StringBytes(s)|)
  {
    var p := StringBytes(s) + rest;
    assert p[0] == |s| + 1;
    assert p[1..1 + p[0]] == s + [0];
    CStringOf(s);
  }

  lemma NumberRead(n: int, rest: seq<byte>)
    requires Int64(n) && n != 0
    ensures ReadValue([0] + Bytes(n % TWO64, QUAD) + rest) == GotValue(Number(n), 9)
  {
    var p := [0] + Bytes(n % TWO64, QUAD) + rest;
    UnsignedRoundTrip(n);
    WordSizes();
    BytesRoundTrip(n % TWO64, 8);
    assert p[1..9] == Bytes(n % TWO64, QUAD);
  }

  lemma TextRead(s: seq<byte>, rest: seq<byte>)
    requires |s| <= MAX_VALUE && NoNul(s)
    ensures ReadValue([2] + StringBytes(s) + rest) == GotValue(Text(Some(s)), 1 + |StringBytes(s)|)
  {
    var p := [2] + StringBytes(s) + rest;
    StringRead(s, rest);
    assert p[1..] == StringBytes(s) + rest;
  }

  lemma ValueRead(v: Value, rest: seq<byte>)
    requires match v
             case Number(n) => Int64(n)
             case Text(None) => true
             case Text(Some(s)) => |s| <= MAX_VALUE && NoNul(s)
    ensures ReadValue(ValueBytes(v) + rest) == GotValue(v, |ValueBytes(v)|)
  {
    match v
    case Number(n) =>
      if n != 0 {
        NumberRead(n, rest);
      }
    case Text(None) =>
    case Text(Some(s)) => TextRead(s, rest);
  }

  lemma EntryRead(e: Entry, rest: seq<byte>)
    requires EntryOk(e)
    ensures ReadEntry(EntryBytes(e) + rest) == GotEntry(e, |EntryBytes(e)|)
  {
    var p := EntryBytes(e) + rest;
    var k := |StringBytes(e.key)|;
    assert p == StringBytes(e.key) + (Bytes(e.index, LONG) + (ValueBytes(e.value) + rest));
    StringRead(e.key, Bytes(e.index, LONG) + (ValueBytes(e.value) + rest));
    assert p[k..k + 4] == Bytes(e.index, LONG);
    assert p[k + 4..] == ValueBytes(e.value) + rest;
    WordSizes();
    BytesRoundTrip(e.index, 4);
    ValueRead(e.value, rest);
  }

  lemma {:induction false} BodyFirst(entries: seq<Entry>)
    requires entries != []
    ensures Body(entries) == EntryBytes(entries[0]) + Body(entries[1..])
  {
    var before, last := entries[..|entries| - 1], entries[|entries| - 1];
    assert entries == before + [last];
    BodySnoc(before, last);
    if |entries| > 1 {
      BodyFirst(before);
      assert entries[1..] == before[1..] + [last];
      BodySnoc(before[1..], last);
      SameBytes(EntryBytes(entries[0]), Body(before[1..]), EntryBytes(last));
    } else {
      assert before == [] && entries[1..] == [] && Body(before) == [];
    }
  }

  function Concat(pieces: seq<seq<byte>>): seq<byte> {
    if pieces == [] then [] else pieces[0] + Concat(pieces[1..])
  }

  function Pieces(entries: seq<Entry>): seq<seq<byte>> {
    seq(|entries|, i requires 0 <= i < |entries| => EntryBytes(entries[i]))
  }

  lemma {:induction false} BodyIsConcat(entries: seq<Entry>)
    ensures Body(entries) == Concat(Pieces(entries))
  {
    if entries != [] {
      BodyFirst(entries);
      BodyIsConcat(entries[1..]);
      assert Pieces(entries)[1..] == Pieces(entries[1..]);
    }
  }

  /** Pieces that say themselves where they end are read back one after the other. */
  lemma {:induction false} ConcatRead(read: Reader, pieces: seq<seq<byte>>, entries: seq<Entry>)
    requires StaysInside(read) && |pieces| == |entries|
    requires forall i, rest | 0 <= i < |entries| :: read(pieces[i] + rest) == GotEntry(entries[i], |pieces[i]|)
    ensures ReadList(read, Concat(pieces), |entries|) == entries
    decreases |entries|
  {
    if entries != [] {
      DropFirst(pieces[0], Concat(pieces[1..]));
      ConcatRead(read, pieces[1..], entries[1..]);
    }
  }

  lemma BodyRead(entries: seq<Entry>)
    requires forall i | 0 <= i < |entries| :: EntryOk(entries[i])
    ensures ReadList(ReadEntry, Body(entries), |entries|) == entries
  {
    var pieces := Pieces(entries);
    forall i, rest | 0 <= i < |entries|
      ensures ReadEntry(pieces[i] + rest) == GotEntry(entries[i], |pieces[i]|)
    {
      EntryRead(entries[i], rest);
    }
    BodyIsConcat(entries);
    ConcatRead(ReadEntry, pieces, entries);
  }

  lemma DropFirst(a: seq<byte>, b: seq<byte>)
    ensures (a + b)[|a|..] == b
  {
  }

  lemma SliceOfPrefix(s: seq<byte>, end: nat, at: nat)
    requires at + 2 <= end <= |s|
    ensures s[..end][at..at + 2] == s[at..at + 2]
  {
  }

  lemma TakeNext(s: seq<Entry>, i: nat)
    requires i < |s|
    ensures s[..i + 1] == s[..i] + [s[i]]
  {
  }

  lemma SameBytes(a: seq<byte>, b: seq<byte>, c: seq<byte>)
    ensures a + b + c == a + (b + c)
  {
  }

  /** The header says whose entries the packet holds. */
  ghost predicate IsFor(p: seq<byte>, account: nat, charId: nat) {
    |p| >= HEADER && FromBytes(p[..2]) == 0x2728 && FromBytes(p[4..8]) == account && FromBytes(p[8..12]) == charId
  }

  lemma HeaderRead(account: nat, charId: nat, length: nat, count: nat, rest: seq<byte>)
    requires account < TWO32 && charId < TWO32
    ensures IsFor(Header(account, charId, length, count) + rest, account, charId)
  {
    var p := Header(account, charId, length, count) + rest;
    WordSizes();
    BytesRoundTrip(0x2728, WORD);
    BytesRoundTrip(account, LONG);
    BytesRoundTrip(charId, LONG);
    assert p[..2] == Bytes(0x2728, WORD) && p[4..8] == Bytes(account, LONG) && p[8..12] == Bytes(charId, LONG);
  }

  /** A packet's length and count are right, and reading it gives back its entries. */
  lemma PacketRead(account: nat, charId: nat, entries: seq<Entry>)
    requires forall i | 0 <= i < |entries| :: EntryOk(entries[i])
    requires HEADER + |Body(entries)| <= ROOM
    ensures var p := Packet(account, charId, entries);
            && |p| == HEADER + |Body(entries)| && FromBytes(p[2..4]) == |p|
            && FromBytes(p[12..14]) == |entries| && ReadPacket(p) == entries
  {
    var p := Packet(account, charId, entries);
    BodySize(entries);
    WordSizes();
    BytesRoundTrip(HEADER + |Body(entries)|, WORD);
    BytesRoundTrip(|entries|, WORD);
    assert p[2..4] == Bytes(HEADER + |Body(entries)|, WORD);
    assert p[12..14] == Bytes(|entries|, WORD);
    assert p[HEADER..] == Body(entries);
    BodyRead(entries);
  }

  // ----- writing in place -----

  function Flatten(packets: seq<seq<Entry>>): seq<Entry> {
    if packets == [] then [] else Flatten(packets[..|packets| - 1]) + packets[|packets| - 1]
  }

  lemma PacketFields(account: nat, charId: nat, entries: seq<Entry>, p: seq<byte>)
    requires forall i | 0 <= i < |entries| :: EntryOk(entries[i])
    requires HEADER + |Body(entries)| <= ROOM && p == Packet(account, charId, entries)
    ensures |p| == HEADER + |Body(entries)|
    ensures FromBytes(p[2..4]) == HEADER + |Body(entries)| && FromBytes(p[12..14]) == |entries|
  {
    PacketRead(account, charId, entries);
  }

  /** What a reader of all packets gets. */
  ghost function ReadAll(packets: seq<seq<byte>>): seq<Entry> {
    if packets == [] then [] else ReadAll(packets[..|packets| - 1]) + ReadPacket(packets[|packets| - 1])
  }

  /** The connection to the login-server: a packet under construction and those sent. */
  class LoginLink {
    const account: nat
    const charId: nat
    const fifo: array<byte>
    var sent: seq<seq<byte>>
    ghost var chunks: seq<seq<Entry>>     // the entries of each packet sent
    ghost var pending: seq<Entry>         // those in the packet under construction

    ghost predicate Fits(chunk: seq<Entry>)
    {
      && (forall i | 0 <= i < |chunk| :: EntryOk(chunk[i])) && HEADER + |Body(chunk)| <= ROOM
    }

    /** The packets sent and the one under construction hold these entries. */
    ghost predicate Holding(chunks: seq<seq<Entry>>, pending: seq<Entry>)
      reads this, fifo
    {
      && fifo.Length == ROOM && |sent| == |chunks|
      && (forall k | 0 <= k < |chunks| :: Fits(chunks[k]) && sent[k] == Packet(account, charId, chunks[k]))
      && Fits(pending) && fifo[..HEADER + |Body(pending)|] == Packet(account, charId, pending)
    }

    /** The packet under construction has not become too long. */
    ghost predicate Valid()
      reads this, fifo
    {
      Holding(chunks, pending) && HEADER + |Body(pending)| <= SPLIT
    }

    /** The entries written so far. */
    ghost function Entries(): seq<Entry>
      reads this
    {
      Flatten(chunks) + pending
    }

    constructor (account: nat, charId: nat)
      ensures this.account == account && this.charId == charId
      ensures Valid() && Entries() == [] && sent == [] && fresh(fifo)
    {
      this.account := account;
      this.charId := charId;
      fifo := new byte[ROOM](_ => 0);
      sent := [];
      chunks := [];
      pending := [];
      new;
      Prepare();
    }

    /** Copies bytes to a place in the buffer. */
    method Put(at: nat, bytes: seq<byte>)
      requires at + |bytes| <= fifo.Length
      modifies fifo
      ensures fifo[..] == old(fifo[..at]) + bytes + old(fifo[at + |bytes|..])
    {
      ghost var was := fifo[..];
      for i := 0 to |bytes|
        invariant fifo[..] == was[..at] + bytes[..i] + was[at + i..]
      {
        fifo[at + i] := bytes[i];
        assert bytes[..i + 1] == bytes[..i] + [bytes[i]];
      }
      assert bytes[..|bytes|] == bytes;
    }

    /** `chlogif_upd_global_accreg`: the header of an empty packet. */
    method Prepare()
      requires fifo.Length == ROOM
      modifies fifo
      ensures fifo[..HEADER] == Packet(account, charId, [])
    {
      Put(0, Bytes(0x2728, WORD));
      Put(2, Bytes(HEADER, WORD));
      Put(4, Bytes(account, LONG));
      Put(8, Bytes(charId, LONG));
      Put(12, Bytes(0, WORD));
      assert fifo[..HEADER] ==
          Bytes(0x2728, WORD) + Bytes(HEADER, WORD) + Bytes(account, LONG) + Bytes(charId, LONG) + Bytes(0, WORD);
    }

    /** A 16-bit field of the header. */
    method Field(at: nat, ghost end: nat) returns (n: nat)
      requires at + 2 <= end <= fifo.Length
      ensures n == FromBytes(fifo[..end][at..at + 2])
    {
      SliceOfPrefix(fifo[..], end, at);
      assert fifo[..][..end] == fifo[..end] && fifo[..][at..at + 2] == fifo[at..at + 2];
      n := FromBytes(fifo[at..at + 2]);
    }

    /** The length field while the packet is under construction. */
    method Length() returns (n: nat)
      requires Valid()
      ensures n == HEADER + |Body(pending)|
    {
      ghost var end := HEADER + |Body(pending)|;
      PacketFields(account, charId, pending, fifo[..end]);
      n := Field(2, end);
    }

    method Count() returns (n: nat)
      requires Valid()
      ensures n == |pending|
    {
      ghost var end := HEADER + |Body(pending)|;
      PacketFields(account, charId, pending, fifo[..end]);
      n := Field(12, end);
    }

    /** Copies bytes behind what is there. */
    method Append(at: nat, bytes: seq<byte>) returns (end: nat)
      requires at + |bytes| <= fifo.Length
      modifies fifo
      ensures end == at + |bytes| && fifo[..end] == old(fifo[..at]) + bytes
    {
      Put(at, bytes);
      end := at + |bytes|;
      assert fifo[..end] == fifo[..][..end];
    }

    /** A length byte and the string with its NUL. */
    method AppendString(at: nat, s: seq<byte>) returns (end: nat)
      requires |s| < 255 && at + |StringBytes(s)| <= fifo.Length
      modifies fifo
      ensures end == at + |StringBytes(s)| && fifo[..end] == old(fifo[..at]) + StringBytes(s)
    {
      ghost var before := fifo[..at];
      end := Append(at, [(|s| + 1) as byte]);
      end := Append(end, s + [0]);
      SameBytes([(|s| + 1) as byte], s, [0]);
      SameBytes(before, [(|s| + 1) as byte], s + [0]);
    }

    method AppendValue(at: nat, v: Value) returns (end: nat)
      requires at + |ValueBytes(v)| <= fifo.Length
      requires match v case Text(Some(s)) => |s| < 255 case _ => true
      modifies fifo
      ensures end == at + |ValueBytes(v)| && fifo[..end] == old(fifo[..at]) + ValueBytes(v)
    {
      ghost var before := fifo[..at];
      match v
      case Text(Some(s)) =>
        end := Append(at, [2]);
        end := AppendString(end, s);
        SameBytes(before, [2], StringBytes(s));
      case Text(None) => end := Append(at, [3]);
      case Number(n) => end := AppendNumber(at, n);
    }

    method AppendNumber(at: nat, n: int) returns (end: nat)
      requires at + |ValueBytes(Number(n))| <= fifo.Length
      modifies fifo
      ensures end == at + |ValueBytes(Number(n))| && fifo[..end] == old(fifo[..at]) + ValueBytes(Number(n))
    {
      ghost var before := fifo[..at];
      if n != 0 {
        end := Append(at, [0]);
        end := Append(end, Bytes(n % TWO64, QUAD));
        SameBytes(before, [0], Bytes(n % TWO64, QUAD));
      } else {
        end := Append(at, [1]);
      }
    }

    /** An entry's bytes behind what is there. */
    method AppendEntry(at: nat, e: Entry) returns (end: nat)
      requires EntryOk(e) && at + |EntryBytes(e)| <= fifo.Length
      modifies fifo
      ensures end == at + |EntryBytes(e)| && fifo[..end] == old(fifo[..at]) + EntryBytes(e)
    {
      end := AppendString(at, e.key);
      end := Append(end, Bytes(e.index, LONG));
      end := AppendValue(end, e.value);
    }

    /** Overwrites bytes in front of `end`. */
    method Patch(at: nat, bytes: seq<byte>, end: nat)
      requires at + |bytes| <= end <= fifo.Length
      modifies fifo
      ensures fifo[..end] == old(fifo[..at]) + bytes + old(fifo[at + |bytes|..end])
    {
      ghost var was := fifo[..];
      Put(at, bytes);
      assert fifo[..end] == fifo[..][..end];
      assert was[at + |bytes|..][..end - at - |bytes|] == was[at + |bytes|..end];
    }

    method SetCount(count: nat, end: nat, ghost length: nat, ghost was: nat, ghost rest: seq<byte>)
      requires HEADER <= end <= fifo.Length && fifo[..end] == Header(account, charId, length, was) + rest
      modifies fifo
      ensures fifo[..end] == Header(account, charId, length, count) + rest
    {
      ghost var p := fifo[..end];
      Patch(12, Bytes(count, WORD), end);
      PatchedCount(account, charId, length, was, count, rest);
      assert fifo[..end] == p[..12] + Bytes(count, WORD) + p[14..];
    }

    method SetLength(length: nat, end: nat, ghost was: nat, ghost count: nat, ghost rest: seq<byte>)
      requires HEADER <= end <= fifo.Length && fifo[..end] == Header(account, charId, was, count) + rest
      modifies fifo
      ensures fifo[..end] == Header(account, charId, length, count) + rest
    {
      ghost var p := fifo[..end];
      Patch(2, Bytes(length, WORD), end);
      PatchedLength(account, charId, was, count, length, rest);
      assert fifo[..end] == p[..2] + Bytes(length, WORD) + p[4..];
    }

    /** Writes the length and the count of a packet that has got one more entry. */
    method CloseEntry(ghost before: seq<Entry>, e: Entry, count: nat, end: nat)
      requires fifo.Length == ROOM && HEADER <= end <= ROOM && count == |before|
      requires end == HEADER + |Body(before)| + |EntryBytes(e)|
      requires fifo[..end] == Packet(account, charId, before) + EntryBytes(e)
      modifies fifo
      ensures fifo[..end] == Packet(account, charId, before + [e])
    {
      ghost var rest := Body(before) + EntryBytes(e);
      ghost var length := HEADER + |Body(before)|;
      SameBytes(Header(account, charId, length, count), Body(before), EntryBytes(e));
      SetCount(count + 1, end, length, count, rest);
      SetLength(end, end, length, count + 1, rest);
      BodySnoc(before, e);
    }

    method WriteBytes(e: Entry) returns (end: nat)
      requires Valid() && EntryOk(e)
      modifies fifo
      ensures end == HEADER + |Body(pending + [e])| <= ROOM && fifo[..end] == Packet(account, charId, pending + [e])
    {
      var at := Length();
      var count := Count();
      assert |EntryBytes(e)| <= 295 by { EntrySize(e); }
      assert fifo[..at] == Packet(account, charId, pending);
      end := AppendEntry(at, e);
      CloseEntry(pending, e, count, end);
      BodySnoc(pending, e);
    }

    /** An entry goes into the packet under construction. */
    method Write(e: Entry) returns (end: nat)
      requires Valid() && EntryOk(e)
      modifies `pending, fifo
      ensures Holding(chunks, pending) && pending == old(pending) + [e] && end == HEADER + |Body(pending)|
    {
      end := WriteBytes(e);
      pending := pending + [e];
    }

    /** `chlogif_send_global_accreg`: adds an entry, and sends the packet once it is long. */
    method Add(e: Entry)
      requires Valid() && EntryOk(e)
      modifies this, fifo
      ensures Valid() && Entries() == old(Entries()) + [e]
    {
      var end := Write(e);
      assert Flatten(chunks) + pending == old(Entries()) + [e];
      if end > SPLIT {
        Flush(end);
      }
    }

    /** Sends the packet and starts another. */
    method Flush(end: nat)
      requires Holding(chunks, pending) && end == HEADER + |Body(pending)|
      modifies this, fifo
      ensures Valid() && Entries() == old(Entries())
    {
      Send(end);
      Prepare();
    }

    /** `chlogif_prepsend_global_accreg`. */
    method Send(end: nat)
      requires Holding(chunks, pending) && end == HEADER + |Body(pending)|
      modifies `sent, `chunks, `pending
      ensures |sent| == |chunks| && pending == [] && Entries() == old(Entries())
      ensures sent == old(sent) + [fifo[..end]]
      ensures forall k | 0 <= k < |chunks| :: Fits(chunks[k]) && sent[k] == Packet(account, charId, chunks[k])
    {
      sent := sent + [fifo[..end]];
      chunks := chunks + [pending];
      pending := [];
      assert chunks[..|chunks| - 1] == old(chunks);
      assert Flatten(chunks) + [] == Flatten(chunks);
    }
  }

  lemma {:induction false} ReadChunks(account: nat, charId: nat, packets: seq<seq<byte>>, chunks: seq<seq<Entry>>)
    requires |packets| == |chunks|
    requires forall k | 0 <= k < |chunks| ::
               && (forall i | 0 <= i < |chunks[k]| :: EntryOk(chunks[k][i]))
               && HEADER + |Body(chunks[k])| <= ROOM && packets[k] == Packet(account, charId, chunks[k])
    ensures ReadAll(packets) == Flatten(chunks)
  {
    if packets != [] {
      var last := |packets| - 1;
      ReadChunks(account, charId, packets[..last], chunks[..last]);
      PacketRead(account, charId, chunks[last]);
    }
  }

  lemma PacketsAreFor(account: nat, charId: nat, packets: seq<seq<byte>>, chunks: seq<seq<Entry>>)
    requires |packets| == |chunks|
    requires forall k | 0 <= k < |chunks| :: packets[k] == Packet(account, charId, chunks[k])
    ensures account < TWO32 && charId < TWO32 ==> forall k | 0 <= k < |packets| :: IsFor(packets[k], account, charId)
  {
    if account < TWO32 && charId < TWO32 {
      forall k | 0 <= k < |packets| ensures IsFor(packets[k], account, charId) {
        var chunk := chunks[k];
        HeaderRead(account, charId, HEADER + |Body(chunk)|, |chunk|, Body(chunk));
      }
    }
  }

  /** The length and count fields say what the packet holds, and it is not too long. */
  ghost predicate WellFormed(p: seq<byte>) {
    HEADER <= |p| <= ROOM && FromBytes(p[2..4]) == |p| && FromBytes(p[12..14]) == |ReadPacket(p)|
  }

  /** `mapif_parse_Registry` with entries for the login-server: whatever they are, the packets
      are well formed and reading them one after another gives back the entries in order. */
  method SendAll(account: nat, charId: nat, entries: seq<Entry>) returns (packets: seq<seq<byte>>)
    requires forall i | 0 <= i < |entries| :: EntryOk(entries[i])
    ensures ReadAll(packets) == entries
    ensures forall k | 0 <= k < |packets| :: WellFormed(packets[k])
    ensures account < TWO32 && charId < TWO32 ==> forall k | 0 <= k < |packets| :: IsFor(packets[k], account, charId)
  {
    var link := new LoginLink(account, charId);
    for i := 0 to |entries|
      invariant link.Valid() && link.Entries() == entries[..i] && fresh(link) && fresh(link.fifo)
      invariant link.account == account && link.charId == charId
    {
      link.Add(entries[i]);
      TakeNext(entries, i);
    }
    assert entries[..|entries|] == entries;
    packets := Finish(link, entries);
  }

  /** The last packet goes out. */
  method Finish(link: LoginLink, ghost entries: seq<Entry>) returns (packets: seq<seq<byte>>)
    requires link.Valid() && link.Entries() == entries
    modifies link
    ensures ReadAll(packets) == entries
    ensures forall k | 0 <= k < |packets| :: WellFormed(packets[k])
    ensures link.account < TWO32 && link.charId < TWO32 ==>
              forall k | 0 <= k < |packets| :: IsFor(packets[k], link.account, link.charId)
  {
    var end := link.Length();
    link.Send(end);
    packets := link.sent;
    ReadChunks(link.account, link.charId, packets, link.chunks);
    assert Flatten(link.chunks) + [] == Flatten(link.chunks);
    forall k | 0 <= k < |packets| ensures WellFormed(packets[k]) {
      PacketRead(link.account, link.charId, link.chunks[k]);
    }
    PacketsAreFor(link.account, link.charId, packets, link.chunks);
  }

  /** What a reader that has got this far ends up with. */
  ghost function Remaining(read: Reader, packet: seq<byte>, cursor: nat, count: nat, before: seq<Entry>): seq<Entry>
    requires StaysInside(read) && cursor <= |packet|
    decreases count
  {
    if count == 0 then before
    else
      match read(packet[cursor..])
      case NoEntry => before
      case GotEntry(e, size) => Remaining(read, packet, cursor + size, count - 1, before + [e])
  }

  lemma {:induction false} RemainingIs(read: Reader, packet: seq<byte>, cursor: nat, count: nat, before: seq<Entry>)
    requires StaysInside(read) && cursor <= |packet|
    ensures Remaining(read, packet, cursor, count, before) == before + ReadList(read, packet[cursor..], count)
    decreases count
  {
    if count > 0 {
      var p := packet[cursor..];
      match read(p)
      case NoEntry =>
      case GotEntry(e, size) =>
        assert Remaining(read, packet, cursor, count, before) ==
            Remaining(read, packet, cursor + size, count - 1, before + [e]);
        assert ReadList(read, p, count) == [e] + ReadList(read, p[size..], count - 1);
        RemainingIs(read, packet, cursor + size, count - 1, before + [e]);
        SliceOfSlice(packet, cursor, size);
        Prepended(before, e, ReadList(read, p[size..], count - 1));
    }
  }

  lemma SliceOfSlice(packet: seq<byte>, cursor: nat, n: nat)
    requires cursor + n <= |packet|
    ensures packet[cursor..][n..] == packet[cursor + n..]
  {
  }

  lemma Prepended(before: seq<Entry>, e: Entry, rest: seq<Entry>)
    ensures before + ([e] + rest) == before + [e] + rest
  {
  }

  /** The reader's cursor loop, whatever reads a single entry. */
  method ParseEntries(read: Reader, packet: seq<byte>, start: nat, count: nat) returns (entries: seq<Entry>)
    requires StaysInside(read) && start <= |packet|
    ensures entries == ReadList(read, packet[start..], count)
  {
    entries := [];
    var cursor: nat, i: nat := start, 0;
    ghost var left: nat := count;
    RemainingIs(read, packet, start, count, []);
    while i < count
      invariant left == count - i && cursor <= |packet|
      invariant Remaining(read, packet, cursor, left, entries) == Remaining(read, packet, start, count, [])
    {
      var r := read(packet[cursor..]);
      if r.NoEntry? {
        return;
      }
      entries := entries + [r.entry];
      cursor := cursor + r.size;
      i := i + 1;
      left := left - 1;
    }
  }

  /** `mapif_parse_Registry` on one packet. */
  method ParseRegistry(packet: seq<byte>) returns (entries: seq<Entry>)
    ensures entries == ReadPacket(packet)
  {
    if |packet| < HEADER {
      return [];
    }
    entries := ParseEntries(ReadEntry, packet, HEADER, FromBytes(packet[12..14]));
  }

  /** Where everything stands in an entry, and what tells the kinds of values apart. */
  lemma EntryLayout(e: Entry)
    requires EntryOk(e)
    ensures var p, k := EntryBytes(e), |e.key|;
            && |p| >= k + 7 && p[0] == k + 1 && p[1..k + 1] == e.key && p[k + 1] == 0
            && p[k + 2] as int + 0x100 * (p[k + 3] as int) + 0x1_0000 * (p[k + 4] as int)
               + 0x100_0000 * (p[k + 5] as int) == e.index
            && match e.value
               case Number(n) => if n != 0 then p[k + 6] == 0 && |p| == k + 15 else p[k + 6..] == [1]
               case Text(Some(s)) => p[k + 6..] == [2, (|s| + 1) % 256] + s + [0]
               case Text(None) => p[k + 6..] == [3]
  {
    var p, k := EntryBytes(e), |e.key|;
    assert p == [k + 1] + e.key + [0] + Bytes(e.index, LONG) + ValueBytes(e.value);
    assert p[k + 2..k + 6] == Bytes(e.index, LONG) && p[k + 6..] == ValueBytes(e.value);
    FourBytes(e.index, p[k + 2..k + 6]);
  }

  /** The least significant byte comes first. */
  lemma FourBytes(v: nat, s: seq<byte>)
    requires v < TWO32 && s == Bytes(v, LONG)
    ensures s[0] as int + 0x100 * (s[1] as int) + 0x1_0000 * (s[2] as int) + 0x100_0000 * (s[3] as int) == v
  {
    var a := v / 256;
    var b := a / 256;
    var c := b / 256;
    assert s[0] == v % 256 && s[1..] == Bytes(a, 3);
    assert s[1] == a % 256 && s[1..][1..] == Bytes(b, 2);
    assert s[2] == b % 256 && s[1..][1..][1..] == Bytes(c, 1);
    assert s[3] == c % 256 && c < 256;
  }
}
