/**
 Message sets with bytes changed on the way. The CRC-32 catches every change to up to four
 consecutive bytes that leaves the field boundaries where they were, and one that does not
 reach the checksum, because the attributes now ask for a decompression, ends in an error too.
 */
module Corruption {
  import opened Bytes
  import opened Crc32
  import opened Wire
  import opened Decoder
  import opened MessageFormat
  import opened MessageCodec
  import opened SetRoundTrip
  import opened Truncation

  /** s with the bytes from an offset replaced. */
  function Alter(s: seq<byte>, at: nat, patch: seq<byte>): (r: seq<byte>)
    requires at + |patch| <= |s|
    ensures |r| == |s|
  {
    s[..at] + patch + s[at + |patch|..]
  }

  /**
   The parts of a message record a change may fall in without moving a field boundary: stored
   checksum, magic and attributes bytes, key bytes or value bytes.
   */
  predicate InOnePart(key: seq<byte>, value: seq<byte>, at: nat, n: nat) {
    || at + n <= 4
    || (4 <= at && at + n <= 6)
    || (10 <= at && at + n <= 10 + |key|)
    || (14 + |key| <= at && at + n <= 14 + |key| + |value|)
  }

  lemma {:induction false} FromBigEndianInjective(a: seq<byte>, b: seq<byte>)
    requires |a| == |b| && FromBigEndian(a) == FromBigEndian(b)
    ensures a == b
  {
    if a != [] {
      var n := |a| - 1;
      FromBigEndianInjective(a[..n], b[..n]);
      assert a == a[..n] + [a[n]] && b == b[..n] + [b[n]];
    }
  }

  lemma DecodeIntInjective(a: seq<byte>, b: seq<byte>)
    requires |a| == |b| && DecodeInt(a) == DecodeInt(b)
    ensures a == b
  {
    FromBigEndianInjective(a, b);
  }

  // ---------- what a change leaves ----------

  lemma AlterInside(a: seq<byte>, b: seq<byte>, c: seq<byte>, at: nat, patch: seq<byte>)
    requires at + |patch| <= |b|
    ensures Alter(a + (b + c), |a| + at, patch) == a + (Alter(b, at, patch) + c)
  {}

  lemma AlterChangesCrc(s: seq<byte>, at: nat, patch: seq<byte>)
    requires at + |patch| <= |s| && |patch| <= 4 && Alter(s, at, patch) != s
    ensures Crc(Alter(s, at, patch)) != Crc(s)
  {
    hide Crc;
    assert s == s[..at] + s[at..at + |patch|] + s[at + |patch|..];
    CrcBurst(s[..at], s[at..at + |patch|], patch, s[at + |patch|..]);
  }

  lemma AlteredHead(
      attributes: byte, key: seq<byte>, field: seq<byte>, at: nat, patch: seq<byte>)
    returns (magic: byte, attributes': byte)
    requires at + |patch| <= 2
    ensures Alter(Body(0, attributes, key, field), at, patch) == Body(magic, attributes', key, field)
  {
    hide Alter, Sized;
    var head := Alter([0, attributes], at, patch);
    var rest := Sized(key, 4) + field;
    assert Body(0, attributes, key, field) == [] + ([0, attributes] + rest);
    AlterInside([], [0, attributes], rest, at, patch);
    magic, attributes' := head[0], head[1];
    assert [] + (head + rest) == Body(magic, attributes', key, field);
  }

  lemma AlteredKey(attributes: byte, key: seq<byte>, field: seq<byte>, at: nat, patch: seq<byte>)
    requires at + |patch| <= |key| && key != []
    ensures at + 6 + |patch| <= |Body(0, attributes, key, field)|
    ensures Alter(Body(0, attributes, key, field), at + 6, patch) == Body(0, attributes, Alter(key, at, patch), field)
  {
    hide EncodeInt, Alter;
    var a := [0] + ([attributes] + EncodeInt(|key|, 4));
    assert Body(0, attributes, key, field) == a + (key + field);
    assert Body(0, attributes, Alter(key, at, patch), field) == a + (Alter(key, at, patch) + field);
    AlterInside(a, key, field, at, patch);
  }

  lemma AlteredValue(attributes: byte, key: seq<byte>, value: seq<byte>, at: nat, patch: seq<byte>)
    requires at + |patch| <= |value| && value != []
    ensures at + 6 + |Sized(key, 4)| + |patch| <= |Body(0, attributes, key, Sized(value, 4))|
    ensures Alter(Body(0, attributes, key, Sized(value, 4)), at + 6 + |Sized(key, 4)|, patch) ==
      Body(0, attributes, key, Sized(Alter(value, at, patch), 4))
  {
    hide EncodeInt, Alter;
    var k := Sized(key, 4);
    var a := [0] + ([attributes] + (k + EncodeInt(|value|, 4)));
    assert Body(0, attributes, key, Sized(value, 4)) == a + (value + []);
    assert Body(0, attributes, key, Sized(Alter(value, at, patch), 4)) == a + (Alter(value, at, patch) + []);
    AlterInside(a, value, [], at, patch);
  }

  /** The attributes byte is among those changed. */
  predicate Touches(at: nat, n: nat) {
    at <= 5 < at + n
  }

  /** A change outside the checksum gives the body of another message. */
  lemma AlteredBody(attributes: byte, key: seq<byte>, value: seq<byte>, at: nat, patch: seq<byte>)
    returns (magic: byte, attributes': byte, key': seq<byte>, value': seq<byte>)
    requires InOnePart(key, value, at, |patch|) && 4 <= at && |patch| > 0
    ensures at - 4 + |patch| <= |Body(0, attributes, key, Sized(value, 4))|
    ensures Alter(Body(0, attributes, key, Sized(value, 4)), at - 4, patch) ==
      Body(magic, attributes', key', Sized(value', 4))
    ensures |key'| == |key| && |value'| == |value| && (Touches(at, |patch|) || attributes' == attributes)
  {
    hide EncodeInt, Body, Alter;
    magic, attributes', key', value' := 0, attributes, key, value;
    assert |Sized(key, 4)| == 4 + |key| && |Sized(value, 4)| == 4 + |value|;
    if at + |patch| <= 6 {
      magic, attributes' := AlteredHead(attributes, key, Sized(value, 4), at - 4, patch);
      KeptAttributes(attributes, key, Sized(value, 4), at - 4, patch, magic, attributes');
    } else if at + |patch| <= 10 + |key| {
      key' := Alter(key, at - 10, patch);
      AlteredKey(attributes, key, Sized(value, 4), at - 10, patch);
    } else {
      value' := Alter(value, at - 14 - |key|, patch);
      AlteredValue(attributes, key, value, at - 14 - |key|, patch);
    }
  }

  lemma KeptAttributes(
      attributes: byte, key: seq<byte>, field: seq<byte>, at: nat, patch: seq<byte>, magic: byte, attributes': byte)
    requires at + |patch| <= 2
    requires Alter(Body(0, attributes, key, field), at, patch) == Body(magic, attributes', key, field)
    ensures at + |patch| <= 1 ==> attributes' == attributes
  {
    hide Sized;
    if at + |patch| <= 1 {
      assert Alter(Body(0, attributes, key, field), at, patch)[1] == attributes;
      assert Body(magic, attributes', key, field)[1] == attributes';
    }
  }

  // ---------- reading it ----------

  /**
   A value field read as any attributes may ask: an error, the whole field, or, for no known
   compression, just its length.
   */
  lemma ValueOutcome(libs: Libraries, d: Dec, c: CompressionType, value: seq<byte>)
    requires |value| <= MAX_BYTES && At(d, Sized(value, 4))
    ensures var r := ReadValue(libs, d, c).0;
      || r.err == ErrCompressFail || r.err == Fault
      || (r.Ok() && r.cursor == d.cursor + |Sized(value, 4)|)
      || (c == CompInvalid && r == Skip(d, 4))
    ensures c == CompNone ==> ReadValue(libs, d, c).0 == Skip(d, |Sized(value, 4)|)
  {
    hide ReadNum, ReadSlice, EncodeInt, Padded, At;
    Widths();
    assert Sized(value, 4) + [] == Sized(value, 4);
    ReadSizedAt(d, value, 4, []);
    if value == [] {
      MinusOne(4);
      ReadNumAt(d, -1, 4, []);
    } else {
      ReadNumAt(d, |value|, 4, value);
      assert value + [] == value;
      ReadSliceAt(Skip(d, 4), value, []);
      CanReadAt(Skip(d, 4), value);
    }
  }

  lemma CanReadAt(d: Dec, s: seq<byte>)
    requires At(d, s)
    ensures CanRead(d, |s|) == d
  {
    Remaining(d, |s|);
  }

  /** How a changed record is refused. */
  predicate Refusal(e: Err) {
    e == ErrChecksumFail || e == ErrCompressFail || e == Fault
  }

  /** A record that does not carry its own checksum is refused, unless its attributes name no compression at all. */
  lemma WrongChecksum(
      libs: Libraries, d: Dec, crc: seq<byte>, magic: byte, attributes: byte, key: seq<byte>, value: seq<byte>,
      offset: int)
    requires |crc| == 4 && |key| <= MAX_BYTES && |value| <= MAX_BYTES
    requires At(d, crc + Body(magic, attributes, key, Sized(value, 4)))
    requires DecodeInt(crc) != Crc(Body(magic, attributes, key, Sized(value, 4)))
    ensures var (r, m) := ReadMessage(libs, d, offset);
      Refusal(r.err) || (r.Ok() && r.last == d.last && m.compression == CompInvalid)
    ensures FromCode(attributes) == CompNone ==> ReadMessage(libs, d, offset).0.err == ErrChecksumFail
  {
    hide ReadMessage, ReadValue, Sized, DecodeInt, Crc, At, Body, EndCrc, FromCode;
    var field, c := Sized(value, 4), FromCode(attributes);
    var d3 := Skip(d, 6 + |Sized(key, 4)|);
    ReadHead(libs, d, crc, magic, attributes, key, field, offset);
    ValueOutcome(libs, d3, c, value);
    AtOk(d3, field);
    var (after, read) := ReadValue(libs, d3, c);
    if !after.Ok() {
      Stuck(libs, after);
    } else if after.cursor == d3.cursor + |field| {
      ReadRecord(libs, d, crc, magic, attributes, key, field, read, after, offset);
    } else {
      SumOnly(after, d.cursor);
    }
  }

  /** Whatever end_crc is given, it finds an error or changes nothing. */
  lemma SumOnly(d: Dec, field: nat)
    requires d.Ok()
    ensures var r := EndCrc(d, field); r.err == Fault || r.err == ErrChecksumFail || r == d
  {
    hide ReadNum, Crc;
  }

  /** The stored checksum and the body after a change, which no longer agree. */
  lemma AlteredRecord(attributes: byte, key: seq<byte>, value: seq<byte>, at: nat, patch: seq<byte>)
    returns (crc: seq<byte>, magic: byte, attributes': byte, key': seq<byte>, value': seq<byte>)
    requires |patch| <= 4 && InOnePart(key, value, at, |patch|)
    ensures var record := Record(Body(0, attributes, key, Sized(value, 4)));
      && at + |patch| <= |record|
      && |crc| == 4 && |key'| == |key| && |value'| == |value| && (Touches(at, |patch|) || attributes' == attributes)
      && (Alter(record, at, patch) != record ==>
            var body' := Body(magic, attributes', key', Sized(value', 4));
            Alter(record, at, patch) == crc + body' && DecodeInt(crc) != Crc(body'))
  {
    hide Crc, EncodeInt, DecodeInt, Body, Alter;
    var body := Body(0, attributes, key, Sized(value, 4));
    assert |body| == 10 + |key| + |value| by {
      assert |Sized(key, 4)| == 4 + |key| && |Sized(value, 4)| == 4 + |value|;
    }
    crc, magic, attributes', key', value' := EncodeInt(Crc(body), 4), 0, attributes, key, value;
    if at + |patch| <= 4 {
      crc := AlteredSum(body, at, patch);
    } else if |patch| > 0 {
      magic, attributes', key', value' := AlteredBody(attributes, key, value, at, patch);
      AlteredRest(body, at, patch);
    } else {
      NoChange(Record(body), at, patch);
    }
  }

  lemma NoChange(s: seq<byte>, at: nat, patch: seq<byte>)
    requires patch == [] && at <= |s|
    ensures Alter(s, at, patch) == s
  {}

  /** The change is in the stored checksum. */
  lemma AlteredSum(body: seq<byte>, at: nat, patch: seq<byte>) returns (crc: seq<byte>)
    requires at + |patch| <= 4
    ensures |crc| == 4 && at + |patch| <= |Record(body)| && Alter(Record(body), at, patch) == crc + body
    ensures Alter(Record(body), at, patch) != Record(body) ==> DecodeInt(crc) != Crc(body)
  {
    hide Crc, EncodeInt, DecodeInt, Alter;
    var stored := EncodeInt(Crc(body), 4);
    crc := Alter(stored, at, patch);
    assert Record(body) == [] + (stored + body);
    AlterInside([], stored, body, at, patch);
    assert [] + (crc + body) == crc + body;
    IntRoundTrip(Crc(body), 4);
    if DecodeInt(crc) == Crc(body) { DecodeIntInjective(crc, stored); }
  }

  /** The change is in what the checksum covers. */
  lemma AlteredRest(body: seq<byte>, at: nat, patch: seq<byte>)
    requires 4 <= at && |patch| <= 4 && at - 4 + |patch| <= |body|
    ensures var stored := EncodeInt(Crc(body), 4);
      && at + |patch| <= |Record(body)| && Alter(Record(body), at, patch) == stored + Alter(body, at - 4, patch)
      && (Alter(Record(body), at, patch) != Record(body) ==> DecodeInt(stored) != Crc(Alter(body, at - 4, patch)))
  {
    hide Crc, EncodeInt, DecodeInt, Alter;
    var stored := EncodeInt(Crc(body), 4);
    assert Record(body) == stored + (body + []);
    AlterInside(stored, body, [], at - 4, patch);
    assert stored + (Alter(body, at - 4, patch) + []) == stored + Alter(body, at - 4, patch);
    IntRoundTrip(Crc(body), 4);
    if Alter(body, at - 4, patch) != body { AlterChangesCrc(body, at - 4, patch); }
  }

  /** The decode loop at an entry whose record was changed: it stops there, and nothing is added. */
  lemma AlteredEntry(
      libs: Libraries, d: Dec, start: nat, offset: int, len: seq<byte>, attributes: byte, key: seq<byte>,
      value: seq<byte>, at: nat, patch: seq<byte>, rest: seq<byte>, s: MSet, depth: nat)
    requires |key| <= MAX_BYTES && |value| <= MAX_BYTES && Fits(offset, 8) && |len| == 4 && d.last.None?
    requires |patch| <= 4 && InOnePart(key, value, at, |patch|)
    requires at + |patch| <= |Record(Body(0, attributes, key, Sized(value, 4)))|
    requires var record := Record(Body(0, attributes, key, Sized(value, 4)));
      Alter(record, at, patch) != record && At(d, EncodeInt(offset, 8) + (len + (Alter(record, at, patch) + rest)))
    ensures var (r, t) := DecodeSet(libs, d, start, s, -1, depth);
      t == s && Refusal(r.err)
        && (!Touches(at, |patch|) && FromCode(attributes) == CompNone ==> r.err == ErrChecksumFail)
  {
    hide ReadMessage, ReadNum, EncodeInt, At, Record, Body, InOnePart, FromCode, Crc, Sized, Alter, DecodeInt;
    var bad := Alter(Record(Body(0, attributes, key, Sized(value, 4))), at, patch);
    var crc, magic, attributes', key', value' := AlteredRecord(attributes, key, value, at, patch);
    ReadNumAt(d, offset, 8, len + (bad + rest));
    AtSkip(Skip(d, 8), len, bad + rest);
    var e := Skip(Skip(d, 8), 4);
    AtSkip(e, bad, rest);
    WrongChecksum(libs, e, crc, magic, attributes', key', value', offset);
    AtOk(d, EncodeInt(offset, 8) + (len + (bad + rest)));
  }

  // ---------- whole sets ----------

  /** Where the record of message k starts in the encoded set. */
  function RecordStart(ms: seq<Message>, k: nat): nat
    requires k < |ms|
  {
    |PlainBytes(ms[..k])| + 12
  }

  lemma SplitAtRecord(ms: seq<Message>, k: nat)
    requires k < |ms|
    ensures PlainBytes(ms) ==
      PlainBytes(ms[..k])
      + (EncodeInt(ms[k].offset, 8)
         + (EncodeInt(|PlainRecord(ms[k])|, 4) + (PlainRecord(ms[k]) + PlainBytes(ms[k + 1..]))))
  {
    hide PlainRecord, EncodeInt;
    assert ms == ms[..k] + ms[k..];
    PlainBytesAppend(ms[..k], ms[k..]);
    assert ms[k..][1..] == ms[k + 1..];
  }

  /** A change inside the record of an entry changes that record and nothing else. */
  lemma AlterEntry(
      before: seq<byte>, offset: seq<byte>, len: seq<byte>, record: seq<byte>, rest: seq<byte>, at: nat,
      patch: seq<byte>)
    requires |offset| == 8 && |len| == 4 && at + |patch| <= |record|
    ensures
      var whole := before + (offset + (len + (record + rest)));
      var bad := Alter(record, at, patch);
      && |before| + 12 + at + |patch| <= |whole|
      && Alter(whole, |before| + 12 + at, patch) == before + (offset + (len + (bad + rest)))
      && (bad == record ==> Alter(whole, |before| + 12 + at, patch) == whole)
  {
    hide Alter;
    var head, bad := before + (offset + len), Alter(record, at, patch);
    assert before + (offset + (len + (record + rest))) == head + (record + rest);
    AlterInside(head, record, rest, at, patch);
    assert head + (bad + rest) == before + (offset + (len + (bad + rest)));
  }

  /**
   Changing up to four consecutive bytes of the checksum, the magic and attributes bytes, the key
   or the value of any message ends decoding in an error, with the messages before it added and
   it and everything after it left out. Unless the attributes changed, the error is
   ERR_CHECKSUM_FAIL.
   */
  lemma AlteredSet(libs: Libraries, ms: seq<Message>, k: nat, at: nat, patch: seq<byte>, s: MSet, depth: nat)
    requires AllPlain(ms) && k < |ms| && |PlainBytes(ms)| < TWO64 && |patch| <= 4
      && InOnePart(ms[k].key, ms[k].value, at, |patch|)
    ensures RecordStart(ms, k) + at + |patch| <= |PlainBytes(ms)|
    ensures
      var altered := Alter(PlainBytes(ms), RecordStart(ms, k) + at, patch);
      var (d, t) := DecodeBuffer(libs, altered, s, depth);
      altered != PlainBytes(ms) ==>
        && t == PushAll(libs, s, ms[..k])
        && (if Touches(at, |patch|) then Refusal(d.err) else d.err == ErrChecksumFail)
  {
    hide DecodeSet, PlainBytes, EncodeInt, PushAll, InOnePart, Alter, Record, Body, Touches;
    var m := ms[k];
    var offset, len := EncodeInt(m.offset, 8), EncodeInt(|PlainRecord(m)|, 4);
    var before, record, rest := PlainBytes(ms[..k]), PlainRecord(m), PlainBytes(ms[k + 1..]);
    var _, _, _, _, _ := AlteredRecord(Code(CompNone), m.key, m.value, at, patch);
    SplitAtRecord(ms, k);
    AlterEntry(before, offset, len, record, rest, at, patch);
    var altered := Alter(PlainBytes(ms), RecordStart(ms, k) + at, patch);
    if altered != PlainBytes(ms) {
      AlteredAt(libs, ms[..k], m, at, patch, rest, altered, s, depth);
    }
  }

  /** Messages, then an entry whose record was changed, then anything. */
  lemma AlteredAt(
      libs: Libraries, ms: seq<Message>, m: Message, at: nat, patch: seq<byte>, rest: seq<byte>, altered: seq<byte>,
      s: MSet, depth: nat)
    requires AllPlain(ms) && Plain(m) && |patch| <= 4 && InOnePart(m.key, m.value, at, |patch|)
      && at + |patch| <= |PlainRecord(m)|
    requires Alter(PlainRecord(m), at, patch) != PlainRecord(m) && |altered| < TWO64
    requires altered ==
      PlainBytes(ms)
      + (EncodeInt(m.offset, 8) + (EncodeInt(|PlainRecord(m)|, 4) + (Alter(PlainRecord(m), at, patch) + rest)))
    ensures var (d, t) := DecodeBuffer(libs, altered, s, depth);
      t == PushAll(libs, s, ms) && (if Touches(at, |patch|) then Refusal(d.err) else d.err == ErrChecksumFail)
  {
    hide DecodeSet, PlainBytes, EncodeInt, PushAll, InOnePart, Alter, Record, Body, Touches, At, Sized, Refusal;
    var d, before := FromBuffer(altered), PlainBytes(ms);
    var entry := EncodeInt(m.offset, 8) + (EncodeInt(|PlainRecord(m)|, 4) + (Alter(PlainRecord(m), at, patch) + rest));
    AtWhole(altered);
    AtSkip(d, before, entry);
    DecodePlain(libs, d, 0, s, -1, depth, ms);
    FromCodeCode(CompNone);
    AlteredEntry(libs, Skip(d, |before|), 0, m.offset, EncodeInt(|PlainRecord(m)|, 4), Code(CompNone), m.key, m.value,
        at, patch, rest, PushAll(libs, s, ms), depth);
  }

  // ---------- what no checksum protects ----------

  lemma {:induction false} PushAllAppend(libs: Libraries, s: MSet, a: seq<Message>, b: seq<Message>)
    ensures PushAll(libs, s, a + b) == PushAll(libs, PushAll(libs, s, a), b)
    decreases |a|
  {
    hide Push;
    if a == [] {
      assert a + b == b;
    } else {
      assert (a + b)[1..] == a[1..] + b;
      PushAllAppend(libs, Push(libs, s, a[0]), a[1..], b);
    }
  }

  /** An entry with any offset and any length before its record. */
  lemma AnyHead(libs: Libraries, d: Dec, s: MSet, depth: nat, m: Message, offset: seq<byte>, len: seq<byte>)
    requires Plain(m) && |offset| == 8 && |len| == 4 && At(d, offset + (len + PlainRecord(m)))
    ensures DecodeSet(libs, d, 0, s, -1, depth) ==
      DecodeSet(libs, Skip(d, 12 + |PlainRecord(m)|), 0, Push(libs, s, m.(offset := DecodeInt(offset))), -1, depth)
  {
    hide ReadNum, ReadMessage, At, Push, EncodeInt, Crc, Body, DecodeInt;
    var n := m.(offset := DecodeInt(offset));
    AtOk(d, offset + (len + PlainRecord(m)));
    AtSkip(d, offset, len + PlainRecord(m));
    ReadRaw(d, offset);
    AtSkip(Skip(d, 8), len, PlainRecord(m));
    assert PlainRecord(n) == PlainRecord(m);
    hide Record;
    ReadPlainRecord(libs, Skip(Skip(d, 8), 4), n);
  }

  /**
   The twelve bytes before a record are read as they come: with any others in their place the
   set decodes without error to the same messages, but for the offset they give.
   */
  lemma UncheckedHead(libs: Libraries, ms: seq<Message>, k: nat, offset: seq<byte>, len: seq<byte>, s: MSet, depth: nat)
    requires AllPlain(ms) && k < |ms| && |PlainBytes(ms)| < TWO64 && |offset| == 8 && |len| == 4
    ensures RecordStart(ms, k) <= |PlainBytes(ms)|
    ensures
      var changed := Alter(PlainBytes(ms), RecordStart(ms, k) - 12, offset + len);
      var (d, t) := DecodeBuffer(libs, changed, s, depth);
      d.Ok() && t == PushAll(libs, s, ms[k := ms[k].(offset := DecodeInt(offset))])
  {
    hide DecodeSet, PlainBytes, EncodeInt, PushAll, PlainRecord, DecodeInt;
    var m := ms[k];
    var o, l := EncodeInt(m.offset, 8), EncodeInt(|PlainRecord(m)|, 4);
    var before, record, rest := PlainBytes(ms[..k]), PlainRecord(m), PlainBytes(ms[k + 1..]);
    SplitAtRecord(ms, k);
    var changed := before + (offset + (len + (record + rest)));
    HeadChanged(before, o, l, offset, len, record + rest);
    var d := FromBuffer(changed);
    AtWhole(changed);
    AtSkip(d, before, offset + (len + (record + rest)));
    DecodePlain(libs, d, 0, s, -1, depth, ms[..k]);
    HeadThenRest(libs, Skip(d, |before|), PushAll(libs, s, ms[..k]), depth, m, offset, len, ms[k + 1..]);
    var n := m.(offset := DecodeInt(offset));
    assert ms[k := n] == ms[..k] + ([n] + ms[k + 1..]);
    PushAllAppend(libs, s, ms[..k], [n] + ms[k + 1..]);
  }

  lemma HeadChanged(before: seq<byte>, o: seq<byte>, l: seq<byte>, offset: seq<byte>, len: seq<byte>, rest: seq<byte>)
    requires |o| == |offset| == 8 && |l| == |len| == 4
    ensures Alter(before + (o + (l + rest)), |before|, offset + len) == before + (offset + (len + rest))
  {}

  lemma HeadThenRest(
      libs: Libraries, d: Dec, s: MSet, depth: nat, m: Message, offset: seq<byte>, len: seq<byte>, ms: seq<Message>)
    requires Plain(m) && AllPlain(ms) && |offset| == 8 && |len| == 4
    requires At(d, offset + (len + (PlainRecord(m) + PlainBytes(ms))))
      && d.size == d.cursor + 12 + |PlainRecord(m)| + |PlainBytes(ms)|
    ensures var (r, t) := DecodeSet(libs, d, 0, s, -1, depth);
      r.Ok() && t == PushAll(libs, s, [m.(offset := DecodeInt(offset))] + ms)
  {
    hide DecodeSet, PlainBytes, PlainRecord, Push, DecodeInt, AllPlain;
    var n, record, rest := m.(offset := DecodeInt(offset)), PlainRecord(m), PlainBytes(ms);
    assert offset + (len + (record + rest)) == (offset + (len + record)) + rest;
    AtSkip(d, offset + (len + record), rest);
    AnyHead(libs, d, s, depth, m, offset, len);
    var e := Skip(d, 12 + |record|);
    DecodePlain(libs, e, 0, Push(libs, s, n), -1, depth, ms);
    assert ([n] + ms)[1..] == ms && ([n] + ms)[0] == n;
    AtOk(e, rest);
    NothingLeft(libs, Skip(e, |rest|), 0, PushAll(libs, Push(libs, s, n), ms), depth);
  }

  // ---------- compressed sets ----------

  lemma WrapperIs(c: CompressionType, out: seq<byte>)
    requires out != []
    ensures WrapperRecord(c, out) == Record(Body(0, Code(c), [], Sized(out, 4)))
  {}

  /**
   A compressed set with up to four consecutive bytes of its checksum, its magic and attributes
   bytes or its compressed payload changed: an error, and not one message is added.
   */
  lemma AlteredWrapper(libs: Libraries, s: MSet, at: nat, patch: seq<byte>, into: MSet, depth: nat)
    requires Lawful(libs) && (s.compression == CompGzip || s.compression == CompSnappy)
    requires |Compressed(libs, s)| <= MAX_BYTES && |patch| <= 4 && InOnePart([], Compressed(libs, s), at, |patch|)
    ensures 12 + at + |patch| <= |SetBytes(libs, s)|
    ensures
      var altered := Alter(SetBytes(libs, s), 12 + at, patch);
      var (d, t) := DecodeBuffer(libs, altered, into, depth);
      altered != SetBytes(libs, s) ==> t == into && Refusal(d.err)
  {
    hide DecodeSet, EncodeInt, InOnePart, Alter, Record, Body, Compressed, Lawful, WrapperRecord, Entry;
    var c, out := s.compression, Compressed(libs, s);
    SomeOutput(libs, s);
    WrapperIs(c, out);
    var record := WrapperRecord(c, out);
    EntryParts(record);
    var _, _, _, _, _ := AlteredRecord(Code(c), [], out, at, patch);
    AlterEntry([], EncodeInt(0, 8), EncodeInt(|record|, 4), record, [], at, patch);
    var altered := Alter(SetBytes(libs, s), 12 + at, patch);
    if altered != SetBytes(libs, s) {
      AlteredOnly(libs, c, out, at, patch, altered, into, depth);
    }
  }

  lemma SomeOutput(libs: Libraries, s: MSet)
    requires Lawful(libs)
    ensures Compressed(libs, s) != []
  {
    hide PlainBytes;
  }

  lemma EntryParts(record: seq<byte>)
    ensures Entry(0, record) == [] + (EncodeInt(0, 8) + (EncodeInt(|record|, 4) + (record + [])))
  {
    hide EncodeInt;
    assert record + [] == record;
  }

  lemma AlteredOnly(
      libs: Libraries, c: CompressionType, out: seq<byte>, at: nat, patch: seq<byte>, altered: seq<byte>, into: MSet,
      depth: nat)
    requires 0 < |out| <= MAX_BYTES && |patch| <= 4 && InOnePart([], out, at, |patch|)
      && at + |patch| <= |WrapperRecord(c, out)|
    requires var record := WrapperRecord(c, out);
      Alter(record, at, patch) != record
        && altered == [] + (EncodeInt(0, 8) + (EncodeInt(|record|, 4) + (Alter(record, at, patch) + [])))
    ensures var (d, t) := DecodeBuffer(libs, altered, into, depth); t == into && Refusal(d.err)
  {
    hide DecodeSet, EncodeInt, InOnePart, Alter, Record, Body, WrapperRecord, At, Refusal;
    WrapperIs(c, out);
    SmallWrapper(c, out);
    Widths();
    var record := WrapperRecord(c, out);
    assert altered == EncodeInt(0, 8) + (EncodeInt(|record|, 4) + (Alter(record, at, patch) + []));
    AtWhole(altered);
    AlteredEntry(libs, FromBuffer(altered), 0, 0, EncodeInt(|record|, 4), Code(c), [], out, at, patch, [], into, depth);
  }

  lemma SmallWrapper(c: CompressionType, out: seq<byte>)
    requires |out| <= MAX_BYTES
    ensures 12 + |WrapperRecord(c, out)| < TWO64
  {
    hide Crc, EncodeInt;
  }

  /** A compressed set cut short adds nothing; the cut ends the decode as it does for any entry. */
  lemma CutWrapper(libs: Libraries, s: MSet, cut: nat, into: MSet, depth: nat)
    requires Lawful(libs) && (s.compression == CompGzip || s.compression == CompSnappy)
    requires |Compressed(libs, s)| <= MAX_BYTES && cut < |SetBytes(libs, s)|
    ensures
      var (d, t) := DecodeBuffer(libs, SetBytes(libs, s)[..cut], into, depth);
      t == into && d.err == if Overruns(cut) then Fault else ErrNone
  {
    var c, out := s.compression, Compressed(libs, s);
    assert out != [];
    hide DecodeSet, EncodeInt, Record, Body, Compressed, Lawful, Entry;
    PackedCutShort(libs, c, out);
    var d := FromBuffer(SetBytes(libs, s)[..cut]);
    SmallWrapper(c, out);
    EntrySize(0, WrapperRecord(c, out));
    AtWhole(d.buf);
    FragmentLeft(libs, d, 0, into, depth, 0, c, [], EncodeInt(|out|, 4) + out, d.buf);
  }

  lemma EntrySize(offset: int, record: seq<byte>)
    ensures |Entry(offset, record)| == 12 + |record|
  {}
}
