/** What decoding gives back for encoded message sets: whole, cut short, altered or compressed. */
module MessageCodec {
  import opened Bytes
  import opened Crc32
  import opened Wire
  import opened Decoder
  import opened MessageFormat

  // ---------- the bytes of a message ----------

  /** What the checksum covers: magic byte, attributes, key and value field. */
  function Body(magic: byte, attributes: byte, key: seq<byte>, field: seq<byte>): (b: seq<byte>)
    ensures |b| == 2 + |Sized(key, 4)| + |field|
  {
    [magic] + ([attributes] + (Sized(key, 4) + field))
  }

  function Record(body: seq<byte>): seq<byte> {
    EncodeInt(Crc(body), 4) + body
  }

  function Entry(offset: int, record: seq<byte>): seq<byte> {
    EncodeInt(offset, 8) + (EncodeInt(|record|, 4) + record)
  }

  function PlainRecord(m: Message): seq<byte> {
    Record(Body(0, Code(CompNone), m.key, Sized(m.value, 4)))
  }

  function PlainBytes(ms: seq<Message>): seq<byte> {
    if ms == [] then [] else Entry(ms[0].offset, PlainRecord(ms[0])) + PlainBytes(ms[1..])
  }

  /** A message push accepts and the format can carry. */
  predicate Plain(m: Message) {
    m.compression == CompNone && |m.key| <= MAX_BYTES && |m.value| <= MAX_BYTES && Fits(m.offset, 8)
  }

  predicate AllPlain(ms: seq<Message>) {
    forall i :: 0 <= i < |ms| ==> Plain(ms[i])
  }

  lemma OneByte(n: byte)
    ensures EncodeInt(n, 1) == [n]
  {
    Widths();
    assert BigEndian(n, 1) == BigEndian(n / 256, 0) + [n % 256];
  }

  lemma EncodeBody(libs: Libraries, m: Message, field: seq<byte>)
    requires |m.key| <= MAX_BYTES && Encode(libs, ValueItems(m)) == Packet(field)
    ensures Encode(libs, MessageItems(m)) == Packet(Record(Body(0, Code(m.compression), m.key, field)))
  {
    OneByte(0);
    OneByte(Code(m.compression));
    hide EncodeInt, Crc, Sized, Encode;
    var c, k, v := Num(Code(m.compression), 1), Blob(m.key), ValueItems(m);
    var items := [Num(0, 1), c, k] + v;
    assert items == [Num(0, 1)] + ([c] + ([k] + v));
    EncodeCons(libs, Num(0, 1), [c] + ([k] + v));
    EncodeCons(libs, c, [k] + v);
    EncodeCons(libs, k, v);
    assert Encode(libs, items) == Packet(Body(0, Code(m.compression), m.key, field));
    EncodeOne(libs, Check(items));
  }

  lemma EncodeEntry(libs: Libraries, m: Message, field: seq<byte>)
    requires |m.key| <= MAX_BYTES && Encode(libs, ValueItems(m)) == Packet(field)
    ensures Encode(libs, EntryItems(m)) == Packet(Entry(m.offset, Record(Body(0, Code(m.compression), m.key, field))))
  {
    EncodeBody(libs, m, field);
    assert EntryItems(m)[1..] == [Len(MessageItems(m))];
    EncodeOne(libs, Len(MessageItems(m)));
  }

  lemma {:induction false} EncodePlain(libs: Libraries, ms: seq<Message>)
    requires AllPlain(ms)
    ensures Encode(libs, PlainItems(ms)) == Packet(PlainBytes(ms))
  {
    if ms != [] {
      EncodeOne(libs, Blob(ms[0].value));
      EncodeEntry(libs, ms[0], Sized(ms[0].value, 4));
      EncodePlain(libs, ms[1..]);
      EncodeAppend(libs, EntryItems(ms[0]), PlainItems(ms[1..]));
    }
  }

  // ---------- reading one message ----------

  lemma FromCodeCode(c: CompressionType)
    ensures FromCode(Code(c)) == c
  {}

  /** Only the two low bits of the attributes matter, whatever their sign. */
  lemma FromCodeByte(attributes: byte)
    ensures FromCode(DecodeInt([attributes])) == FromCode(attributes)
  {
    Widths();
    assert FromBigEndian([attributes]) == 256 * FromBigEndian([]) + attributes;
  }

  /** A record up to its value field: what is left is to read that and to check the sum. */
  lemma ReadHead(
      libs: Libraries, d: Dec, crc: seq<byte>, magic: byte, attributes: byte, key: seq<byte>, field: seq<byte>,
      offset: int)
    requires |crc| == 4 && |key| <= MAX_BYTES && At(d, crc + Body(magic, attributes, key, field))
    ensures At(Skip(d, 6 + |Sized(key, 4)|), field)
    ensures
      var (after, value) := ReadValue(libs, Skip(d, 6 + |Sized(key, 4)|), FromCode(attributes));
      ReadMessage(libs, d, offset) == (EndCrc(after, d.cursor), Message(key, value, offset, FromCode(attributes)))
  {
    hide ReadNum, ReadSized, ReadValue, EndCrc, At, Sized, DecodeInt, FromCode;
    var rest := Sized(key, 4) + field;
    AtSkip(d, crc, [magic] + ([attributes] + rest));
    var d0 := Skip(d, 4);
    AtSkip(d0, [magic], [attributes] + rest);
    ReadRaw(d0, [magic]);
    var d1 := Skip(d0, 1);
    AtSkip(d1, [attributes], rest);
    ReadRaw(d1, [attributes]);
    FromCodeByte(attributes);
    var d2 := Skip(d1, 1);
    Widths();
    ReadSizedAt(d2, key, 4, field);
    assert Skip(d2, |Sized(key, 4)|) == Skip(d, 6 + |Sized(key, 4)|);
  }

  /**
   A message whose value field reads as value decodes, and is accepted exactly when the
   stored checksum is the checksum of the bytes between the field and the cursor.
   */
  lemma ReadRecord(libs: Libraries, d: Dec, crc: seq<byte>, magic: byte, attributes: byte, key: seq<byte>,
                   field: seq<byte>, value: seq<byte>, after: Dec, offset: int)
    requires |crc| == 4 && |key| <= MAX_BYTES
    requires At(d, crc + Body(magic, attributes, key, field))
    requires ReadValue(libs, Skip(d, 6 + |Sized(key, 4)|), FromCode(attributes)) == (after, value)
    requires after.Ok() && after.cursor == d.cursor + 6 + |Sized(key, 4)| + |field|
    ensures ReadMessage(libs, d, offset) ==
      (if DecodeInt(crc) == Crc(Body(magic, attributes, key, field)) then after else after.(err := ErrChecksumFail),
       Message(key, value, offset, FromCode(attributes)))
  {
    hide ReadMessage, Sized, At, Crc, EndCrc, DecodeInt;
    ReadHead(libs, d, crc, magic, attributes, key, field, offset);
    EndCrcAt(d, crc, Body(magic, attributes, key, field), after);
  }

  lemma EndCrcAt(d: Dec, crc: seq<byte>, body: seq<byte>, after: Dec)
    requires |crc| == 4 && body != [] && At(d, crc + body)
    requires after.Ok() && after.buf == d.buf && after.size == d.size && after.cursor == d.cursor + 4 + |body|
    ensures EndCrc(after, d.cursor) == if DecodeInt(crc) == Crc(body) then after else after.(err := ErrChecksumFail)
  {
    AtSkip(d, crc, body);
    ReadRaw(after.(cursor := d.cursor), crc);
    assert after.buf[d.cursor + 4..after.cursor] == body;
  }

  lemma ReadPlainRecord(libs: Libraries, d: Dec, m: Message)
    requires Plain(m) && At(d, PlainRecord(m))
    ensures ReadMessage(libs, d, m.offset) == (Skip(d, |PlainRecord(m)|), m)
  {
    hide ReadMessage, ReadSized, EncodeInt, DecodeInt, Crc, At, Sized;
    var field := Sized(m.value, 4);
    var body := Body(0, Code(CompNone), m.key, field);
    var crc := EncodeInt(Crc(body), 4);
    var d3 := Skip(d, 6 + |Sized(m.key, 4)|);
    ReadHead(libs, d, crc, 0, Code(CompNone), m.key, field, m.offset);
    Widths();
    assert field + [] == field;
    ReadSizedAt(d3, m.value, 4, []);
    IntRoundTrip(Crc(body), 4);
    ReadRecord(libs, d, crc, 0, Code(CompNone), m.key, field, m.value, Skip(d3, |field|), m.offset);
  }

  lemma ReadEntryHead(d: Dec, offset: int, record: seq<byte>)
    requires Fits(offset, 8) && At(d, Entry(offset, record))
    ensures ReadNum(d, 8) == (Skip(d, 8), offset) && At(Skip(Skip(d, 8), 4), record)
  {
    ReadNumAt(d, offset, 8, EncodeInt(|record|, 4) + record);
    AtSkip(Skip(d, 8), EncodeInt(|record|, 4), record);
  }

  lemma DecodeOne(libs: Libraries, d: Dec, start: nat, s: MSet, limit: int, depth: nat, m: Message)
    requires Plain(m) && At(d, Entry(m.offset, PlainRecord(m))) && More(d, start, limit)
    ensures DecodeSet(libs, d, start, s, limit, depth)
      == DecodeSet(libs, Skip(d, |Entry(m.offset, PlainRecord(m))|), start, Push(libs, s, m), limit, depth)
  {
    hide ReadNum, ReadMessage, At, PlainRecord, Push, EncodeInt;
    assert |Entry(m.offset, PlainRecord(m))| == 12 + |PlainRecord(m)|;
    ReadEntryHead(d, m.offset, PlainRecord(m));
    ReadPlainRecord(libs, Skip(Skip(d, 8), 4), m);
  }

  /** Encoded messages are decoded one after the other, up to the embedding length if there is one. */
  lemma {:induction false} DecodePlain(
      libs: Libraries, d: Dec, start: nat, s: MSet, limit: int, depth: nat, ms: seq<Message>)
    requires AllPlain(ms) && At(d, PlainBytes(ms))
    requires limit == -1 || (start <= d.cursor && d.cursor - start + |PlainBytes(ms)| <= limit < TWO64)
    ensures DecodeSet(libs, d, start, s, limit, depth)
      == DecodeSet(libs, Skip(d, |PlainBytes(ms)|), start, PushAll(libs, s, ms), limit, depth)
    decreases |ms|
  {
    hide DecodeSet, PlainRecord, EncodeInt, At, Push;
    if ms != [] {
      var entry := Entry(ms[0].offset, PlainRecord(ms[0]));
      AtSkip(d, entry, PlainBytes(ms[1..]));
      if limit != -1 {
        ModSmall(d.cursor - start, TWO64);
        ModSmall(limit, TWO64);
      }
      DecodeOne(libs, d, start, s, limit, depth, ms[0]);
      DecodePlain(libs, Skip(d, |entry|), start, Push(libs, s, ms[0]), limit, depth, ms[1..]);
      assert Skip(Skip(d, |entry|), |PlainBytes(ms[1..])|) == Skip(d, |PlainBytes(ms)|);
    }
  }

  // ---------- a trailing fragment ----------

  /** After an error every read is a no-op. */
  lemma Stuck(libs: Libraries, d: Dec)
    requires !d.Ok()
    ensures forall k :: ReadNum(d, k) == (d, 0)
    ensures forall k :: ReadSized(d, k) == (d, [])
    ensures forall c :: ReadValue(libs, d, c) == (d, [])
    ensures forall field :: EndCrc(d, field) == d
  {}

  lemma ErrorSticks(libs: Libraries, d: Dec, offset: int)
    requires !d.Ok()
    ensures ReadMessage(libs, d, offset).0 == Skip(d, 4)
  {}

  /** frag is a proper prefix of s and is all that is left to read. */
  predicate Left(d: Dec, frag: seq<byte>, s: seq<byte>) {
    At(d, frag) && d.size == |d.buf| == d.cursor + |frag| && |frag| < |s| && frag == s[..|frag|]
  }

  lemma LeftSkip(d: Dec, frag: seq<byte>, a: seq<byte>, b: seq<byte>)
    requires Left(d, frag, a + b)
    ensures |frag| < |a| ==> Left(d, frag, a)
    ensures |frag| >= |a| ==> At(d, a) && Left(Skip(d, |a|), frag[|a|..], b)
  {
    if |frag| < |a| {
      assert (a + b)[..|frag|] == a[..|frag|];
    } else {
      assert frag == a + frag[|a|..] by {
        assert frag[..|a|] == (a + b)[..|frag|][..|a|] == a;
      }
      AtSkip(d, a, frag[|a|..]);
      assert (a + b)[|a|..] == b;
      assert frag[|a|..] == (a + b)[..|frag|][|a|..] == b[..|frag| - |a|];
    }
  }

  lemma ReadSizedShort(d: Dec, s: seq<byte>, k: nat, frag: seq<byte>)
    requires 0 < k < TWO64 && Fits(|s|, k) && |s| < TWO64 && Left(d, frag, Sized(s, k))
    ensures ReadSized(d, k).0.err == ErrTruncated
  {
    if |frag| < k {
      ReadNumShort(d, k);
    } else {
      LeftSkip(d, frag, EncodeInt(|s|, k), s);
      assert EncodeInt(|s|, k) + [] == EncodeInt(|s|, k);
      ReadNumAt(d, |s|, k, []);
      Remaining(Skip(d, k), |s|);
    }
  }

  /** Whatever part of the value field is missing, reading it is a truncation. */
  ghost predicate CutShort(libs: Libraries, c: CompressionType, field: seq<byte>) {
    forall d: Dec, frag: seq<byte> :: Left(d, frag, field) ==> ReadValue(libs, d, c).0.err == ErrTruncated
  }

  lemma PlainCutShort(libs: Libraries, value: seq<byte>)
    requires |value| <= MAX_BYTES
    ensures CutShort(libs, CompNone, Sized(value, 4))
  {
    hide Sized, Left, ReadSized;
    Widths();
    forall d: Dec, frag: seq<byte> | Left(d, frag, Sized(value, 4))
      ensures ReadValue(libs, d, CompNone).0.err == ErrTruncated
    {
      ReadSizedShort(d, value, 4, frag);
    }
  }

  lemma PackedCutShort(libs: Libraries, c: CompressionType, out: seq<byte>)
    requires c == CompGzip || c == CompSnappy
    requires 0 < |out| <= MAX_BYTES
    ensures CutShort(libs, c, EncodeInt(|out|, 4) + out)
  {
    hide EncodeInt, Left, ReadNum;
    Widths();
    forall d: Dec, frag: seq<byte> | Left(d, frag, EncodeInt(|out|, 4) + out)
      ensures ReadValue(libs, d, c).0.err == ErrTruncated
    {
      PackedShort(libs, d, c, out, frag);
    }
  }

  lemma PackedShort(libs: Libraries, d: Dec, c: CompressionType, out: seq<byte>, frag: seq<byte>)
    requires c == CompGzip || c == CompSnappy
    requires 0 < |out| <= MAX_BYTES && Left(d, frag, EncodeInt(|out|, 4) + out)
    ensures ReadValue(libs, d, c).0.err == ErrTruncated
  {
    hide EncodeInt, ReadNum;
    Widths();
    if |frag| < 4 {
      ReadNumShort(d, 4);
    } else {
      LeftSkip(d, frag, EncodeInt(|out|, 4), out);
      assert EncodeInt(|out|, 4) + [] == EncodeInt(|out|, 4);
      ReadNumAt(d, |out|, 4, []);
      Remaining(Skip(d, 4), |out|);
    }
  }

  lemma KeyFieldShort(libs: Libraries, d: Dec, c: CompressionType, key: seq<byte>, field: seq<byte>, frag: seq<byte>)
    requires |key| <= MAX_BYTES && CutShort(libs, c, field) && Left(d, frag, Sized(key, 4) + field)
    ensures ReadValue(libs, ReadSized(d, 4).0, c).0.err == ErrTruncated
  {
    hide Sized, ReadNum, ReadSlice, ReadSized, ReadValue;
    Widths();
    LeftSkip(d, frag, Sized(key, 4), field);
    if |frag| < |Sized(key, 4)| {
      ReadSizedShort(d, key, 4, frag);
      Stuck(libs, ReadSized(d, 4).0);
    } else {
      assert Sized(key, 4) + [] == Sized(key, 4);
      ReadSizedAt(d, key, 4, []);
    }
  }

  /** A record cut after its checksum, whatever its compression: a truncation, nothing worse. */
  lemma ReadRecordShort(
      libs: Libraries, d: Dec, c: CompressionType, key: seq<byte>, field: seq<byte>, offset: int, frag: seq<byte>)
    requires |key| <= MAX_BYTES && CutShort(libs, c, field)
    requires 4 <= |frag| && Left(d, frag, Record(Body(0, Code(c), key, field)))
    ensures ReadMessage(libs, d, offset).0.err == ErrTruncated
  {
    hide Crc, Sized, EncodeInt, DecodeInt, ReadNum, ReadSlice, ReadSized, ReadValue, EndCrc, CutShort, FromCode;
    var rest := Sized(key, 4) + field;
    var body := Body(0, Code(c), key, field);
    LeftSkip(d, frag, EncodeInt(Crc(body), 4), body);
    var d0, f0 := Skip(d, 4), frag[4..];
    LeftSkip(d0, f0, [0], [Code(c)] + rest);
    if f0 == [] {
      ReadNumShort(d0, 1);
      Stuck(libs, ReadNum(d0, 1).0);
      return;
    }
    ReadRaw(d0, [0]);
    var d1, f1 := Skip(d0, 1), f0[1..];
    LeftSkip(d1, f1, [Code(c)], rest);
    if f1 == [] {
      ReadNumShort(d1, 1);
      Stuck(libs, ReadNum(d1, 1).0);
      return;
    }
    ReadRaw(d1, [Code(c)]);
    FromCodeByte(Code(c));
    FromCodeCode(c);
    KeyFieldShort(libs, Skip(d1, 1), c, key, field, f1[1..]);
    Stuck(libs, ReadValue(libs, ReadSized(Skip(d1, 1), 4).0, c).0);
  }
}
