/** Message sets through compression and back. */
module SetRoundTrip {
  import opened Bytes
  import opened Crc32
  import opened Wire
  import opened Decoder
  import opened MessageFormat
  import opened MessageCodec
  import opened Admission
  import opened Truncation

  // ---------- the zero padding of an inflate buffer ----------

  /** Padding lengths on which the nested decoder's vector::at throws. */
  predicate BadPadding(p: nat) {
    8 <= p <= 15 || p == 22 || p == 26
  }

  /** How a nested decoder ends when p zero bytes follow the last message. */
  function ZeroTailError(p: nat): Err {
    if BadPadding(p) then Fault else if p >= 27 then ErrChecksumFail else ErrNone
  }

  lemma {:induction false} ZeroNumber(s: seq<byte>)
    requires forall i :: 0 <= i < |s| ==> s[i] == 0
    ensures FromBigEndian(s) == 0 && DecodeInt(s) == 0
  {
    if s != [] {
      ZeroNumber(s[..|s| - 1]);
    }
  }

  /** The decoder is good and p zero bytes are all that is left. */
  predicate ZerosLeft(d: Dec, p: nat) {
    && d.Ok()
    && d.cursor + p == d.size == |d.buf| < TWO64
    && forall i :: d.cursor <= i < d.size ==> d.buf[i] == 0
  }

  lemma ReadZero(d: Dec, p: nat, k: nat)
    requires ZerosLeft(d, p) && 0 < k < TWO64
    ensures k <= p ==> ReadNum(d, k) == (Skip(d, k), 0) && ZerosLeft(Skip(d, k), p - k)
    ensures p < k ==> ReadNum(d, k) == (d.(err := ErrTruncated), 0)
  {
    Remaining(d, k);
    if k <= p { ZeroNumber(d.buf[d.cursor..d.cursor + k]); }
  }

  /** A zero length prefix reads as an empty value, unless it is the last thing in the buffer. */
  lemma ReadZeroSized(d: Dec, p: nat)
    requires ZerosLeft(d, p)
    ensures p < 4 ==> ReadSized(d, 4).0.err == ErrTruncated
    ensures p == 4 ==> ReadSized(d, 4).0.err == Fault
    ensures p > 4 ==> ReadSized(d, 4) == (Skip(d, 4), []) && ZerosLeft(Skip(d, 4), p - 4)
  {
    hide ReadNum;
    ReadZero(d, p, 4);
    if p >= 4 {
      Remaining(Skip(d, 4), 0);
      assert d.buf[d.cursor + 4..d.cursor + 4] == [];
    }
  }

  lemma ReadZeroMessage(libs: Libraries, d: Dec, p: nat)
    requires ZerosLeft(d, p) && p >= 4
    ensures ReadMessage(libs, d, 0).0.err ==
      if p >= 15 then ErrChecksumFail else if p == 10 || p == 14 then Fault else ErrTruncated
  {
    hide ReadNum, ReadSized, EndCrc;
    assert FromCode(0) == CompNone;
    var d0 := Skip(d, 4);
    ReadZero(d0, p - 4, 1);
    if p == 4 { Stuck(libs, ReadNum(d0, 1).0); return; }
    var d1 := Skip(d0, 1);
    ReadZero(d1, p - 5, 1);
    if p == 5 { Stuck(libs, ReadNum(d1, 1).0); return; }
    var d2 := Skip(d1, 1);
    ReadZeroSized(d2, p - 6);
    if p <= 10 { Stuck(libs, ReadSized(d2, 4).0); return; }
    var d3 := Skip(d2, 4);
    ReadZeroSized(d3, p - 10);
    if p <= 14 { Stuck(libs, ReadSized(d3, 4).0); return; }
    ZeroCrcFails(d, Skip(d3, 4), p);
  }

  lemma ZeroCrcFails(d: Dec, e: Dec, p: nat)
    requires ZerosLeft(d, p) && p >= 15 && e == Skip(d, 14)
    ensures EndCrc(e, d.cursor).err == ErrChecksumFail
  {
    hide Crc;
    ReadZero(d, p, 4);
    ZeroRecordCrc(d.buf[d.cursor + 4..e.cursor]);
  }

  lemma ZeroTail(libs: Libraries, d: Dec, start: nat, s: MSet, depth: nat, p: nat)
    requires ZerosLeft(d, p)
    ensures var (r, t) := DecodeSet(libs, d, start, s, -1, depth); t == s && r.err == ZeroTailError(p)
  {
    hide ReadMessage;
    if p < 8 {
      NothingLeft(libs, d, start, s, depth);
    } else {
      ReadZero(d, p, 8);
      var e := Skip(Skip(d, 8), 4);
      if p < 16 {
        MessagePastEnd(libs, e, 0);
      } else {
        ReadZeroMessage(libs, e, p - 12);
      }
    }
  }

  /** Messages followed by zero padding: all of them are read, whatever the padding does after. */
  lemma PaddedSet(libs: Libraries, ms: seq<Message>, s: MSet, depth: nat)
    requires AllPlain(ms) && |PlainBytes(ms)| + CHUNK < TWO64
    ensures
      var (d, t) := DecodeBuffer(libs, Padded(PlainBytes(ms)), s, depth);
      t == PushAll(libs, s, ms) && d.err == ZeroTailError(Padding(|PlainBytes(ms)|))
  {
    hide DecodeSet, PlainBytes;
    var plain, p := PlainBytes(ms), Padding(|PlainBytes(ms)|);
    var d := FromBuffer(Padded(plain));
    assert d.buf[0..|plain|] == plain;
    DecodePlain(libs, d, 0, s, -1, depth, ms);
    assert ZerosLeft(Skip(d, |plain|), p);
    ZeroTail(libs, Skip(d, |plain|), 0, PushAll(libs, s, ms), depth, p);
  }

  // ---------- the wrapping message ----------

  function Compressed(libs: Libraries, s: MSet): seq<byte> {
    Lib(libs, s.compression == CompGzip).compress(PlainBytes(s.messages))
  }

  function WrapperRecord(c: CompressionType, out: seq<byte>): seq<byte> {
    Record(Body(0, Code(c), [], EncodeInt(|out|, 4) + out))
  }

  /** The bytes of a set: its messages one after the other, or one message holding them compressed. */
  function SetBytes(libs: Libraries, s: MSet): seq<byte> {
    if s.compression == CompNone then PlainBytes(s.messages)
    else Entry(0, WrapperRecord(s.compression, Compressed(libs, s)))
  }

  lemma EncodeSetBytes(libs: Libraries, s: MSet)
    requires Lawful(libs) && AllPlain(s.messages) && s.compression != CompInvalid
    ensures EncodeSet(libs, s) == Packet(SetBytes(libs, s))
  {
    hide EncodeItem, Body, Record, PlainBytes, Entry;
    EncodePlain(libs, s.messages);
    if s.compression != CompNone {
      var plain, out := PlainBytes(s.messages), Compressed(libs, s);
      PackedField(libs, s.compression == CompGzip, plain);
      EncodeOne(libs, Packed(s.compression == CompGzip, plain));
      EncodeEntry(libs, Wrapper(plain, s.compression), EncodeInt(|out|, 4) + out);
    }
  }

  lemma PackedField(libs: Libraries, gzip: bool, raw: seq<byte>)
    requires Lawful(libs)
    ensures var out := Lib(libs, gzip).compress(raw);
      EncodeItem(libs, Packed(gzip, raw)) == Packet(EncodeInt(|out|, 4) + out)
  {}

  /** Reading a compressed value leaves the decompressed bytes where the nested decoder looks. */
  lemma ReadPackedValue(libs: Libraries, d: Dec, c: CompressionType, out: seq<byte>, raw: seq<byte>)
    requires c == CompGzip || c == CompSnappy
    requires 0 < |out| <= MAX_BYTES && Lib(libs, c == CompGzip).decompress(out) == Some(raw)
    requires At(d, EncodeInt(|out|, 4) + out)
    ensures ReadValue(libs, d, c) ==
      if c == CompSnappy && raw == [] then (Skip(d, 4).(err := Fault), [])
      else (Skip(d, 4 + |out|).(last := Some(if c == CompGzip then Padded(raw) else raw)), raw)
  {
    hide ReadNum, ReadSlice, EncodeInt, Padded;
    Widths();
    ReadNumAt(d, |out|, 4, out);
    assert out + [] == out;
    ReadSliceAt(Skip(d, 4), out, []);
  }

  /** The bytes the nested decoder is given. */
  function Nested(c: CompressionType, raw: seq<byte>): seq<byte> {
    if c == CompGzip then Padded(raw) else raw
  }

  function After(d: Dec, n: nat, decompressed: seq<byte>): Dec {
    Skip(d, n).(last := Some(decompressed))
  }

  lemma ReadWrapper(libs: Libraries, d: Dec, c: CompressionType, out: seq<byte>, raw: seq<byte>)
    requires c == CompGzip || c == CompSnappy
    requires 0 < |out| <= MAX_BYTES && Lib(libs, c == CompGzip).decompress(out) == Some(raw)
    requires At(d, WrapperRecord(c, out))
    ensures c == CompSnappy && raw == [] ==> ReadMessage(libs, d, 0).0.err == Fault
    ensures c == CompGzip || raw != [] ==>
      ReadMessage(libs, d, 0) == (After(d, |WrapperRecord(c, out)|, Nested(c, raw)), Message([], raw, 0, c))
  {
    hide ReadMessage, ReadValue, EncodeInt, DecodeInt, Crc, Padded, At;
    var field := EncodeInt(|out|, 4) + out;
    var body := Body(0, Code(c), [], field);
    var crc := EncodeInt(Crc(body), 4);
    var d3 := Skip(d, 6 + |Sized([], 4)|);
    FromCodeCode(c);
    ReadHead(libs, d, crc, 0, Code(c), [], field, 0);
    ReadPackedValue(libs, d3, c, out, raw);
    AtOk(d3, field);
    if c == CompSnappy && raw == [] {
      Stuck(libs, ReadValue(libs, d3, c).0);
    } else {
      IntRoundTrip(Crc(body), 4);
      ReadRecord(libs, d, crc, 0, Code(c), [], field, raw, ReadValue(libs, d3, c).0, 0);
    }
  }

  // ---------- whole sets ----------

  /**
   When decoding gives back what was encoded: always without compression, with snappy when
   the set is not empty, with gzip unless the padding of the inflate buffer is a bad one.
   Every part of it can be read off the set before it is sent.
   */
  predicate Recoverable(s: MSet) {
    match s.compression
    case CompNone => true
    case CompGzip => !BadPadding(131072 - |PlainBytes(s.messages)| % 131072)
    case CompSnappy => s.messages != []
    case CompInvalid => false
  }

  /** Sizes the int32 prefixes and size_t cursors can hold. */
  predicate Representable(libs: Libraries, s: MSet) {
    && |PlainBytes(s.messages)| + CHUNK < TWO64
    && (s.compression != CompNone ==> |Compressed(libs, s)| <= MAX_BYTES)
  }

  lemma PlainBytesEmpty(ms: seq<Message>)
    ensures PlainBytes(ms) == [] <==> ms == []
  {}

  lemma NestedSet(libs: Libraries, s: MSet, into: MSet, depth: nat)
    requires AllPlain(s.messages) && |PlainBytes(s.messages)| + CHUNK < TWO64
    requires s.compression == CompGzip || s.compression == CompSnappy
    ensures
      var (n, t) := DecodeBuffer(libs, Nested(s.compression, PlainBytes(s.messages)), into, depth);
      && t == PushAll(libs, into, s.messages)
      && n.err != TooDeep
      && (n.err == Fault <==> s.compression == CompGzip && BadPadding(Padding(|PlainBytes(s.messages)|)))
  {
    hide DecodeSet, PlainBytes, Padded;
    if s.compression == CompGzip {
      PaddedSet(libs, s.messages, into, depth);
    } else {
      WholeSet(libs, s.messages, into, depth);
    }
  }

  lemma CompressedFacts(libs: Libraries, s: MSet)
    requires Lawful(libs) && Representable(libs, s) && (s.compression == CompGzip || s.compression == CompSnappy)
    ensures |PlainBytes(s.messages)| + CHUNK < TWO64
    ensures var out := Compressed(libs, s);
      && 0 < |out| <= MAX_BYTES && Lib(libs, s.compression == CompGzip).decompress(out) == Some(PlainBytes(s.messages))
      && SetBytes(libs, s) == Entry(0, WrapperRecord(s.compression, out))
      && |SetBytes(libs, s)| == 12 + |WrapperRecord(s.compression, out)|
  {
    hide PlainBytes, WrapperRecord;
  }

  lemma ZeroFits()
    ensures Fits(0, 8)
  {}

  lemma ChunkPadding(n: nat)
    ensures Padding(n) == 131072 - n % 131072
  {}

  /** One turn of the decode loop at a compressed set. */
  lemma WrapperStep(libs: Libraries, d: Dec, s: MSet, into: MSet, depth: nat)
    requires Lawful(libs) && AllPlain(s.messages) && Representable(libs, s) && depth > 0
    requires s.compression == CompGzip || s.compression == CompSnappy
    requires At(d, SetBytes(libs, s))
    ensures var (r, t) := DecodeStep(libs, d, into, depth);
      && (!Recoverable(s) ==> r.err == Fault)
      && (Recoverable(s) ==> t == PushAll(libs, into, s.messages))
      && (Recoverable(s) ==> r == After(d, |SetBytes(libs, s)|, Nested(s.compression, PlainBytes(s.messages))))
  {
    hide ReadMessage, ReadNum, PlainBytes, EncodeInt, WrapperRecord, At, Nested, PushAll, AllPlain, Lawful, Compressed;
    hide Representable, SetBytes, Entry, DecodeSet, BadPadding, Padding, Push, Lib, Fits;
    CompressedFacts(libs, s);
    AtOk(d, SetBytes(libs, s));
    PlainBytesEmpty(s.messages);
    ZeroFits();
    NestedSet(libs, s, into, depth - 1);
    ChunkPadding(|PlainBytes(s.messages)|);
    var c, raw, out := s.compression, PlainBytes(s.messages), Compressed(libs, s);
    ReadEntryHead(d, 0, WrapperRecord(c, out));
    ReadWrapper(libs, Skip(Skip(d, 8), 4), c, out, raw);
  }

  /**
   A compressed set inside any packet. A recoverable one is stepped over exactly, its messages
   pushed in order; any other ends the decode in an exception.
   */
  lemma DecodeCompressed(libs: Libraries, d: Dec, start: nat, s: MSet, into: MSet, limit: int, depth: nat)
    requires Lawful(libs) && AllPlain(s.messages) && Representable(libs, s) && depth > 0
    requires s.compression == CompGzip || s.compression == CompSnappy
    requires At(d, SetBytes(libs, s)) && More(d, start, limit)
    ensures
      var after := After(d, |SetBytes(libs, s)|, Nested(s.compression, PlainBytes(s.messages)));
      var r := DecodeSet(libs, d, start, into, limit, depth);
      Recoverable(s) ==> r == DecodeSet(libs, after, start, PushAll(libs, into, s.messages), limit, depth)
    ensures !Recoverable(s) ==> DecodeSet(libs, d, start, into, limit, depth).0.err == Fault
  {
    hide DecodeStep, SetBytes, PlainBytes, Nested, At, Lawful, PushAll, Recoverable, More, Representable, AllPlain;
    WrapperStep(libs, d, s, into, depth);
    AtOk(d, SetBytes(libs, s));
  }

  /**
   A set in a buffer of its own, into any receiving set. Every message comes back, in order and
   without error, exactly if the set is recoverable and the receiver has room for it; with too
   little room the decode still ends without error.
   */
  lemma SetInBuffer(libs: Libraries, s: MSet, into: MSet, depth: nat)
    requires Lawful(libs) && AllPlain(s.messages) && Representable(libs, s) && depth > 0
    requires s.compression != CompInvalid && |SetBytes(libs, s)| < TWO64
    ensures
      var (d, t) := DecodeBuffer(libs, SetBytes(libs, s), into, depth);
      && (if Recoverable(s) then d.Ok() && t == PushAll(libs, into, s.messages) else d.err == Fault)
      && (d.Ok() && t.messages == into.messages + s.messages <==> Recoverable(s) && Room(libs, into, s.messages))
  {
    hide DecodeSet, PlainBytes, Nested, SetBytes, Room, Lawful;
    KeptIffRoom(libs, into, s.messages);
    var d := FromBuffer(SetBytes(libs, s));
    assert d.buf[0..|d.buf|] == d.buf;
    if s.compression == CompNone {
      PlainSetBytes(libs, s);
      WholeSet(libs, s.messages, into, depth);
    } else {
      DecodeCompressed(libs, d, 0, s, into, -1, depth);
      var after := After(d, |SetBytes(libs, s)|, Nested(s.compression, PlainBytes(s.messages)));
      NothingLeft(libs, after, 0, PushAll(libs, into, s.messages), depth);
    }
  }

  lemma PlainSetBytes(libs: Libraries, s: MSet)
    ensures s.compression == CompNone ==> SetBytes(libs, s) == PlainBytes(s.messages)
    ensures s.compression != CompNone ==> |SetBytes(libs, s)| > 0
  {}

  /** A set behind its length prefix: the decoder stops exactly where the set ends. */
  lemma SetInPacket(libs: Libraries, d: Dec, s: MSet, into: MSet, depth: nat)
    requires Lawful(libs) && AllPlain(s.messages) && Representable(libs, s) && depth > 0
    requires s.compression != CompInvalid && |SetBytes(libs, s)| <= MAX_BYTES
    requires At(d, SetBytes(libs, s))
    ensures
      var n := |SetBytes(libs, s)|;
      var (r, t) := DecodeSet(libs, d, d.cursor, into, n, depth);
      && (!Recoverable(s) ==> r.err == Fault)
      && (Recoverable(s) ==> r.(last := d.last) == Skip(d, n) && t == PushAll(libs, into, s.messages))
      && (r.Ok() && t.messages == into.messages + s.messages <==> Recoverable(s) && Room(libs, into, s.messages))
  {
    hide DecodeSet, PlainBytes, Nested, SetBytes, At, Room, Lawful;
    KeptIffRoom(libs, into, s.messages);
    var n := |SetBytes(libs, s)|;
    var t := PushAll(libs, into, s.messages);
    PlainSetBytes(libs, s);
    AtOk(d, SetBytes(libs, s));
    ModSmall(n, TWO64);
    if s.compression == CompNone {
      DecodePlain(libs, d, d.cursor, into, n, depth, s.messages);
      SetEnds(libs, Skip(d, n), d.cursor, t, n, depth);
    } else {
      ModSmall(0, TWO64);
      DecodeCompressed(libs, d, d.cursor, s, into, n, depth);
      SetEnds(libs, After(d, n, Nested(s.compression, PlainBytes(s.messages))), d.cursor, t, n, depth);
    }
  }

  lemma SetEnds(libs: Libraries, d: Dec, start: nat, s: MSet, n: nat, depth: nat)
    requires d.Ok() && d.cursor == start + n && n < TWO64
    ensures DecodeSet(libs, d, start, s, n, depth) == (d, s)
  {
    hide DecodeStep;
    ModSmall(n, TWO64);
  }
}
