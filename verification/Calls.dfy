/**
 One call from end to end: the request header and frame that the send queue puts on the
 wire, the frame that the receive queue takes off it, and sync_call around both.
 */
module Calls {
  import opened Bytes
  import opened Wire
  import opened Decoder
  import opened Encoder
  import opened Protocol
  import MessageSets

  datatype RequestHeader = RequestHeader(apiKey: int, apiVersion: int, correlation: int, clientId: seq<byte>)

  // ---------- the request frame ----------

  type HeaderTuple = (int, (int, (int, seq<byte>)))

  function HeaderFields(h: RequestHeader): HeaderTuple { (h.apiKey, (h.apiVersion, (h.correlation, h.clientId))) }
  function MakeHeader(t: HeaderTuple): RequestHeader { RequestHeader(t.0, t.1.0, t.1.1.0, t.1.1.1) }

  function HeaderCodec(): Codec<RequestHeader, RequestHeader> {
    Struct(Both(Int(2), Both(Int(2), Both(Int(4), Text()))), HeaderFields, MakeHeader)
  }

  predicate GoodHeader(h: RequestHeader) {
    Fits(h.apiKey, 2) && Fits(h.apiVersion, 2) && Fits(h.correlation, 4) && |h.clientId| <= MAX_STRING
  }

  lemma HeaderRoundTrips(libs: Libraries, h: RequestHeader)
    requires GoodHeader(h)
    ensures RoundTrips(libs, HeaderCodec(), h, h)
  {
    hide RoundTrips;
    var f := HeaderFields(h);
    IntRoundTrips(libs, h.apiKey, 2);
    IntRoundTrips(libs, h.apiVersion, 2);
    IntRoundTrips(libs, h.correlation, 4);
    TextRoundTrips(libs, h.clientId);
    BothRoundTrips(libs, Int(4), Text(), h.correlation, h.correlation, h.clientId, h.clientId);
    BothRoundTrips(libs, Int(2), Both(Int(4), Text()), h.apiVersion, h.apiVersion, f.1.1, f.1.1);
    BothRoundTrips(libs, Int(2), Both(Int(2), Both(Int(4), Text())), h.apiKey, h.apiKey, f.1, f.1);
    StructRoundTrips(libs, Both(Int(2), Both(Int(2), Both(Int(4), Text()))), HeaderFields, MakeHeader, h, f);
  }

  function HeaderItems(h: RequestHeader): seq<Item> {
    [Num(h.apiKey, 2), Num(h.apiVersion, 2), Num(h.correlation, 4), Str(h.clientId)]
  }

  /** The header on the wire: api key, api version, correlation id, client id. */
  function HeaderWire(h: RequestHeader): seq<byte> {
    EncodeInt(h.apiKey, 2) + (EncodeInt(h.apiVersion, 2) + (EncodeInt(h.correlation, 4) + Sized(h.clientId, 2)))
  }

  /** The one way a header can fail to encode: a client id too long for its prefix. */
  lemma HeaderBytes(libs: Libraries, h: RequestHeader)
    ensures HeaderCodec().items(h) == HeaderItems(h) && AllChecksNonEmpty(HeaderItems(h))
    ensures Encode(libs, HeaderItems(h)) ==
      if |h.clientId| > MAX_STRING then Failed(ErrInvalidValue) else Packet(HeaderWire(h))
  {
    hide EncodeInt, Sized;
    var c, d := [Str(h.clientId)], [Num(h.correlation, 4), Str(h.clientId)];
    var e := [Num(h.apiVersion, 2), Num(h.correlation, 4), Str(h.clientId)];
    assert d == [Num(h.correlation, 4)] + c;
    assert e == [Num(h.apiVersion, 2)] + d;
    assert HeaderItems(h) == [Num(h.apiKey, 2)] + e;
    var f := HeaderFields(h);
    assert Both(Int(4), Text()).items(f.1.1) == [Num(h.correlation, 4)] + c;
    assert Both(Int(2), Both(Int(4), Text())).items(f.1) == [Num(h.apiVersion, 2)] + d;
    assert Both(Int(2), Both(Int(2), Both(Int(4), Text()))).items(f) == [Num(h.apiKey, 2)] + e;
    EncodeOne(libs, c[0]);
    EncodeCons(libs, Num(h.correlation, 4), c);
    EncodeCons(libs, Num(h.apiVersion, 2), d);
    EncodeCons(libs, Num(h.apiKey, 2), e);
    assert c == c + [];
    MessageSets.ChecksCons(c[0], []);
    MessageSets.ChecksCons(Num(h.correlation, 4), c);
    MessageSets.ChecksCons(Num(h.apiVersion, 2), d);
    MessageSets.ChecksCons(Num(h.apiKey, 2), e);
  }

  /** The header and the body, behind a length that counts both. */
  function Frame(h: RequestHeader, body: seq<byte>): seq<byte> {
    EncodeInt(|HeaderWire(h)| + |body|, 4) + (HeaderWire(h) + body)
  }

  /** encode_request: the header is a packet of its own whose prefix also counts the body that follows it. */
  method EncodeRequest(libs: Libraries, h: RequestHeader, body: seq<byte>) returns (ok: bool, frame: seq<byte>)
    requires Lawful(libs)
    ensures ok <==> |h.clientId| <= MAX_STRING
    ensures ok ==> frame == Frame(h, body)
  {
    HeaderBytes(libs, h);
    hide Encode, Lawful, HeaderWire, HeaderItems;
    var e := new PacketEncoder(20);
    ghost var prefix := e.Contents();
    e.WriteItems(libs, HeaderItems(h));
    if !e.Ok() { return false, []; }
    ghost var b := HeaderWire(h);
    assert (prefix + b)[4..] == b;
    var head := e.Head(|body|);
    frame := head + body;
    ok := true;
    assert EncodeInt(|b| + |body|, 4) + b + body == EncodeInt(|b| + |body|, 4) + (b + body);
  }

  /** A frame as its reader sees it: a length, a header, a request. */
  function FrameCodec<W, R>(c: Codec<W, R>): Codec<(int, (RequestHeader, W)), (int, (RequestHeader, R))> {
    Both(Int(4), Both(HeaderCodec(), c))
  }

  /** What a broker reads from a request frame: the number of bytes that follow, the header, and the request itself. */
  lemma RequestArrives<W(!new), R(!new)>(libs: Libraries, h: RequestHeader, c: Codec<W, R>, x: W, y: R)
    requires GoodHeader(h) && RoundTrips(libs, c, x, y)
    requires |HeaderWire(h)| + |Encode(libs, c.items(x)).bytes| <= MAX_BYTES
    ensures var body := Encode(libs, c.items(x)).bytes;
      var n := |Frame(h, body)| - 4;
      && Encode(libs, FrameCodec(c).items((n, (h, x)))) == Packet(Frame(h, body))
      && RoundTrips(libs, FrameCodec(c), (n, (h, x)), (n, (h, y)))
  {
    HeaderBytes(libs, h);
    HeaderRoundTrips(libs, h);
    Widths();
    hide Encode, EncodeInt, HeaderWire, HeaderItems, HeaderCodec, RoundTrips;
    var body := Encode(libs, c.items(x)).bytes;
    var n := |Frame(h, body)| - 4;
    IntRoundTrips(libs, n, 4);
    BothRoundTrips(libs, HeaderCodec(), c, h, h, x, y);
    BothRoundTrips(libs, Int(4), Both(HeaderCodec(), c), n, n, (h, x), (h, y));
    FrameEncodes(libs, h, c, x, n);
  }

  lemma FrameEncodes<W(!new), R(!new)>(libs: Libraries, h: RequestHeader, c: Codec<W, R>, x: W, n: int)
    requires |h.clientId| <= MAX_STRING && Encode(libs, c.items(x)).Packet?
    ensures Encode(libs, FrameCodec(c).items((n, (h, x)))) ==
      Packet(EncodeInt(n, 4) + (HeaderWire(h) + Encode(libs, c.items(x)).bytes))
  {
    HeaderBytes(libs, h);
    hide Encode, EncodeInt, HeaderWire, HeaderItems, HeaderCodec;
    var rest := HeaderCodec().items(h) + c.items(x);
    EncodeAppend(libs, HeaderCodec().items(h), c.items(x));
    EncodeCons(libs, Num(n, 4), rest);
    assert FrameCodec(c).items((n, (h, x))) == [Num(n, 4)] + rest;
  }

  // ---------- the response frame ----------

  datatype Received = Resolved(decoder: Dec) | DecodingFailed

  /** The call's receive buffer once n bytes of the stream are in it: 1024 bytes, or as many as needed. */
  function Buffer(stream: seq<byte>, n: nat): (b: seq<byte>)
    requires n <= |stream|
    ensures |b| >= 1024 && n <= |b| && b[..n] == stream[..n]
  {
    stream[..n] + Zeros(if n < 1024 then 1024 - n else 0)
  }

  /** The receive coroutine over the bytes of the stream: length, then that many more, then the correlation id. */
  function Receive(stream: seq<byte>, expected: int): Received
    requires |stream| >= 4 && |stream| >= 4 + DecodeInt(stream[..4]) && |stream| < TWO64
  {
    LengthRead(stream);
    var (d1, len) := ReadNum(FromBuffer(Buffer(stream, 4)).(size := 4), 4);
    if len <= 0 then Resolved(d1)
    else
      var (d2, correlation) := ReadNum(d1.(buf := Buffer(stream, 4 + len), size := 4 + len), 4);
      if !d2.Ok() || correlation != expected then DecodingFailed else Resolved(d2)
  }

  lemma LengthRead(stream: seq<byte>)
    requires 4 <= |stream| < TWO64
    ensures var d := FromBuffer(Buffer(stream, 4)).(size := 4);
      ReadNum(d, 4) == (Skip(d, 4), DecodeInt(stream[..4]))
  {}

  lemma HeaderRead(stream: seq<byte>, len: int)
    requires 4 <= len && 4 + len <= |stream| < TWO64
    ensures var d := Skip(FromBuffer(Buffer(stream, 4 + len)).(size := 4 + len), 4);
      ReadNum(d, 4) == (Skip(d, 4), DecodeInt(stream[4..8]))
  {
    hide DecodeInt;
    var d := Skip(FromBuffer(Buffer(stream, 4 + len)).(size := 4 + len), 4);
    assert d.buf[4..8] == d.buf[..4 + len][4..8] == stream[..4 + len][4..8] == stream[4..8];
    ReadRaw(d, stream[4..8]);
  }

  lemma TooShort(stream: seq<byte>, len: int)
    requires 0 < len < 4 && 4 + len <= |stream| < TWO64
    ensures !ReadNum(Skip(FromBuffer(Buffer(stream, 4 + len)).(size := 4 + len), 4), 4).0.Ok()
  {}

  /**
   What the receive queue makes of any stream of bytes, by its length field and the four bytes
   after it: with a length of zero or less the call is resolved and nothing was checked; a length
   of 1 to 3 or another correlation id is a decoding failure.
   */
  lemma ReceiveCases(stream: seq<byte>, expected: int)
    requires |stream| >= 4 && |stream| >= 4 + DecodeInt(stream[..4]) && |stream| < TWO64
    ensures var len := DecodeInt(stream[..4]);
      && (len <= 0 ==> Receive(stream, expected) == Resolved(Skip(FromBuffer(Buffer(stream, 4)).(size := 4), 4)))
      && (len > 0 ==> (Receive(stream, expected).Resolved? <==> len >= 4 && DecodeInt(stream[4..8]) == expected))
      && (len > 0 && Receive(stream, expected).Resolved? ==>
            Receive(stream, expected).decoder == Skip(FromBuffer(Buffer(stream, 4 + len)).(size := 4 + len), 8))
  {
    hide DecodeInt, ReadNum, Buffer;
    LengthRead(stream);
    var len := DecodeInt(stream[..4]);
    if 0 < len < 4 { TooShort(stream, len); }
    if 4 <= len { HeaderRead(stream, len); }
  }

  lemma StreamParts(a: seq<byte>, b: seq<byte>, body: seq<byte>, later: seq<byte>)
    requires |a| == |b| == 4
    ensures var stream := a + (b + (body + later));
      stream[..4] == a && stream[4..8] == b && stream[8..8 + |body|] == body
  {}

  lemma BufferAt(stream: seq<byte>, i: nat, n: nat)
    requires i <= n <= |stream| < TWO64
    ensures At(Skip(FromBuffer(Buffer(stream, n)).(size := n), i), stream[i..n])
  {
    BufferSmall(stream, n);
    var b := Buffer(stream, n);
    assert b[i..n] == b[..n][i..n] == stream[..n][i..n] == stream[i..n];
  }

  lemma BufferSmall(stream: seq<byte>, n: nat)
    requires n <= |stream| < TWO64
    ensures |Buffer(stream, n)| < TWO64
  {}

  /** A response to this call: its decoder stands at the body, with nothing readable after it. */
  lemma ResponseArrives(correlation: int, body: seq<byte>, later: seq<byte>, expected: int)
    requires Fits(correlation, 4) && 4 + |body| <= MAX_BYTES && |later| + 8 + |body| < TWO64
    ensures var stream := EncodeInt(4 + |body|, 4) + (EncodeInt(correlation, 4) + (body + later));
      && |stream| >= 4 && |stream| >= 4 + DecodeInt(stream[..4])
      && (Receive(stream, expected).Resolved? <==> correlation == expected)
      && (correlation == expected ==>
            At(Receive(stream, expected).decoder, body) && Receive(stream, expected).decoder.size == 8 + |body|)
  {
    hide Receive, EncodeInt, DecodeInt, Buffer, At;
    var stream := EncodeInt(4 + |body|, 4) + (EncodeInt(correlation, 4) + (body + later));
    StreamParts(EncodeInt(4 + |body|, 4), EncodeInt(correlation, 4), body, later);
    Widths();
    IntRoundTrip(4 + |body|, 4);
    IntRoundTrip(correlation, 4);
    ReceiveCases(stream, expected);
    BufferAt(stream, 8, 8 + |body|);
  }

  // ---------- sync_call ----------

  datatype Future = NotReady | Broken(code: int) | Ready(decoder: Dec)

  datatype CallResult<R> = Value(value: R) | EncodingError | NetworkTimeout | Error(code: int) | DecodingError | Unknown

  /** What decoding the response comes to: vector::at throwing is caught as an unknown error. */
  function Decoded<R>(read: (Dec, R)): CallResult<R> {
    if read.0.Ok() then Value(read.1) else if read.0.err == Fault then Unknown else DecodingError
  }

  /** sync_call, with what the future held when the wait ended. */
  method SyncCall<W(!new), R>(libs: Libraries, items: seq<Item>, answer: Codec<W, R>, future: Future)
    returns (body: seq<byte>, r: CallResult<R>)
    requires Lawful(libs) && AllChecksNonEmpty(items)
    ensures r == EncodingError <==> Encode(libs, items).Failed?
    ensures r != EncodingError ==> body == Encode(libs, items).bytes
    ensures Encode(libs, items).Packet? ==>
      match future
      case NotReady => r == NetworkTimeout
      case Broken(code) => r == Error(code)
      case Ready(d) =>
        var (after, value) := answer.read(d);
        && r == Decoded(answer.read(d))
        && (after.err == ErrNone ==> r == Value(value))
        && (after.err == Fault ==> r == Unknown)
        && (after.err != ErrNone && after.err != Fault ==> r == DecodingError)
  {
    hide Encode, Lawful;
    var e := new PacketEncoder(512);
    ghost var prefix := e.Contents();
    e.WriteItems(libs, items);
    if !e.Ok() { return [], EncodingError; }
    body := e.Body();
    assert (prefix + Encode(libs, items).bytes)[4..] == Encode(libs, items).bytes;
    match future
    case NotReady => r := NetworkTimeout;
    case Broken(code) => r := Error(code);
    case Ready(d) =>
      var (d1, value) := answer.read(d);
      if d1.err == Fault {
        r := Unknown;
      } else if !d1.Ok() {
        r := DecodingError;
      } else {
        r := Value(value);
      }
  }

  /**
   End to end: whatever the broker answers to this call, sync_call decodes to exactly that
   answer, however many bytes of later responses follow it on the stream.
   */
  lemma AnswerDelivered<W(!new), R(!new)>(
      libs: Libraries, answer: Codec<W, R>, x: W, y: R, correlation: int, later: seq<byte>)
    requires RoundTrips(libs, answer, x, y) && Fits(correlation, 4)
    requires 4 + |Encode(libs, answer.items(x)).bytes| <= MAX_BYTES && |later| < TWO32
    ensures var body := Encode(libs, answer.items(x)).bytes;
      var stream := EncodeInt(4 + |body|, 4) + (EncodeInt(correlation, 4) + (body + later));
      && |stream| >= 4 && |stream| >= 4 + DecodeInt(stream[..4]) && Receive(stream, correlation).Resolved?
      && Decoded(answer.read(Receive(stream, correlation).decoder)) == Value(y)
  {
    hide At, EncodeInt, Receive, Encode, DecodeInt;
    var body := Encode(libs, answer.items(x)).bytes;
    ResponseArrives(correlation, body, later, correlation);
    var stream := EncodeInt(4 + |body|, 4) + (EncodeInt(correlation, 4) + (body + later));
    var d := Receive(stream, correlation).decoder;
    AtOk(d, body);
    assert Gives(d, answer.read(d), |body|, y);
  }

  lemma DequeRefused<W, R>(c: Codec<W, R>, d: Dec)
    requires d.cursor <= d.size < TWO64 && (d.Ok() ==> d.size < d.cursor + 4)
    ensures Deque(c).read(d).0 == if d.Ok() then d.(err := ErrTruncated) else d
  {
    hide ReadNum;
    if d.Ok() { ReadNumShort(d, 4); } else { NothingMore(d); }
  }

  lemma NothingMore(d: Dec)
    requires !d.Ok()
    ensures ReadNum(d, 4) == (d, 0)
  {}

  lemma ProduceRefused(d: Dec)
    requires d.Ok() && d.cursor == d.size < TWO64
    ensures ProduceResponseCodec().read(d).0.err == ErrTruncated
  {
    hide ResultTopicCodec;
    DequeRefused(ResultTopicCodec(), d);
  }

  lemma BothRefused<A, B, C, D>(a: Codec<A, B>, b: Codec<C, D>, d: Dec)
    requires a.read(d).0.err == ErrTruncated && b.read(a.read(d).0).0 == a.read(d).0
    ensures Both(a, b).read(d).0.err == ErrTruncated
  {}

  lemma MetadataRefused(d: Dec)
    requires d.Ok() && d.cursor == d.size < TWO64
    ensures MetadataCodec().read(d).0.err == ErrTruncated
  {
    hide BrokerCodec, TopicCodec, Deque, Both;
    DequeRefused(BrokerCodec(), d);
    DequeRefused(TopicCodec(), d.(err := ErrTruncated));
    BothRefused(Deque(BrokerCodec()), Deque(TopicCodec()), d);
  }

  lemma EmptyReceived(stream: seq<byte>, expected: int)
    requires 4 <= |stream| < TWO64 && DecodeInt(stream[..4]) <= 0
    ensures Receive(stream, expected).Resolved?
    ensures var d := Receive(stream, expected).decoder; d.Ok() && d.cursor == d.size == 4
  {
    hide DecodeInt, ReadNum, Buffer, Receive;
    ReceiveCases(stream, expected);
  }

  /** A response that skipped the correlation check is still refused: both response types start with a count. */
  lemma EmptyRefused(stream: seq<byte>, expected: int, d: Dec)
    requires 4 <= |stream| < TWO64 && DecodeInt(stream[..4]) <= 0 && Receive(stream, expected) == Resolved(d)
    ensures Decoded(ProduceResponseCodec().read(d)) == DecodingError
      && Decoded(MetadataCodec().read(d)) == DecodingError
  {
    hide DecodeInt, ReadNum, Buffer, Receive, ProduceResponseCodec, MetadataCodec;
    EmptyReceived(stream, expected);
    ProduceRefused(d);
    MetadataRefused(d);
  }
}
