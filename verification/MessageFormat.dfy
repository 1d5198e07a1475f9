/**
 Messages and message sets on the wire ("Message sets" in A Guide To The Kafka Protocol):
 the format as a value, and the decoder's loop as a function.
 */
module MessageFormat {
  import opened Bytes
  import opened Wire
  import opened Decoder

  datatype Message = Message(key: seq<byte>, value: seq<byte>, offset: int, compression: CompressionType)

  datatype MSet = MSet(messages: seq<Message>, maxSize: nat, compression: CompressionType, encodedSize: nat)

  // ---------- encoding ----------

  function ValueItems(m: Message): seq<Item> {
    match m.compression
    case CompNone => [Blob(m.value)]
    case CompGzip => [Packed(true, m.value)]
    case CompSnappy => [Packed(false, m.value)]
    case CompInvalid => []
  }

  function MessageItems(m: Message): seq<Item> {
    [Check([Num(0, 1), Num(Code(m.compression), 1), Blob(m.key)] + ValueItems(m))]
  }

  function EntryItems(m: Message): seq<Item> {
    [Num(m.offset, 8), Len(MessageItems(m))]
  }

  function PlainItems(ms: seq<Message>): seq<Item> {
    if ms == [] then [] else EntryItems(ms[0]) + PlainItems(ms[1..])
  }

  lemma {:induction false} PlainItemsAppend(a: seq<Message>, b: seq<Message>)
    ensures PlainItems(a + b) == PlainItems(a) + PlainItems(b)
  {
    if a == [] {
      assert a + b == b;
    } else {
      assert (a + b)[1..] == a[1..] + b;
      PlainItemsAppend(a[1..], b);
    }
  }

  /** The one message that wraps a compressed set: null key, offset zero. */
  function Wrapper(inner: seq<byte>, c: CompressionType): Message {
    Message([], inner, 0, c)
  }

  function EncodeSet(libs: Libraries, s: MSet): Encoded {
    var plain := Encode(libs, PlainItems(s.messages));
    if s.compression == CompNone || plain.Failed? then plain
    else Encode(libs, EntryItems(Wrapper(plain.bytes, s.compression)))
  }

  // ---------- the size limit ----------

  function MessageSize(m: Message): nat {
    8 + 4 + 4 + 1 + 1 + 4 + |m.key| + 4 + |m.value|
  }

  function WorstCase(libs: Libraries, c: CompressionType, n: nat): nat {
    match c
    case CompNone => n
    case CompGzip => libs.gzip.bound(n)
    case CompSnappy => libs.snappy.bound(n)
    case CompInvalid => 0
  }

  predicate Full(libs: Libraries, s: MSet, m: Message) {
    WorstCase(libs, s.compression, s.encodedSize + MessageSize(m)) > s.maxSize
  }

  function Push(libs: Libraries, s: MSet, m: Message): MSet {
    if Full(libs, s, m) then s
    else s.(messages := s.messages + [m], encodedSize := s.encodedSize + MessageSize(m))
  }

  function PushAll(libs: Libraries, s: MSet, ms: seq<Message>): MSet
    decreases |ms|
  {
    if ms == [] then s else PushAll(libs, Push(libs, s, ms[0]), ms[1..])
  }

  // ---------- decoding ----------

  function ReadMessage(libs: Libraries, d: Dec, offset: int): (r: (Dec, Message))
    ensures r.0.buf == d.buf && r.0.size == d.size
    ensures r.0.Ok() ==> d.Ok() && d.cursor < r.0.cursor <= |d.buf|
  {
    var field := d.cursor;
    var (d1, magic) := ReadNum(Skip(d, 4), 1);
    var (d2, attributes) := ReadNum(d1, 1);
    var c := FromCode(attributes);
    var (d3, key) := ReadSized(d2, 4);
    var (d4, value) := ReadValue(libs, d3, c);
    (EndCrc(d4, field), Message(key, value, offset, c))
  }

  /** Running out of bytes ends a set normally. */
  function Finish(d: Dec): Dec {
    if d.err == ErrTruncated then d.(err := ErrNone) else d
  }

  predicate More(d: Dec, start: nat, limit: int) {
    d.Ok() && (limit == -1 || (d.cursor - start) % TWO64 < limit % TWO64)
  }

  /**
   One turn of the decode loop of a message set. A message whose value was compressed is
   decoded as a nested set from the last decompressed buffer; only an exception of the
   nested decoder is seen outside it.
   */
  function DecodeStep(libs: Libraries, d: Dec, s: MSet, depth: nat): (r: (Dec, MSet))
    ensures r.0.buf == d.buf && r.0.size == d.size
    ensures r.0.Ok() ==> d.cursor < r.0.cursor <= |d.buf|
    decreases depth, 0
  {
    var (d1, offset) := ReadNum(d, 8);
    var (d2, m) := ReadMessage(libs, Skip(d1, 4), offset);
    if !d2.Ok() then (d2, s)
    else if m.compression == CompNone then (d2, Push(libs, s, m))
    else if d2.last.None? then (d2.(err := Fault), s)
    else if depth == 0 then (d2.(err := TooDeep), s)
    else
      var (n, s') := DecodeSet(libs, FromBuffer(d2.last.value), 0, s, -1, depth - 1);
      (if n.err in {Fault, TooDeep} then d2.(err := n.err) else d2, s')
  }

  /** The decode loop; limit is the embedding length prefix, or -1 for none. */
  function DecodeSet(libs: Libraries, d: Dec, start: nat, s: MSet, limit: int, depth: nat): (Dec, MSet)
    decreases depth, 1, |d.buf| - d.cursor
  {
    if !More(d, start, limit) then (Finish(d), s) else
    var (d', s') := DecodeStep(libs, d, s, depth);
    if !d'.Ok() then (Finish(d'), s') else DecodeSet(libs, d', start, s', limit, depth)
  }
}
