/**
 The wire format as a value: what a run of codec calls with well-nested length and CRC
 fields puts into a packet. The field kinds are the primitive types of "A Guide To The
 Kafka Protocol" plus the two fields that depend on the bytes that follow them.
 */
module Wire {
  import opened Bytes
  import opened Crc32

  /** The two low bits of the attributes byte; 3 is no compression type of the protocol. */
  datatype CompressionType = CompNone | CompGzip | CompSnappy | CompInvalid

  function Code(c: CompressionType): byte {
    match c case CompNone => 0 case CompGzip => 1 case CompSnappy => 2 case CompInvalid => 3
  }

  function FromCode(n: int): CompressionType {
    if n % 4 == 0 then CompNone else if n % 4 == 1 then CompGzip else if n % 4 == 2 then CompSnappy else CompInvalid
  }

  /** zlib and snappy are foreign code: a compressor, its inverse and its worst-case size. */
  datatype Library = Library(
    compress: seq<byte> -> seq<byte>,
    decompress: seq<byte> -> Option<seq<byte>>,
    bound: nat -> nat)

  datatype Libraries = Libraries(gzip: Library, snappy: Library)

  ghost predicate LawfulLibrary(l: Library) {
    && (forall x :: l.decompress(l.compress(x)) == Some(x))
    && (forall x :: 0 < |l.compress(x)| <= l.bound(|x|))
    && (forall n: nat :: n <= l.bound(n))
    && (forall m: nat, n: nat :: m <= n ==> l.bound(m) <= l.bound(n))
  }

  ghost predicate Lawful(libs: Libraries) {
    LawfulLibrary(libs.gzip) && LawfulLibrary(libs.snappy)
  }

  datatype Err =
    | ErrNone
    | ErrInvalidValue
    | ErrCompressFail
    | ErrTruncated
    | ErrChecksumFail
    | Fault     // std::out_of_range from vector::at, or a read the language leaves undefined
    | TooDeep   // nesting beyond the model's depth bound; the source has no such error

  datatype Item =
    | Num(value: int, width: nat)
    | Str(text: seq<byte>)
    | Blob(data: seq<byte>)
    | Packed(gzip: bool, raw: seq<byte>)
    | Len(body: seq<Item>)
    | Check(body: seq<Item>)

  datatype Encoded = Packet(bytes: seq<byte>) | Failed(err: Err)

  const MAX_STRING: nat := 0x7FFF
  const MAX_BYTES: nat := 0x7FFF_FFFF

  function Lib(libs: Libraries, gzip: bool): Library {
    if gzip then libs.gzip else libs.snappy
  }

  /** A length-prefixed run of bytes; the empty run is the null value. */
  function Sized(value: seq<byte>, width: nat): seq<byte> {
    if value == [] then EncodeInt(-1, width) else EncodeInt(|value|, width) + value
  }

  /** One write after another; a failed encoder ignores what follows. */
  function Then(a: Encoded, b: Encoded): Encoded {
    if a.Failed? then a else if b.Failed? then b else Packet(a.bytes + b.bytes)
  }

  function EncodeItem(libs: Libraries, item: Item): Encoded
    decreases item, 1
  {
    match item
    case Num(v, k) => Packet(EncodeInt(v, k))
    case Str(s) =>
      if |s| > MAX_STRING then Failed(ErrInvalidValue)
      else Packet(Sized(s, 2))
    case Blob(s) =>
      if |s| > MAX_BYTES then Failed(ErrInvalidValue)
      else Packet(Sized(s, 4))
    case Packed(gzip, raw) =>
      var out := Lib(libs, gzip).compress(raw);
      if !gzip && |out| < 1 then Failed(ErrCompressFail)
      else Packet(EncodeInt(|out|, 4) + out)
    case Len(body) =>
      var e := Encode(libs, body);
      if e.Failed? then e else Packet(EncodeInt(|e.bytes|, 4) + e.bytes)
    case Check(body) =>
      var e := Encode(libs, body);
      if e.Failed? then e else Packet(EncodeInt(Crc(e.bytes), 4) + e.bytes)
  }

  /** The bytes of a run of fields; the first failing field decides the error. */
  function Encode(libs: Libraries, items: seq<Item>): Encoded
    decreases items, 0
  {
    if items == [] then Packet([]) else Then(EncodeItem(libs, items[0]), Encode(libs, items[1..]))
  }

  /** Encoding is sequential: fields written one run after the other are concatenated. */
  lemma {:induction false} EncodeAppend(libs: Libraries, a: seq<Item>, b: seq<Item>)
    ensures Encode(libs, a + b) == Then(Encode(libs, a), Encode(libs, b))
    decreases |a|
  {
    if a == [] {
      assert a + b == b;
      ThenUnit(Encode(libs, b));
    } else {
      assert (a + b)[1..] == a[1..] + b;
      EncodeAppend(libs, a[1..], b);
      ThenAssociative(EncodeItem(libs, a[0]), Encode(libs, a[1..]), Encode(libs, b));
    }
  }

  lemma ThenAssociative(a: Encoded, b: Encoded, c: Encoded)
    ensures Then(Then(a, b), c) == Then(a, Then(b, c))
  {}

  lemma ThenUnit(a: Encoded)
    ensures Then(a, Packet([])) == a == Then(Packet([]), a)
  {}

  lemma EncodeCons(libs: Libraries, item: Item, rest: seq<Item>)
    ensures Encode(libs, [item] + rest) == Then(EncodeItem(libs, item), Encode(libs, rest))
  {}

  lemma EncodeOne(libs: Libraries, item: Item)
    ensures Encode(libs, [item]) == EncodeItem(libs, item)
  {}

  /** A CRC field must span at least one byte: end_crc asserts it. */
  predicate ChecksNonEmpty(item: Item)
    decreases item, 1
  {
    match item
    case Len(body) => AllChecksNonEmpty(body)
    case Check(body) => AllChecksNonEmpty(body) && body != [] && body[0].Num? && body[0].width > 0
    case _ => true
  }

  predicate AllChecksNonEmpty(items: seq<Item>)
    decreases items, 0
  {
    items == [] || (ChecksNonEmpty(items[0]) && AllChecksNonEmpty(items[1..]))
  }
}
