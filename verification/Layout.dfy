/** Which fields each structure puts on the wire, in which order and width. */
module Layout {
  import opened Bytes
  import opened Crc32
  import opened Wire
  import opened MessageFormat
  import opened Protocol
  import MessageCodec
  import SetRoundTrip

  function Numbers(xs: seq<int>, width: nat): seq<Item> {
    seq(|xs|, i requires 0 <= i < |xs| => Num(xs[i], width))
  }

  lemma {:induction false} NumbersItems(xs: seq<int>, width: nat)
    ensures AllItems(Int(width), xs) == Numbers(xs, width)
  {
    if xs != [] {
      NumbersItems(xs[1..], width);
      assert Numbers(xs, width) == [Num(xs[0], width)] + Numbers(xs[1..], width);
    }
  }

  lemma BrokerLayout(b: Broker)
    ensures BrokerCodec().items(b) == [Num(b.nodeId, 4), Str(b.host), Num(b.port, 4)]
  {
    var f := BrokerFields(b);
    assert Both(Text(), Int(4)).items(f.1) == [Str(b.host), Num(b.port, 4)];
    assert BrokerCodec().items(b) ==
      Both(Int(4), Both(Text(), Int(4))).items(f) == [Num(b.nodeId, 4)] + [Str(b.host), Num(b.port, 4)];
  }

  lemma PartitionLayoutIs(p: PartitionMetaData)
    ensures PartitionCodec().items(p) ==
      [Num(p.err, 2), Num(p.id, 4), Num(p.leader, 4), Num(|p.replicas|, 4)] + Numbers(p.replicas, 4)
      + [Num(|p.isr|, 4)] + Numbers(p.isr, 4)
  {
    NumbersItems(p.replicas, 4);
    NumbersItems(p.isr, 4);
    hide AllItems, Numbers;
    var ints := Deque(Int(4));
    var a := Both(ints, ints).items((p.replicas, p.isr));
    assert a == ([Num(|p.replicas|, 4)] + Numbers(p.replicas, 4)) + ([Num(|p.isr|, 4)] + Numbers(p.isr, 4));
    var b := Both(Int(4), Both(ints, ints)).items((p.leader, (p.replicas, p.isr)));
    assert b == [Num(p.leader, 4)] + a;
    var c := Both(Int(4), Both(Int(4), Both(ints, ints))).items((p.id, (p.leader, (p.replicas, p.isr))));
    assert c == [Num(p.id, 4)] + b;
    assert PartitionCodec().items(p) == PartitionLayout().items(PartitionFields(p)) == [Num(p.err, 2)] + c;
  }

  lemma TopicLayout(t: TopicMetaData)
    ensures TopicCodec().items(t) ==
      [Num(t.err, 2), Str(t.name), Num(|t.partitions|, 4)] + AllItems(PartitionCodec(), t.partitions)
  {
    hide AllItems, PartitionCodec;
    var a := Both(Text(), Deque(PartitionCodec())).items((t.name, t.partitions));
    assert a == [Str(t.name)] + ([Num(|t.partitions|, 4)] + AllItems(PartitionCodec(), t.partitions));
    assert TopicCodec().items(t) ==
      Both(Int(2), Both(Text(), Deque(PartitionCodec()))).items(TopicFields(t)) == [Num(t.err, 2)] + a;
  }

  lemma MetadataLayout(r: MetadataResponse)
    ensures MetadataCodec().items(r) ==
      [Num(|r.brokers|, 4)] + AllItems(BrokerCodec(), r.brokers)
      + [Num(|r.topics|, 4)] + AllItems(TopicCodec(), r.topics)
  {
    hide AllItems, BrokerCodec, TopicCodec;
    var c := Both(Deque(BrokerCodec()), Deque(TopicCodec()));
    assert MetadataCodec().items(r) == c.items(MetadataFields(r)) ==
      ([Num(|r.brokers|, 4)] + AllItems(BrokerCodec(), r.brokers))
      + ([Num(|r.topics|, 4)] + AllItems(TopicCodec(), r.topics));
  }

  lemma ResultLayout(p: ProduceResult)
    ensures ResultCodec().items(p) == [Num(p.id, 4), Num(p.err, 2), Num(p.offset, 8)]
  {
    var f := ResultFields(p);
    assert Both(Int(2), Int(8)).items(f.1) == [Num(p.err, 2), Num(p.offset, 8)];
    assert ResultCodec().items(p) ==
      Both(Int(4), Both(Int(2), Int(8))).items(f) == [Num(p.id, 4)] + [Num(p.err, 2), Num(p.offset, 8)];
  }

  lemma ProduceResponseLayout(r: ProduceResponse)
    ensures ProduceResponseCodec().items(r) == [Num(|r.topics|, 4)] + AllItems(ResultTopicCodec(), r.topics)
    ensures forall t ::
      ResultTopicCodec().items(t) == [Str(t.name), Num(|t.partitions|, 4)] + AllItems(ResultCodec(), t.partitions)
  {
    hide AllItems, ResultCodec;
    assert ProduceResponseCodec().items(r) == Deque(ResultTopicCodec()).items(ResponseFields(r));
    forall t
      ensures ResultTopicCodec().items(t) ==
        [Str(t.name), Num(|t.partitions|, 4)] + AllItems(ResultCodec(), t.partitions)
    {
      var c := Both(Text(), Deque(ResultCodec()));
      assert ResultTopicCodec().items(t) ==
        c.items(ResultTopicFields(t)) ==
          [Str(t.name)] + ([Num(|t.partitions|, 4)] + AllItems(ResultCodec(), t.partitions));
    }
  }

  lemma BatchTopicLayout(libs: Libraries, t: BatchTopic, depth: nat)
    ensures BatchTopicCodec(libs, depth).items(t) ==
      [Str(t.name), Num(|t.partitions|, 4)] + AllItems(BatchCodec(libs, depth), t.partitions)
    ensures forall b :: BatchCodec(libs, depth).items(b) == [Num(b.id, 4), Len(SetItems(libs, b.messages))]
  {
    hide AllItems, SetItems;
    var c := Both(Text(), Deque(BatchCodec(libs, depth)));
    assert BatchTopicCodec(libs, depth).items(t) == c.items(BatchTopicFields(t)) ==
      [Str(t.name)] + ([Num(|t.partitions|, 4)] + AllItems(BatchCodec(libs, depth), t.partitions));
  }

  lemma ProduceRequestLayout(libs: Libraries, r: ProduceRequest, depth: nat)
    ensures ProduceRequestCodec(libs, depth).items(r) ==
      [Num(r.acks, 2), Num(r.timeout, 4), Num(|r.topics|, 4)] + AllItems(BatchTopicCodec(libs, depth), r.topics)
  {
    hide AllItems, BatchTopicCodec;
    var c := BatchTopicCodec(libs, depth);
    var a := Both(Int(4), Deque(c)).items((r.timeout, r.topics));
    assert a == [Num(r.timeout, 4)] + ([Num(|r.topics|, 4)] + AllItems(c, r.topics));
    assert ProduceRequestCodec(libs, depth).items(r) ==
      Both(Int(2), Both(Int(4), Deque(c))).items(RequestFields(r)) == [Num(r.acks, 2)] + a;
  }

  // ---------- lengths ----------

  /** A length-prefixed field: the bytes of the prefix, all of them 255 for the null value, and the value. */
  lemma SizedLayout(value: seq<byte>, width: nat, i: nat)
    requires i < width
    ensures var b := Sized(value, width);
      && |b| == width + |value| && b[width..] == value
      && b[i] == if value == [] then 255 else (|value| / Pow256(width - 1 - i)) % 256
  {
    hide EncodeInt;
    NetworkOrder(|value|, width, i);
    NetworkOrder(-1, width, i);
    MinusOne(Pow256(width - 1 - i));
  }

  lemma MinusOne(p: nat)
    requires p > 0
    ensures (-1 / p) % 256 == 255
  {
    Remainder(-1, p, -1, p - 1);
  }

  /** A string or a byte field is refused exactly if its length is no value of its prefix. */
  lemma LengthLimit(libs: Libraries, value: seq<byte>)
    ensures Encode(libs, [Str(value)]).Failed? <==> !Fits(|value|, 2)
    ensures Encode(libs, [Blob(value)]).Failed? <==> !Fits(|value|, 4)
  {
    Widths();
    EncodeOne(libs, Str(value));
    EncodeOne(libs, Blob(value));
  }

  // ---------- messages ----------

  /** The compression codes of the protocol. */
  function Attributes(c: CompressionType): byte {
    match c
    case CompNone => 0
    case CompGzip => 1
    case CompSnappy => 2
    case CompInvalid => 3
  }

  /**
   An entry of a message set byte by byte: offset, the number of bytes after the next four, the
   checksum of the bytes after it, magic byte 0, compression, key and value.
   */
  predicate EntryLaidOut(b: seq<byte>, offset: int, attributes: byte, key: seq<byte>, field: seq<byte>) {
    && |b| == 18 + |Sized(key, 4)| + |field|
    && b[..8] == EncodeInt(offset, 8)
    && b[8..12] == EncodeInt(|b| - 12, 4)
    && b[12..16] == EncodeInt(Crc(b[16..]), 4)
    && b[16] == 0
    && b[17] == attributes
    && b[18..] == Sized(key, 4) + field
  }

  lemma EntryBytes(offset: int, attributes: byte, key: seq<byte>, field: seq<byte>)
    ensures EntryLaidOut(MessageCodec.Entry(offset, MessageCodec.Record(MessageCodec.Body(0, attributes, key, field))),
                         offset, attributes, key, field)
  {
    hide EncodeInt, Crc, Sized;
    var body := MessageCodec.Body(0, attributes, key, field);
    var record := MessageCodec.Record(body);
    var b := MessageCodec.Entry(offset, record);
    assert b[12..] == record && b[16..] == record[4..] == body;
    assert b[12..16] == record[..4];
    assert body[2..] == Sized(key, 4) + field;
  }

  /** A message of an uncompressed set, and the one message that holds a compressed one. */
  lemma EntryLayout(libs: Libraries, m: Message, field: seq<byte>)
    requires |m.key| <= MAX_BYTES && Encode(libs, ValueItems(m)) == Packet(field)
    ensures var e := Encode(libs, EntryItems(m));
      e.Packet? && EntryLaidOut(e.bytes, m.offset, Attributes(m.compression), m.key, field)
  {
    MessageCodec.EncodeEntry(libs, m, field);
    EntryBytes(m.offset, Code(m.compression), m.key, field);
    hide Encode, EntryLaidOut;
  }

  lemma CompressedLayout(libs: Libraries, s: MSet)
    requires Lawful(libs) && MessageCodec.AllPlain(s.messages)
    requires s.compression == CompGzip || s.compression == CompSnappy
    ensures var e, plain := EncodeSet(libs, s), Encode(libs, PlainItems(s.messages));
      && e.Packet? && plain.Packet?
      && var out := (if s.compression == CompGzip then libs.gzip else libs.snappy).compress(plain.bytes);
         EntryLaidOut(e.bytes, 0, if s.compression == CompGzip then 1 else 2, [], EncodeInt(|out|, 4) + out)
  {
    SetRoundTrip.EncodeSetBytes(libs, s);
    MessageCodec.EncodePlain(libs, s.messages);
    var out := SetRoundTrip.Compressed(libs, s);
    EntryBytes(0, Code(s.compression), [], EncodeInt(|out|, 4) + out);
    hide Encode, EntryLaidOut, MessageCodec.Entry;
  }
}
