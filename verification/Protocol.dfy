/**
 The request and response structures: each is one description read by the encoder and the
 decoder alike. A codec pairs the fields written for a value with the function that reads
 them; what is read may differ in type from what is written (a received message set is not
 the sender's object), so it is written for W and read as R.
 */
module Protocol {
  import opened Bytes
  import opened Wire
  import opened Decoder
  import opened Encoder
  import opened MessageFormat
  import opened MessageCodec
  import opened SetRoundTrip
  import opened Admission
  import opened MessageSets

  datatype Codec<!W, !R> = Codec(items: W -> seq<Item>, read: Dec -> (Dec, R))

  /** Reading gave y and moved the decoder past exactly n bytes. */
  predicate Gives<R(==)>(d: Dec, r: (Dec, R), n: nat, y: R) {
    r.1 == y && r.0.(last := d.last) == Skip(d, n)
  }

  /**
   x is encodable, and wherever its bytes stand in a packet they are read as y with the
   decoder left on the byte after them.
   */
  ghost predicate RoundTrips<W(!new), R(!new)>(libs: Libraries, c: Codec<W, R>, x: W, y: R) {
    var e := Encode(libs, c.items(x));
    && AllChecksNonEmpty(c.items(x))
    && e.Packet?
    && forall d: Dec :: At(d, e.bytes) ==> Gives(d, c.read(d), |e.bytes|, y)
  }

  // ---------- building codecs ----------

  function Int(width: nat): Codec<int, int> {
    Codec((v: int) => [Num(v, width)], (d: Dec) => ReadNum(d, width))
  }

  function Text(): Codec<seq<byte>, seq<byte>> {
    Codec((s: seq<byte>) => [Str(s)], (d: Dec) => ReadSized(d, 2))
  }

  /** One field after another. */
  function Both<A, B, C, D>(a: Codec<A, B>, b: Codec<C, D>): Codec<(A, C), (B, D)> {
    Codec(
      (x: (A, C)) => a.items(x.0) + b.items(x.1),
      (d: Dec) => var (d1, y) := a.read(d); var (d2, v) := b.read(d1); (d2, (y, v)))
  }

  function AllItems<W, R>(c: Codec<W, R>, xs: seq<W>): seq<Item> {
    if xs == [] then [] else c.items(xs[0]) + AllItems(c, xs[1..])
  }

  /** The element loop of the std::deque template: stops at the first element that fails. */
  function ReadElements<W, R>(c: Codec<W, R>, d: Dec, n: int): (Dec, seq<R>)
    decreases n
  {
    if n <= 0 then (d, []) else
    var (d1, y) := c.read(d);
    if !d1.Ok() then (d1, []) else
    var (d2, ys) := ReadElements(c, d1, n - 1);
    (d2, [y] + ys)
  }

  function ReadDeque<W, R>(c: Codec<W, R>, d: Dec): (Dec, seq<R>) {
    var (d1, n) := ReadNum(d, 4);
    ReadElements(c, d1, n)
  }

  function Deque<W, R>(c: Codec<W, R>): Codec<seq<W>, seq<R>> {
    Codec((xs: seq<W>) => [Num(|xs|, 4)] + AllItems(c, xs), (d: Dec) => ReadDeque(c, d))
  }

  /** The reading half of the std::deque template, element by element. */
  method GetDeque<W, R>(c: Codec<W, R>, d: Dec) returns (after: Dec, read: seq<R>)
    ensures (after, read) == ReadDeque(c, d)
  {
    hide ReadNum;
    var (start, size) := ReadNum(d, 4);
    after := start;
    read := [];
    ghost var whole := ReadDeque(c, d);
    assert read + whole.1 == whole.1;
    while size > 0
      invariant ReadElements(c, after, size).0 == whole.0 && read + ReadElements(c, after, size).1 == whole.1
      decreases size
    {
      var (e, y) := c.read(after);
      ghost var rest := ReadElements(c, e, size - 1).1;
      assert read + ([y] + rest) == read + [y] + rest;
      assert read + [] == read;
      after := e;
      if !e.Ok() { return; }
      read := read + [y];
      size := size - 1;
    }
    assert read + [] == read;
  }

  /** The writing half: the count, then each element's fields through the same encoder. */
  method PutDeque<W, R>(e: PacketEncoder, libs: Libraries, c: Codec<W, R>, xs: seq<W>)
    requires e.Valid() && e.cursor == e.size && Lawful(libs) && AllChecksNonEmpty(AllItems(c, xs))
    modifies e, e.buff
    ensures e.Valid() && (e.buff == old(e.buff) || fresh(e.buff)) && e.cursor == e.size
    ensures e.State() == Then(old(e.State()), Encode(libs, Deque(c).items(xs)))
  {
    hide Lawful;
    EncodeCons(libs, Num(|xs|, 4), AllItems(c, xs));
    e.WriteItem(libs, Num(|xs|, 4));
    ThenAssociative(old(e.State()), EncodeItem(libs, Num(|xs|, 4)), Encode(libs, AllItems(c, xs)));
    ghost var whole := Then(old(e.State()), Encode(libs, Deque(c).items(xs)));
    var i := 0;
    hide Then, Encode, AllChecksNonEmpty;
    while i < |xs|
      invariant 0 <= i <= |xs| && AllChecksNonEmpty(AllItems(c, xs[i..]))
      invariant e.Valid() && (e.buff == old(e.buff) || fresh(e.buff)) && e.cursor == e.size
      invariant Then(e.State(), Encode(libs, AllItems(c, xs[i..]))) == whole
    {
      NextElement(libs, c, xs, i, e.State());
      e.WriteItems(libs, c.items(xs[i]));
      i := i + 1;
    }
    ThenUnit(e.State());
  }

  /** Writing the elements from i on is writing element i and then the others. */
  lemma NextElement<W, R>(libs: Libraries, c: Codec<W, R>, xs: seq<W>, i: nat, e: Encoded)
    requires i < |xs|
    ensures var items, rest := c.items(xs[i]), AllItems(c, xs[i + 1..]);
      && (AllChecksNonEmpty(AllItems(c, xs[i..])) <==> AllChecksNonEmpty(items) && AllChecksNonEmpty(rest))
      && Then(e, Encode(libs, AllItems(c, xs[i..]))) == Then(Then(e, Encode(libs, items)), Encode(libs, rest))
  {
    hide Then, Encode, AllChecksNonEmpty;
    assert xs[i..][0] == xs[i] && xs[i..][1..] == xs[i + 1..];
    var items, rest := c.items(xs[i]), AllItems(c, xs[i + 1..]);
    ChecksAppend(items, rest);
    EncodeAppend(libs, items, rest);
    ThenAssociative(e, Encode(libs, items), Encode(libs, rest));
  }

  predicate ReadsTo<W, R(==)>(c: Codec<W, R>, d: Dec, y: R, next: Dec) {
    c.read(d) == (next, y) && next.Ok()
  }

  /** ys are read one after the other: ds are the decoders before the first, between them and after the last. */
  ghost predicate Chain<W, R>(c: Codec<W, R>, ds: seq<Dec>, ys: seq<R>) {
    |ds| == |ys| + 1 && forall i :: 0 <= i < |ys| ==> ReadsTo(c, ds[i], ys[i], ds[i + 1])
  }

  lemma ChainCons<W, R>(c: Codec<W, R>, d: Dec, y: R, ds: seq<Dec>, ys: seq<R>)
    requires Chain(c, ds, ys) && ReadsTo(c, d, y, ds[0])
    ensures Chain(c, [d] + ds, [y] + ys)
  {
    var es, zs := [d] + ds, [y] + ys;
    forall i | 0 <= i < |zs| ensures ReadsTo(c, es[i], zs[i], es[i + 1]) {
      if i > 0 { assert ReadsTo(c, ds[i - 1], ys[i - 1], ds[i]); }
    }
  }

  lemma {:induction false} ElementsExact<W, R>(c: Codec<W, R>, d: Dec, n: int) returns (ds: seq<Dec>)
    ensures var (after, ys) := ReadElements(c, d, n);
      && Chain(c, ds, ys) && ds[0] == d && |ys| <= (if n < 0 then 0 else n)
      && (|ys| >= n ==> after == ds[|ys|])
      && (|ys| < n ==> after == c.read(ds[|ys|]).0 && !after.Ok())
    decreases n
  {
    ds := [d];
    if n > 0 && c.read(d).0.Ok() {
      var rest := ElementsExact(c, c.read(d).0, n - 1);
      ChainCons(c, d, c.read(d).1, rest, ReadElements(c, c.read(d).0, n - 1).1);
      hide Chain;
      ds := [d] + rest;
    }
  }

  /**
   A sequence field of any packet: what is read is the elements up to the announced number, none
   for a negative one, or up to the first that fails, whose error is the error of the whole.
   */
  lemma DequeExact<W, R>(c: Codec<W, R>, d: Dec) returns (ds: seq<Dec>)
    ensures var ((start, n), (after, ys)) := (ReadNum(d, 4), Deque(c).read(d));
      && Chain(c, ds, ys) && ds[0] == start && |ys| <= (if n < 0 then 0 else n)
      && (|ys| >= n ==> after == ds[|ys|])
      && (|ys| < n ==> after == c.read(ds[|ys|]).0 && !after.Ok())
  {
    ds := ElementsExact(c, ReadNum(d, 4).0, ReadNum(d, 4).1);
  }

  // ---------- and why they work ----------

  lemma {:induction false} ChecksAppend(a: seq<Item>, b: seq<Item>)
    ensures AllChecksNonEmpty(a + b) <==> AllChecksNonEmpty(a) && AllChecksNonEmpty(b)
  {
    if a == [] {
      assert a + b == b;
    } else {
      assert (a + b)[1..] == a[1..] + b;
      ChecksAppend(a[1..], b);
    }
  }

  lemma IntRoundTrips(libs: Libraries, v: int, width: nat)
    requires 0 < width < TWO64 && Fits(v, width)
    ensures RoundTrips(libs, Int(width), v, v)
  {
    hide ReadNum, EncodeInt, At;
    EncodeOne(libs, Num(v, width));
    assert Int(width).items(v) == [Num(v, width)] + [];
    ChecksCons(Num(v, width), []);
    forall d: Dec | At(d, EncodeInt(v, width)) ensures Gives(d, ReadNum(d, width), width, v) {
      assert EncodeInt(v, width) + [] == EncodeInt(v, width);
      ReadNumAt(d, v, width, []);
    }
  }

  lemma TextRoundTrips(libs: Libraries, s: seq<byte>)
    requires |s| <= MAX_STRING
    ensures RoundTrips(libs, Text(), s, s)
  {
    hide ReadSized, Sized, At;
    EncodeOne(libs, Str(s));
    assert Text().items(s) == [Str(s)] + [];
    ChecksCons(Str(s), []);
    Widths();
    forall d: Dec | At(d, Sized(s, 2)) ensures Gives(d, ReadSized(d, 2), |Sized(s, 2)|, s) {
      assert Sized(s, 2) + [] == Sized(s, 2);
      ReadSizedAt(d, s, 2, []);
    }
  }

  lemma BothRoundTrips<A(!new), B(!new), C(!new), D(!new)>(
      libs: Libraries, a: Codec<A, B>, b: Codec<C, D>, x: A, y: B, u: C, v: D)
    requires RoundTrips(libs, a, x, y) && RoundTrips(libs, b, u, v)
    ensures RoundTrips(libs, Both(a, b), (x, u), (y, v))
  {
    hide At, Encode;
    EncodeAppend(libs, a.items(x), b.items(u));
    ChecksAppend(a.items(x), b.items(u));
    var p, q := Encode(libs, a.items(x)).bytes, Encode(libs, b.items(u)).bytes;
    forall d: Dec | At(d, p + q) ensures Gives(d, Both(a, b).read(d), |p + q|, (y, v)) {
      AtSkip(d, p, q);
      var (d1, _) := a.read(d);
      AtLast(Skip(d, |p|), d1, q);
      assert Gives(d1, b.read(d1), |q|, v);
    }
  }

  /** The last decompressed buffer plays no part in what is to be read. */
  lemma AtLast(d: Dec, e: Dec, s: seq<byte>)
    requires At(d, s) && e.(last := d.last) == d
    ensures At(e, s)
  {}

  ghost predicate AllRoundTrip<W(!new), R(!new)>(libs: Libraries, c: Codec<W, R>, xs: seq<W>, ys: seq<R>) {
    |xs| == |ys| && forall i :: 0 <= i < |xs| ==> RoundTrips(libs, c, xs[i], ys[i])
  }

  lemma {:induction false} ElementsRoundTrip<W(!new), R(!new)>(libs: Libraries, c: Codec<W, R>, xs: seq<W>, ys: seq<R>)
    requires AllRoundTrip(libs, c, xs, ys)
    ensures AllChecksNonEmpty(AllItems(c, xs)) && Encode(libs, AllItems(c, xs)).Packet?
    ensures forall d: Dec :: At(d, Encode(libs, AllItems(c, xs)).bytes) ==>
      Gives(d, ReadElements(c, d, |xs|), |Encode(libs, AllItems(c, xs)).bytes|, ys)
    decreases |xs|
  {
    hide At;
    if xs != [] {
      assert AllItems(c, xs) == c.items(xs[0]) + AllItems(c, xs[1..]) && RoundTrips(libs, c, xs[0], ys[0]);
      hide Encode, Gives, ReadElements, AllChecksNonEmpty, AllItems;
      ElementsRoundTrip(libs, c, xs[1..], ys[1..]);
      EncodeAppend(libs, c.items(xs[0]), AllItems(c, xs[1..]));
      ChecksAppend(c.items(xs[0]), AllItems(c, xs[1..]));
      var p, q := Encode(libs, c.items(xs[0])).bytes, Encode(libs, AllItems(c, xs[1..])).bytes;
      assert ys == [ys[0]] + ys[1..];
      forall d: Dec | At(d, p + q) ensures Gives(d, ReadElements(c, d, |xs|), |p + q|, ys) {
        AtSkip(d, p, q);
        assert Gives(d, c.read(d), |p|, ys[0]);
        ElementThenRest(c, d, |xs|, p, q, ys[0], ys[1..]);
      }
    }
  }

  lemma ElementThenRest<W(!new), R(!new)>(c: Codec<W, R>, d: Dec, n: nat, p: seq<byte>, q: seq<byte>, y: R, ys: seq<R>)
    requires n > 0 && At(d, p + q) && Gives(d, c.read(d), |p|, y)
    requires forall e: Dec :: At(e, q) ==> Gives(e, ReadElements(c, e, n - 1), |q|, ys)
    ensures Gives(d, ReadElements(c, d, n), |p + q|, [y] + ys)
  {
    hide At;
    AtSkip(d, p, q);
    var (d1, _) := c.read(d);
    AtOk(d, p);
    AtLast(Skip(d, |p|), d1, q);
    assert Gives(d1, ReadElements(c, d1, n - 1), |q|, ys);
  }

  lemma DequeRoundTrips<W(!new), R(!new)>(libs: Libraries, c: Codec<W, R>, xs: seq<W>, ys: seq<R>)
    requires AllRoundTrip(libs, c, xs, ys) && |xs| <= MAX_BYTES
    ensures RoundTrips(libs, Deque(c), xs, ys)
  {
    hide At, EncodeInt, ReadNum;
    ElementsRoundTrip(libs, c, xs, ys);
    Widths();
    EncodeCons(libs, Num(|xs|, 4), AllItems(c, xs));
    ChecksCons(Num(|xs|, 4), AllItems(c, xs));
    var q := Encode(libs, AllItems(c, xs)).bytes;
    forall d: Dec | At(d, EncodeInt(|xs|, 4) + q) ensures Gives(d, ReadDeque(c, d), |EncodeInt(|xs|, 4) + q|, ys) {
      ReadNumAt(d, |xs|, 4, q);
      assert Gives(Skip(d, 4), ReadElements(c, Skip(d, 4), |xs|), |q|, ys);
    }
  }

  // ---------- and when they throw ----------

  /** x is encodable, and wherever its bytes stand in a packet, reading them ends in an exception. */
  ghost predicate FaultsOn<W(!new), R(!new)>(libs: Libraries, c: Codec<W, R>, x: W) {
    var e := Encode(libs, c.items(x));
    && AllChecksNonEmpty(c.items(x))
    && e.Packet?
    && forall d: Dec :: At(d, e.bytes) ==> c.read(d).0.err == Fault
  }

  /** x is read as y if it is good, and to an exception if it is not. */
  ghost predicate Reads<W(!new), R(!new)>(libs: Libraries, c: Codec<W, R>, x: W, y: R, good: bool) {
    if good then RoundTrips(libs, c, x, y) else FaultsOn(libs, c, x)
  }

  lemma BothReads<A(!new), B(!new), C(!new), D(!new)>(
    libs: Libraries, a: Codec<A, B>, b: Codec<C, D>, x: A, y: B, u: C, v: D, good: bool)
    requires RoundTrips(libs, a, x, y) && Reads(libs, b, u, v, good)
    ensures Reads(libs, Both(a, b), (x, u), (y, v), good)
  {
    if good {
      hide RoundTrips;
      BothRoundTrips(libs, a, b, x, y, u, v);
    } else {
      hide At, Encode;
      EncodeAppend(libs, a.items(x), b.items(u));
      ChecksAppend(a.items(x), b.items(u));
      var p, q := Encode(libs, a.items(x)).bytes, Encode(libs, b.items(u)).bytes;
      forall d: Dec | At(d, p + q) ensures Both(a, b).read(d).0.err == Fault {
        AtSkip(d, p, q);
        AtLast(Skip(d, |p|), a.read(d).0, q);
      }
    }
  }

  lemma StructReads<A(!new), B(!new), C(!new), D(!new)>(
    libs: Libraries, c: Codec<A, B>, fields: C -> A, make: B -> D, x: C, y: B, good: bool)
    requires Reads(libs, c, fields(x), y, good)
    ensures Reads(libs, Struct(c, fields, make), x, make(y), good)
  {
    hide At, Encode;
    if good {
      StructRoundTrips(libs, c, fields, make, x, y);
    } else {
      assert Struct(c, fields, make).items(x) == c.items(fields(x));
    }
  }

  /** Each element is read as its own goodness says. */
  ghost predicate EachReads<W(!new), R(!new)>(
      libs: Libraries, c: Codec<W, R>, xs: seq<W>, ys: seq<R>, goods: seq<bool>)
  {
    |xs| == |ys| == |goods| && forall i :: 0 <= i < |xs| ==> Reads(libs, c, xs[i], ys[i], goods[i])
  }

  predicate All(goods: seq<bool>) {
    forall i :: 0 <= i < |goods| ==> goods[i]
  }

  /** The element loop gives up at the first element that throws. */
  lemma {:induction false} ElementsFault<W(!new), R(!new)>(
    libs: Libraries, c: Codec<W, R>, xs: seq<W>, ys: seq<R>, goods: seq<bool>)
    requires EachReads(libs, c, xs, ys, goods)
    ensures AllChecksNonEmpty(AllItems(c, xs)) && Encode(libs, AllItems(c, xs)).Packet?
    ensures !All(goods) ==> forall d: Dec ::
      At(d, Encode(libs, AllItems(c, xs)).bytes) ==> ReadElements(c, d, |xs|).0.err == Fault
    decreases |xs|
  {
    if xs != [] {
      var x, y, more := xs[0], ys[0], AllItems(c, xs[1..]);
      assert AllItems(c, xs) == c.items(x) + more && Reads(libs, c, x, y, goods[0]);
      All1(goods);
      hide At, Encode, AllChecksNonEmpty, AllItems, All, ReadElements;
      ElementsFault(libs, c, xs[1..], ys[1..], goods[1..]);
      EncodeAppend(libs, c.items(x), more);
      ChecksAppend(c.items(x), more);
      var p, q := Encode(libs, c.items(x)).bytes, Encode(libs, more).bytes;
      if !All(goods) {
        forall d: Dec | At(d, p + q) ensures ReadElements(c, d, |xs|).0.err == Fault {
          AtSkip(d, p, q);
          if goods[0] { AtOk(d, p); AtLast(Skip(d, |p|), c.read(d).0, q); }
          OneElement(c, d, |xs|);
        }
      }
    }
  }

  lemma All1(goods: seq<bool>)
    requires goods != []
    ensures All(goods) <==> goods[0] && All(goods[1..])
  {
    if goods[0] && All(goods[1..]) {
      forall i | 0 <= i < |goods| ensures goods[i] { if i > 0 { assert goods[1..][i - 1]; } }
    }
  }

  lemma OneElement<W, R>(c: Codec<W, R>, d: Dec, n: int)
    requires n > 0
    ensures var d1 := c.read(d).0; ReadElements(c, d, n).0 == if d1.Ok() then ReadElements(c, d1, n - 1).0 else d1
  {}

  lemma DequeReads<W(!new), R(!new)>(libs: Libraries, c: Codec<W, R>, xs: seq<W>, ys: seq<R>, goods: seq<bool>)
    requires EachReads(libs, c, xs, ys, goods) && |xs| <= MAX_BYTES
    ensures Reads(libs, Deque(c), xs, ys, All(goods))
  {
    if All(goods) {
      hide RoundTrips;
      assert AllRoundTrip(libs, c, xs, ys);
      DequeRoundTrips(libs, c, xs, ys);
    } else {
      hide At, EncodeInt, ReadNum;
      ElementsFault(libs, c, xs, ys, goods);
      Widths();
      EncodeCons(libs, Num(|xs|, 4), AllItems(c, xs));
      ChecksCons(Num(|xs|, 4), AllItems(c, xs));
      var q := Encode(libs, AllItems(c, xs)).bytes;
      forall d: Dec | At(d, EncodeInt(|xs|, 4) + q) ensures ReadDeque(c, d).0.err == Fault {
        ReadNumAt(d, |xs|, 4, q);
      }
    }
  }

  // ---------- requests and responses ----------

  datatype Broker = Broker(nodeId: int, host: seq<byte>, port: int)
  datatype PartitionMetaData = PartitionMetaData(err: int, id: int, leader: int, replicas: seq<int>, isr: seq<int>)
  datatype TopicMetaData = TopicMetaData(err: int, name: seq<byte>, partitions: seq<PartitionMetaData>)
  datatype MetadataResponse = MetadataResponse(brokers: seq<Broker>, topics: seq<TopicMetaData>)
  datatype ProduceResult = ProduceResult(id: int, err: int, offset: int)
  datatype ProduceResultTopic = ProduceResultTopic(name: seq<byte>, partitions: seq<ProduceResult>)
  datatype ProduceResponse = ProduceResponse(topics: seq<ProduceResultTopic>)
  datatype Batch = Batch(id: int, messages: MSet)
  datatype BatchTopic = BatchTopic(name: seq<byte>, partitions: seq<Batch>)
  datatype ProduceRequest = ProduceRequest(acks: int, timeout: int, topics: seq<BatchTopic>)

  /** A struct is its fields, in order. */
  function Struct<A, B, C, D>(c: Codec<A, B>, fields: C -> A, make: B -> D): Codec<C, D> {
    Codec((x: C) => c.items(fields(x)), (d: Dec) => var (d1, y) := c.read(d); (d1, make(y)))
  }

  lemma StructRoundTrips<A(!new), B(!new), C(!new), D(!new)>(
      libs: Libraries, c: Codec<A, B>, fields: C -> A, make: B -> D, x: C, y: B)
    requires RoundTrips(libs, c, fields(x), y)
    ensures RoundTrips(libs, Struct(c, fields, make), x, make(y))
  {}

  // Each structure below: its fields in wire order, its codec, the values the format can
  // carry, and the round trip for all of them.

  function BrokerFields(b: Broker): (int, (seq<byte>, int)) { (b.nodeId, (b.host, b.port)) }
  function MakeBroker(t: (int, (seq<byte>, int))): Broker { Broker(t.0, t.1.0, t.1.1) }

  function BrokerCodec(): Codec<Broker, Broker> {
    Struct(Both(Int(4), Both(Text(), Int(4))), BrokerFields, MakeBroker)
  }

  predicate GoodBroker(b: Broker) {
    Fits(b.nodeId, 4) && |b.host| <= MAX_STRING && Fits(b.port, 4)
  }

  lemma BrokerRoundTrips(libs: Libraries, b: Broker)
    requires GoodBroker(b)
    ensures RoundTrips(libs, BrokerCodec(), b, b)
  {
    hide RoundTrips;
    var f := BrokerFields(b);
    IntRoundTrips(libs, b.nodeId, 4);
    TextRoundTrips(libs, b.host);
    IntRoundTrips(libs, b.port, 4);
    BothRoundTrips(libs, Text(), Int(4), b.host, b.host, b.port, b.port);
    BothRoundTrips(libs, Int(4), Both(Text(), Int(4)), b.nodeId, b.nodeId, f.1, f.1);
    StructRoundTrips(libs, Both(Int(4), Both(Text(), Int(4))), BrokerFields, MakeBroker, b, f);
  }

  lemma IntsRoundTrip(libs: Libraries, xs: seq<int>)
    requires |xs| <= MAX_BYTES && forall i :: 0 <= i < |xs| ==> Fits(xs[i], 4)
    ensures RoundTrips(libs, Deque(Int(4)), xs, xs)
  {
    hide RoundTrips;
    forall i | 0 <= i < |xs| ensures RoundTrips(libs, Int(4), xs[i], xs[i]) { IntRoundTrips(libs, xs[i], 4); }
    DequeRoundTrips(libs, Int(4), xs, xs);
  }

  /** The topic names of a metadata request; none asks for all. */
  lemma TopicNamesRoundTrip(libs: Libraries, names: seq<seq<byte>>)
    requires |names| <= MAX_BYTES && forall i :: 0 <= i < |names| ==> |names[i]| <= MAX_STRING
    ensures RoundTrips(libs, Deque(Text()), names, names)
  {
    hide RoundTrips;
    forall i | 0 <= i < |names| ensures RoundTrips(libs, Text(), names[i], names[i]) { TextRoundTrips(libs, names[i]); }
    DequeRoundTrips(libs, Text(), names, names);
  }

  type PartitionTuple = (int, (int, (int, (seq<int>, seq<int>))))

  function PartitionFields(p: PartitionMetaData): PartitionTuple { (p.err, (p.id, (p.leader, (p.replicas, p.isr)))) }
  function MakePartition(t: PartitionTuple): PartitionMetaData {
    PartitionMetaData(t.0, t.1.0, t.1.1.0, t.1.1.1.0, t.1.1.1.1)
  }

  function PartitionLayout(): Codec<PartitionTuple, PartitionTuple> {
    Both(Int(2), Both(Int(4), Both(Int(4), Both(Deque(Int(4)), Deque(Int(4))))))
  }

  function PartitionCodec(): Codec<PartitionMetaData, PartitionMetaData> {
    Struct(PartitionLayout(), PartitionFields, MakePartition)
  }

  predicate GoodPartition(p: PartitionMetaData) {
    && Fits(p.err, 2) && Fits(p.id, 4) && Fits(p.leader, 4)
    && |p.replicas| <= MAX_BYTES && (forall i :: 0 <= i < |p.replicas| ==> Fits(p.replicas[i], 4))
    && |p.isr| <= MAX_BYTES && (forall i :: 0 <= i < |p.isr| ==> Fits(p.isr[i], 4))
  }

  lemma PartitionRoundTrips(libs: Libraries, p: PartitionMetaData)
    requires GoodPartition(p)
    ensures RoundTrips(libs, PartitionCodec(), p, p)
  {
    hide RoundTrips;
    var f := PartitionFields(p);
    var ints := Deque(Int(4));
    IntRoundTrips(libs, p.err, 2);
    IntRoundTrips(libs, p.id, 4);
    IntRoundTrips(libs, p.leader, 4);
    IntsRoundTrip(libs, p.replicas);
    IntsRoundTrip(libs, p.isr);
    BothRoundTrips(libs, ints, ints, p.replicas, p.replicas, p.isr, p.isr);
    BothRoundTrips(libs, Int(4), Both(ints, ints), p.leader, p.leader, f.1.1.1, f.1.1.1);
    BothRoundTrips(libs, Int(4), Both(Int(4), Both(ints, ints)), p.id, p.id, f.1.1, f.1.1);
    BothRoundTrips(libs, Int(2), Both(Int(4), Both(Int(4), Both(ints, ints))), p.err, p.err, f.1, f.1);
    StructRoundTrips(libs, PartitionLayout(), PartitionFields, MakePartition, p, f);
  }

  function TopicFields(t: TopicMetaData): (int, (seq<byte>, seq<PartitionMetaData>)) { (t.err, (t.name, t.partitions)) }
  function MakeTopic(t: (int, (seq<byte>, seq<PartitionMetaData>))): TopicMetaData { TopicMetaData(t.0, t.1.0, t.1.1) }

  function TopicCodec(): Codec<TopicMetaData, TopicMetaData> {
    Struct(Both(Int(2), Both(Text(), Deque(PartitionCodec()))), TopicFields, MakeTopic)
  }

  predicate GoodTopic(t: TopicMetaData) {
    && Fits(t.err, 2) && |t.name| <= MAX_STRING
    && |t.partitions| <= MAX_BYTES && (forall i :: 0 <= i < |t.partitions| ==> GoodPartition(t.partitions[i]))
  }

  lemma TopicRoundTrips(libs: Libraries, t: TopicMetaData)
    requires GoodTopic(t)
    ensures RoundTrips(libs, TopicCodec(), t, t)
  {
    hide RoundTrips, PartitionCodec;
    var f, ps, c := TopicFields(t), t.partitions, PartitionCodec();
    forall i | 0 <= i < |ps| ensures RoundTrips(libs, c, ps[i], ps[i]) { PartitionRoundTrips(libs, ps[i]); }
    DequeRoundTrips(libs, c, ps, ps);
    IntRoundTrips(libs, t.err, 2);
    TextRoundTrips(libs, t.name);
    BothRoundTrips(libs, Text(), Deque(c), t.name, t.name, ps, ps);
    BothRoundTrips(libs, Int(2), Both(Text(), Deque(c)), t.err, t.err, f.1, f.1);
    StructRoundTrips(libs, Both(Int(2), Both(Text(), Deque(c))), TopicFields, MakeTopic, t, f);
  }

  function MetadataFields(r: MetadataResponse): (seq<Broker>, seq<TopicMetaData>) { (r.brokers, r.topics) }
  function MakeMetadata(t: (seq<Broker>, seq<TopicMetaData>)): MetadataResponse { MetadataResponse(t.0, t.1) }

  function MetadataCodec(): Codec<MetadataResponse, MetadataResponse> {
    Struct(Both(Deque(BrokerCodec()), Deque(TopicCodec())), MetadataFields, MakeMetadata)
  }

  predicate GoodMetadata(r: MetadataResponse) {
    && |r.brokers| <= MAX_BYTES && (forall i :: 0 <= i < |r.brokers| ==> GoodBroker(r.brokers[i]))
    && |r.topics| <= MAX_BYTES && (forall i :: 0 <= i < |r.topics| ==> GoodTopic(r.topics[i]))
  }

  /** Every metadata response decodes back to itself. */
  lemma MetadataRoundTrips(libs: Libraries, r: MetadataResponse)
    requires GoodMetadata(r)
    ensures RoundTrips(libs, MetadataCodec(), r, r)
  {
    hide RoundTrips, BrokerCodec, TopicCodec;
    var bs, ts, b, t := r.brokers, r.topics, BrokerCodec(), TopicCodec();
    forall i | 0 <= i < |bs| ensures RoundTrips(libs, b, bs[i], bs[i]) { BrokerRoundTrips(libs, bs[i]); }
    forall i | 0 <= i < |ts| ensures RoundTrips(libs, t, ts[i], ts[i]) { TopicRoundTrips(libs, ts[i]); }
    DequeRoundTrips(libs, b, bs, bs);
    DequeRoundTrips(libs, t, ts, ts);
    BothRoundTrips(libs, Deque(b), Deque(t), bs, bs, ts, ts);
    StructRoundTrips(libs, Both(Deque(b), Deque(t)), MetadataFields, MakeMetadata, r, (bs, ts));
  }

  function ResultFields(p: ProduceResult): (int, (int, int)) { (p.id, (p.err, p.offset)) }
  function MakeResult(t: (int, (int, int))): ProduceResult { ProduceResult(t.0, t.1.0, t.1.1) }

  function ResultCodec(): Codec<ProduceResult, ProduceResult> {
    Struct(Both(Int(4), Both(Int(2), Int(8))), ResultFields, MakeResult)
  }

  predicate GoodResult(p: ProduceResult) {
    Fits(p.id, 4) && Fits(p.err, 2) && Fits(p.offset, 8)
  }

  lemma ResultRoundTrips(libs: Libraries, p: ProduceResult)
    requires GoodResult(p)
    ensures RoundTrips(libs, ResultCodec(), p, p)
  {
    hide RoundTrips;
    IntRoundTrips(libs, p.id, 4);
    IntRoundTrips(libs, p.err, 2);
    IntRoundTrips(libs, p.offset, 8);
    BothRoundTrips(libs, Int(2), Int(8), p.err, p.err, p.offset, p.offset);
    BothRoundTrips(libs, Int(4), Both(Int(2), Int(8)), p.id, p.id, (p.err, p.offset), (p.err, p.offset));
    StructRoundTrips(libs, Both(Int(4), Both(Int(2), Int(8))), ResultFields, MakeResult, p, ResultFields(p));
  }

  function ResultTopicFields(t: ProduceResultTopic): (seq<byte>, seq<ProduceResult>) { (t.name, t.partitions) }
  function MakeResultTopic(t: (seq<byte>, seq<ProduceResult>)): ProduceResultTopic { ProduceResultTopic(t.0, t.1) }

  function ResultTopicCodec(): Codec<ProduceResultTopic, ProduceResultTopic> {
    Struct(Both(Text(), Deque(ResultCodec())), ResultTopicFields, MakeResultTopic)
  }

  predicate GoodResultTopic(t: ProduceResultTopic) {
    && |t.name| <= MAX_STRING
    && |t.partitions| <= MAX_BYTES && (forall i :: 0 <= i < |t.partitions| ==> GoodResult(t.partitions[i]))
  }

  lemma ResultTopicRoundTrips(libs: Libraries, t: ProduceResultTopic)
    requires GoodResultTopic(t)
    ensures RoundTrips(libs, ResultTopicCodec(), t, t)
  {
    hide RoundTrips, ResultCodec;
    var ps, c := t.partitions, ResultCodec();
    forall i | 0 <= i < |ps| ensures RoundTrips(libs, c, ps[i], ps[i]) { ResultRoundTrips(libs, ps[i]); }
    DequeRoundTrips(libs, c, ps, ps);
    TextRoundTrips(libs, t.name);
    BothRoundTrips(libs, Text(), Deque(c), t.name, t.name, ps, ps);
    StructRoundTrips(libs, Both(Text(), Deque(c)), ResultTopicFields, MakeResultTopic, t, (t.name, ps));
  }

  function ResponseFields(r: ProduceResponse): seq<ProduceResultTopic> { r.topics }
  function MakeResponse(ts: seq<ProduceResultTopic>): ProduceResponse { ProduceResponse(ts) }

  function ProduceResponseCodec(): Codec<ProduceResponse, ProduceResponse> {
    Struct(Deque(ResultTopicCodec()), ResponseFields, MakeResponse)
  }

  predicate GoodProduceResponse(r: ProduceResponse) {
    |r.topics| <= MAX_BYTES && forall i :: 0 <= i < |r.topics| ==> GoodResultTopic(r.topics[i])
  }

  /** Every produce response decodes back to itself. */
  lemma ProduceResponseRoundTrips(libs: Libraries, r: ProduceResponse)
    requires GoodProduceResponse(r)
    ensures RoundTrips(libs, ProduceResponseCodec(), r, r)
  {
    hide RoundTrips, ResultTopicCodec;
    var ts, c := r.topics, ResultTopicCodec();
    forall i | 0 <= i < |ts| ensures RoundTrips(libs, c, ts[i], ts[i]) { ResultTopicRoundTrips(libs, ts[i]); }
    DequeRoundTrips(libs, c, ts, ts);
    StructRoundTrips(libs, Deque(c), ResponseFields, MakeResponse, r, ts);
  }

  // ---------- the produce request and its embedded message sets ----------

  /** A default-constructed MessageSet, which is what a batch is decoded into. */
  const FRESH: MSet := MSet([], 1000000, CompNone, 0)

  function SetItems(libs: Libraries, s: MSet): seq<Item> {
    var plain := Encode(libs, PlainItems(s.messages));
    if s.compression == CompNone || plain.Failed? then PlainItems(s.messages)
    else EntryItems(Wrapper(plain.bytes, s.compression))
  }

  function BatchItems(libs: Libraries, b: Batch): seq<Item> {
    [Num(b.id, 4), Len(SetItems(libs, b.messages))]
  }

  function ReadBatch(libs: Libraries, d: Dec, depth: nat): (Dec, Batch) {
    var (d1, id) := ReadNum(d, 4);
    var (d2, len) := ReadNum(d1, 4);
    var (d3, s) := DecodeSet(libs, d2, d2.cursor, FRESH, len, depth);
    (d3, Batch(id, s))
  }

  function BatchCodec(libs: Libraries, depth: nat): Codec<Batch, Batch> {
    Codec((b: Batch) => BatchItems(libs, b), (d: Dec) => ReadBatch(libs, d, depth))
  }

  predicate GoodBatch(libs: Libraries, b: Batch) {
    && Fits(b.id, 4)
    && AllPlain(b.messages.messages) && b.messages.compression != CompInvalid
    && Representable(libs, b.messages)
    && |SetBytes(libs, b.messages)| <= MAX_BYTES
  }

  /** The messages of a batch, pushed one by one into the receiving set. */
  function Arrived(libs: Libraries, b: Batch): Batch {
    Batch(b.id, PushAll(libs, FRESH, b.messages.messages))
  }

  /** What the receiving set keeps of a batch is all of it exactly if its messages are within the set's limit. */
  lemma ArrivedWhole(libs: Libraries, b: Batch)
    requires Lawful(libs)
    ensures Arrived(libs, b).messages.messages == b.messages.messages <==>
      TotalSize(b.messages.messages) <= FRESH.maxSize
  {
    hide Lawful, PushAll;
    KeptIffRoom(libs, FRESH, b.messages.messages);
    assert FRESH.messages + b.messages.messages == b.messages.messages;
  }

  lemma {:induction false} PlainChecks(ms: seq<Message>)
    ensures AllChecksNonEmpty(PlainItems(ms))
  {
    if ms != [] {
      EntryChecks(ms[0]);
      PlainChecks(ms[1..]);
      ChecksAppend(EntryItems(ms[0]), PlainItems(ms[1..]));
    }
  }

  lemma EncodeBatch(libs: Libraries, b: Batch)
    requires Lawful(libs) && GoodBatch(libs, b)
    ensures AllChecksNonEmpty(BatchItems(libs, b))
    ensures Encode(libs, BatchItems(libs, b)) ==
      Packet(EncodeInt(b.id, 4) + (EncodeInt(|SetBytes(libs, b.messages)|, 4) + SetBytes(libs, b.messages)))
  {
    hide EncodeInt, SetBytes, PlainItems, Representable, AllPlain;
    var s := b.messages;
    EncodeSetBytes(libs, s);
    PlainChecks(s.messages);
    if Encode(libs, PlainItems(s.messages)).Packet? {
      EntryChecks(Wrapper(Encode(libs, PlainItems(s.messages)).bytes, s.compression));
    }
    var len := Len(SetItems(libs, s));
    assert BatchItems(libs, b) == [Num(b.id, 4)] + [len];
    EncodeCons(libs, Num(b.id, 4), [len]);
    EncodeOne(libs, len);
    ChecksCons(Num(b.id, 4), [len]);
    assert [len] == [len] + [];
    ChecksCons(len, []);
  }

  lemma BatchRoundTrips(libs: Libraries, b: Batch, depth: nat)
    requires Lawful(libs) && GoodBatch(libs, b) && Recoverable(b.messages) && depth > 0
    ensures RoundTrips(libs, BatchCodec(libs, depth), b, Arrived(libs, b))
  {
    hide At, EncodeInt, ReadNum, SetBytes, DecodeSet, PlainItems, Encode, Representable, AllPlain, Recoverable;
    hide PushAll, Room;
    var s := b.messages;
    var bytes := SetBytes(libs, s);
    EncodeBatch(libs, b);
    Widths();
    forall d: Dec | At(d, EncodeInt(b.id, 4) + (EncodeInt(|bytes|, 4) + bytes))
      ensures Gives(d, ReadBatch(libs, d, depth), 8 + |bytes|, Arrived(libs, b))
    {
      ReadNumAt(d, b.id, 4, EncodeInt(|bytes|, 4) + bytes);
      ReadNumAt(Skip(d, 4), |bytes|, 4, bytes);
      SetInPacket(libs, Skip(d, 8), s, FRESH, depth);
    }
  }

  /** A batch that is not recoverable is read to an exception, wherever it stands. */
  lemma BatchFaults(libs: Libraries, b: Batch, depth: nat)
    requires Lawful(libs) && GoodBatch(libs, b) && !Recoverable(b.messages) && depth > 0
    ensures FaultsOn(libs, BatchCodec(libs, depth), b)
  {
    hide At, EncodeInt, ReadNum, SetBytes, DecodeSet, PlainItems, Encode;
    hide Representable, AllPlain, Recoverable, PushAll, Room, BatchItems;
    var bytes := SetBytes(libs, b.messages);
    EncodeBatch(libs, b);
    Widths();
    forall d: Dec | At(d, EncodeInt(b.id, 4) + (EncodeInt(|bytes|, 4) + bytes))
      ensures ReadBatch(libs, d, depth).0.err == Fault
    {
      ReadNumAt(d, b.id, 4, EncodeInt(|bytes|, 4) + bytes);
      ReadNumAt(Skip(d, 4), |bytes|, 4, bytes);
      SetInPacket(libs, Skip(d, 8), b.messages, FRESH, depth);
    }
  }

  lemma BatchReads(libs: Libraries, b: Batch, depth: nat)
    requires Lawful(libs) && GoodBatch(libs, b) && depth > 0
    ensures Reads(libs, BatchCodec(libs, depth), b, Arrived(libs, b), Recoverable(b.messages))
  {
    hide RoundTrips, FaultsOn, BatchCodec, GoodBatch, Arrived, Lawful, Recoverable;
    if Recoverable(b.messages) { BatchRoundTrips(libs, b, depth); } else { BatchFaults(libs, b, depth); }
  }

  function BatchTopicFields(t: BatchTopic): (seq<byte>, seq<Batch>) { (t.name, t.partitions) }
  function MakeBatchTopic(t: (seq<byte>, seq<Batch>)): BatchTopic { BatchTopic(t.0, t.1) }

  function BatchTopicCodec(libs: Libraries, depth: nat): Codec<BatchTopic, BatchTopic> {
    Struct(Both(Text(), Deque(BatchCodec(libs, depth))), BatchTopicFields, MakeBatchTopic)
  }

  predicate GoodBatchTopic(libs: Libraries, t: BatchTopic) {
    && |t.name| <= MAX_STRING
    && |t.partitions| <= MAX_BYTES && (forall i :: 0 <= i < |t.partitions| ==> GoodBatch(libs, t.partitions[i]))
  }

  predicate TopicRecoverable(t: BatchTopic) {
    forall i :: 0 <= i < |t.partitions| ==> Recoverable(t.partitions[i].messages)
  }

  predicate RequestRecoverable(r: ProduceRequest) {
    forall i :: 0 <= i < |r.topics| ==> TopicRecoverable(r.topics[i])
  }

  function ArrivedTopic(libs: Libraries, t: BatchTopic): BatchTopic {
    t.(partitions := seq(|t.partitions|, i requires 0 <= i < |t.partitions| => Arrived(libs, t.partitions[i])))
  }

  lemma BatchTopicReads(libs: Libraries, t: BatchTopic, depth: nat)
    requires Lawful(libs) && GoodBatchTopic(libs, t) && depth > 0
    ensures Reads(libs, BatchTopicCodec(libs, depth), t, ArrivedTopic(libs, t), TopicRecoverable(t))
  {
    hide RoundTrips, Reads, BatchCodec, GoodBatch, Arrived, Lawful, Recoverable;
    var c, xs, ys := BatchCodec(libs, depth), t.partitions, ArrivedTopic(libs, t).partitions;
    var goods := seq(|xs|, i requires 0 <= i < |xs| => Recoverable(xs[i].messages));
    var good := TopicRecoverable(t);
    forall i | 0 <= i < |xs| ensures Reads(libs, c, xs[i], ys[i], goods[i]) { BatchReads(libs, xs[i], depth); }
    assert All(goods) == good by {
      if good { assert All(goods); }
      if All(goods) { forall i | 0 <= i < |xs| ensures Recoverable(xs[i].messages) { assert goods[i]; } }
    }
    DequeReads(libs, c, xs, ys, goods);
    TextRoundTrips(libs, t.name);
    BothReads(libs, Text(), Deque(c), t.name, t.name, xs, ys, good);
    StructReads(libs, Both(Text(), Deque(c)), BatchTopicFields, MakeBatchTopic, t, (t.name, ys), good);
  }

  function RequestFields(r: ProduceRequest): (int, (int, seq<BatchTopic>)) { (r.acks, (r.timeout, r.topics)) }
  function MakeRequest(t: (int, (int, seq<BatchTopic>))): ProduceRequest { ProduceRequest(t.0, t.1.0, t.1.1) }

  function ProduceRequestCodec(libs: Libraries, depth: nat): Codec<ProduceRequest, ProduceRequest> {
    Struct(Both(Int(2), Both(Int(4), Deque(BatchTopicCodec(libs, depth)))), RequestFields, MakeRequest)
  }

  predicate GoodProduceRequest(libs: Libraries, r: ProduceRequest) {
    && Fits(r.acks, 2) && Fits(r.timeout, 4)
    && |r.topics| <= MAX_BYTES && (forall i :: 0 <= i < |r.topics| ==> GoodBatchTopic(libs, r.topics[i]))
  }

  function ArrivedRequest(libs: Libraries, r: ProduceRequest): ProduceRequest {
    r.(topics := seq(|r.topics|, i requires 0 <= i < |r.topics| => ArrivedTopic(libs, r.topics[i])))
  }

  /** Two requests carry the same messages in the same batches. */
  ghost predicate SameMessages(a: ProduceRequest, b: ProduceRequest) {
    && a.acks == b.acks && a.timeout == b.timeout && |a.topics| == |b.topics|
    && forall i :: 0 <= i < |a.topics| ==> SameTopicMessages(a.topics[i], b.topics[i])
  }

  ghost predicate SameTopicMessages(a: BatchTopic, b: BatchTopic) {
    && a.name == b.name && |a.partitions| == |b.partitions|
    && forall j :: 0 <= j < |a.partitions| ==>
         a.partitions[j].id == b.partitions[j].id
           && a.partitions[j].messages.messages == b.partitions[j].messages.messages
  }

  ghost predicate TopicWithinLimit(t: BatchTopic) {
    forall j :: 0 <= j < |t.partitions| ==> TotalSize(t.partitions[j].messages.messages) <= 1000000
  }

  lemma ArrivedTopicWhole(libs: Libraries, t: BatchTopic)
    requires Lawful(libs)
    ensures SameTopicMessages(ArrivedTopic(libs, t), t) <==> TopicWithinLimit(t)
  {
    hide Lawful, PushAll, TotalSize;
    var a := ArrivedTopic(libs, t);
    forall j | 0 <= j < |t.partitions|
      ensures a.partitions[j].messages.messages == t.partitions[j].messages.messages
        <==> TotalSize(t.partitions[j].messages.messages) <= FRESH.maxSize
    {
      ArrivedWhole(libs, t.partitions[j]);
    }
  }

  ghost predicate RequestWithinLimit(r: ProduceRequest) {
    forall i :: 0 <= i < |r.topics| ==> TopicWithinLimit(r.topics[i])
  }

  /** What the receiving sets keep of a request is all of it exactly if each batch is within their limit. */
  lemma ArrivedRequestWhole(libs: Libraries, r: ProduceRequest)
    requires Lawful(libs)
    ensures SameMessages(ArrivedRequest(libs, r), r) <==> RequestWithinLimit(r)
  {
    hide Lawful, ArrivedTopic, SameTopicMessages, TopicWithinLimit;
    var a := ArrivedRequest(libs, r);
    forall i | 0 <= i < |r.topics|
      ensures SameTopicMessages(a.topics[i], r.topics[i]) <==> TopicWithinLimit(r.topics[i])
    {
      ArrivedTopicWhole(libs, r.topics[i]);
    }
  }

  /**
   Every produce request that the format can carry, with any number of topics and partitions
   and any mix of compression, wherever it stands in a packet. If each set is recoverable, it
   is read as what the receiving sets keep of it, each embedded set stopping at its length
   prefix so that the fields after it stay aligned; if one is not, it is read to an exception.
   */
  lemma ProduceRequestReads(libs: Libraries, r: ProduceRequest, depth: nat)
    requires Lawful(libs) && GoodProduceRequest(libs, r) && depth > 0
    ensures Reads(libs, ProduceRequestCodec(libs, depth), r, ArrivedRequest(libs, r), RequestRecoverable(r))
  {
    hide RoundTrips, Reads, BatchTopicCodec, GoodBatchTopic, ArrivedTopic, Lawful, TopicRecoverable;
    var c, xs, ys := BatchTopicCodec(libs, depth), r.topics, ArrivedRequest(libs, r).topics;
    var goods := seq(|xs|, i requires 0 <= i < |xs| => TopicRecoverable(xs[i]));
    var good := RequestRecoverable(r);
    forall i | 0 <= i < |xs| ensures Reads(libs, c, xs[i], ys[i], goods[i]) { BatchTopicReads(libs, xs[i], depth); }
    assert All(goods) == good by {
      if good { assert All(goods); }
      if All(goods) { forall i | 0 <= i < |xs| ensures TopicRecoverable(xs[i]) { assert goods[i]; } }
    }
    DequeReads(libs, c, xs, ys, goods);
    IntRoundTrips(libs, r.acks, 2);
    IntRoundTrips(libs, r.timeout, 4);
    BothReads(libs, Int(4), Deque(c), r.timeout, r.timeout, xs, ys, good);
    BothReads(libs, Int(2), Both(Int(4), Deque(c)), r.acks, r.acks, (r.timeout, xs), (r.timeout, ys), good);
    StructReads(libs, Both(Int(2), Both(Int(4), Deque(c))), RequestFields, MakeRequest, r, (r.acks, (r.timeout, ys)),
        good);
  }

  /**
   The request is encodable. Wherever its bytes stand, they are read without error and with
   the same messages in the same batches exactly if every set is recoverable and within a
   receiving set's limit. Otherwise the read ends in an exception, if some set is not
   recoverable, or leaves out what the receiving sets refuse.
   */
  ghost predicate ReadExactly(libs: Libraries, c: Codec<ProduceRequest, ProduceRequest>, r: ProduceRequest) {
    var e := Encode(libs, c.items(r));
    && AllChecksNonEmpty(c.items(r))
    && e.Packet?
    && forall d: Dec :: At(d, e.bytes) ==>
         var (after, got) := c.read(d);
         && (after.Ok() && SameMessages(got, r) <==> RequestRecoverable(r) && RequestWithinLimit(r))
         && (RequestRecoverable(r) ==> Gives(d, (after, got), |e.bytes|, ArrivedRequest(libs, r)))
         && (!RequestRecoverable(r) ==> after.err == Fault)
  }

  lemma ProduceRequestRoundTrips(libs: Libraries, r: ProduceRequest, depth: nat)
    requires Lawful(libs) && GoodProduceRequest(libs, r) && depth > 0
    ensures ReadExactly(libs, ProduceRequestCodec(libs, depth), r)
  {
    hide At, Encode, Lawful, GoodProduceRequest, ProduceRequestCodec, RequestRecoverable, RequestWithinLimit;
    hide SameMessages, ArrivedRequest;
    var c := ProduceRequestCodec(libs, depth);
    ProduceRequestReads(libs, r, depth);
    ArrivedRequestWhole(libs, r);
    forall d: Dec | At(d, Encode(libs, c.items(r)).bytes) ensures d.Ok() { AtOk(d, Encode(libs, c.items(r)).bytes); }
  }

  // ---------- over the wire ----------

  /**
   What sync_call encodes on one side and decodes on the other. The encoder starts with 512
   bytes and grows as it must; what the peer decodes from its body is what was sent.
   */
  method Transmit<W(!new), R(!new)>(libs: Libraries, c: Codec<W, R>, x: W, ghost y: R) returns (body: seq<byte>)
    requires Lawful(libs) && RoundTrips(libs, c, x, y) && |Encode(libs, c.items(x)).bytes| < TWO64
    ensures Gives(FromBuffer(body), c.read(FromBuffer(body)), |body|, y)
  {
    hide At, Encode, Lawful;
    var e := new PacketEncoder(512);
    ghost var prefix := e.Contents();
    e.WriteItems(libs, c.items(x));
    body := e.Body();
    assert (prefix + Encode(libs, c.items(x)).bytes)[4..] == Encode(libs, c.items(x)).bytes;
    AtWhole(body);
  }
}
