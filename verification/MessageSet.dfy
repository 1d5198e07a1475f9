/** MessageSet as it is written: pushes update it in place, and it codes itself into packets. */
module MessageSets {
  import opened Bytes
  import opened Wire
  import opened Decoder
  import opened Encoder
  import opened PacketDecoders
  import opened MessageFormat

  lemma EntryChecks(m: Message)
    ensures AllChecksNonEmpty(EntryItems(m))
  {
    var c, k, v := Num(Code(m.compression), 1), Blob(m.key), ValueItems(m);
    var body := [Num(0, 1), c, k] + v;
    assert body == [Num(0, 1)] + ([c] + ([k] + v));
    if v != [] { assert v == [v[0]] + []; ChecksCons(v[0], []); }
    ChecksCons(k, v);
    ChecksCons(c, [k] + v);
    ChecksCons(Num(0, 1), [c] + ([k] + v));
    assert MessageItems(m) == [Check(body)] + [];
    ChecksCons(Check(body), []);
    assert EntryItems(m) == [Num(m.offset, 8)] + ([Len(MessageItems(m))] + []);
    ChecksCons(Len(MessageItems(m)), []);
    ChecksCons(Num(m.offset, 8), [Len(MessageItems(m))] + []);
  }

  lemma ChecksCons(item: Item, rest: seq<Item>)
    ensures AllChecksNonEmpty([item] + rest) <==> ChecksNonEmpty(item) && AllChecksNonEmpty(rest)
  {}

  class MessageSet {
    var messages: seq<Message>
    var maxSize: nat
    var compression: CompressionType
    var encodedSize: nat

    ghost function View(): MSet
      reads this
    {
      MSet(messages, maxSize, compression, encodedSize)
    }

    constructor ()
      ensures View() == MSet([], 1000000, CompNone, 0)
    {
      messages, maxSize, compression, encodedSize := [], 1000000, CompNone, 0;
    }

    method Add(libs: Libraries, m: Message) returns (full: bool)
      modifies this`messages, this`encodedSize
      ensures View() == Push(libs, old(View()), m)
      ensures full == Full(libs, old(View()), m)
    {
      var n := MessageSize(m);
      if WorstCase(libs, compression, encodedSize + n) > maxSize {
        return true;
      }
      encodedSize := encodedSize + n;
      messages := messages + [m];
      return false;
    }

    /** The loop that writes each message with its offset and length. */
    method EncodePlainInto(libs: Libraries, e: PacketEncoder)
      requires e.Valid() && e.cursor == e.size && Lawful(libs)
      modifies e, e.buff
      ensures e.Valid() && (e.buff == old(e.buff) || fresh(e.buff)) && e.cursor == e.size
      ensures e.State() == Then(old(e.State()), Encode(libs, PlainItems(messages)))
    {
      ThenUnit(e.State());
      for i := 0 to |messages|
        invariant e.Valid() && (e.buff == old(e.buff) || fresh(e.buff)) && e.cursor == e.size
        invariant e.State() == Then(old(e.State()), Encode(libs, PlainItems(messages[..i])))
      {
        EntryChecks(messages[i]);
        e.WriteItems(libs, EntryItems(messages[i]));
        OneMore(libs, messages, i);
        ThenAssociative(old(e.State()), Encode(libs, PlainItems(messages[..i])), Encode(libs, EntryItems(messages[i])));
      }
      assert messages[..|messages|] == messages;
    }

    /**
     kafka_proto_io_impl for a writer. A set that compresses is first encoded plainly into an
     encoder of its own, with its compression switched off meanwhile; if that fails the
     switch is not undone.
     */
    method EncodeInto(libs: Libraries, e: PacketEncoder)
      requires e.Valid() && e.cursor == e.size && Lawful(libs)
      modifies this`compression, e, e.buff
      ensures e.Valid() && (e.buff == old(e.buff) || fresh(e.buff)) && e.cursor == e.size
      ensures
        var plain := Encode(libs, PlainItems(messages));
        var lost := old(compression) != CompNone && plain.Failed?;
        && (!lost ==> e.State() == Then(old(e.State()), EncodeSet(libs, old(View()))) && View() == old(View()))
        && (lost ==> e.State() == plain && View() == old(View()).(compression := CompNone))
    {
      if compression == CompNone {
        EncodePlainInto(libs, e);
      } else {
        var inner := new PacketEncoder(encodedSize);
        ghost var prefix := inner.Contents();
        var actual := compression;
        compression := CompNone;
        EncodePlainInto(libs, inner);
        if !inner.Ok() {
          e.err := inner.err;
          return;
        }
        compression := actual;
        var body := inner.Body();
        assert (prefix + Encode(libs, PlainItems(messages)).bytes)[4..] == Encode(libs, PlainItems(messages)).bytes;
        EntryChecks(Wrapper(body, actual));
        e.WriteItems(libs, EntryItems(Wrapper(body, actual)));
      }
    }

    method DecodeMessage(libs: Libraries, d: PacketDecoder, offset: int) returns (m: Message)
      modifies d
      ensures (d.View(), m) == ReadMessage(libs, old(d.View()), offset)
      ensures d.buff == old(d.buff)
    {
      var field := d.StartField();
      var magic := d.GetNum(1);
      var attributes := d.GetNum(1);
      var c := FromCode(attributes);
      var key := d.GetSized(4);
      var value := d.GetValue(libs, c);
      d.FinishCrc(field);
      m := Message(key, value, offset, c);
    }

    /** kafka_proto_io_impl for a reader: one message, or the set nested in it. */
    method DecodeEntry(libs: Libraries, d: PacketDecoder, depth: nat)
      modifies this`messages, this`encodedSize, d
      ensures (d.View(), View()) == DecodeStep(libs, old(d.View()), old(View()), depth)
      decreases depth, 0
    {
      hide ReadMessage, ReadNum, Push, Full, EndCrc, DecodeSet;
      var offset := d.GetNum(8);
      var _ := d.StartField();
      var m := DecodeMessage(libs, d, offset);
      if d.Ok() {
        if m.compression == CompNone {
          var _ := Add(libs, m);
        } else if d.lastDecompressed.None? {
          d.err := Fault;
        } else if depth == 0 {
          d.err := TooDeep;
        } else {
          var nested := new PacketDecoder(d.lastDecompressed.value);
          DecodeFrom(libs, nested, -1, depth - 1);
          if nested.err == Fault || nested.err == TooDeep {
            d.err := nested.err;
          }
        }
      }
    }

    /** kafka_proto_io_impl for a reader: the loop. */
    method DecodeFrom(libs: Libraries, d: PacketDecoder, limit: int, depth: nat)
      modifies this`messages, this`encodedSize, d
      ensures (d.View(), View()) == DecodeSet(libs, old(d.View()), old(d.cursor), old(View()), limit, depth)
      decreases depth, 1
    {
      hide DecodeStep;
      var start := d.cursor;
      ghost var result := DecodeSet(libs, d.View(), start, View(), limit, depth);
      while d.Ok() && (limit == -1 || (d.cursor - start) % TWO64 < limit % TWO64)
        invariant DecodeSet(libs, d.View(), start, View(), limit, depth) == result
        decreases d.Ok(), |d.buff| - d.cursor
      {
        DecodeEntry(libs, d, depth);
      }
      if d.err == ErrTruncated {
        d.err := ErrNone;
      }
    }
  }

  lemma OneMore(libs: Libraries, ms: seq<Message>, i: nat)
    requires i < |ms|
    ensures Encode(libs, PlainItems(ms[..i + 1])) ==
      Then(Encode(libs, PlainItems(ms[..i])), Encode(libs, EntryItems(ms[i])))
  {
    assert ms[..i + 1] == ms[..i] + [ms[i]];
    PlainItemsAppend(ms[..i], [ms[i]]);
    assert PlainItems([ms[i]]) == EntryItems(ms[i]) + PlainItems([]);
    assert EntryItems(ms[i]) + [] == EntryItems(ms[i]);
    EncodeAppend(libs, PlainItems(ms[..i]), EntryItems(ms[i]));
  }
}
