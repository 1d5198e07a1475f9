/** Message sets cut short: a fetch may end in the middle of a message. */
module Truncation {
  import opened Bytes
  import opened Wire
  import opened Decoder
  import opened MessageFormat
  import opened MessageCodec

  /** Decoding a buffer that holds nothing but a message set. */
  function DecodeBuffer(libs: Libraries, buf: seq<byte>, s: MSet, depth: nat): (Dec, MSet) {
    DecodeSet(libs, FromBuffer(buf), 0, s, -1, depth)
  }

  /** The fragment lengths on which the unchecked field starts run past the buffer. */
  predicate Overruns(n: nat) {
    8 <= n <= 15
  }

  lemma MessagePastEnd(libs: Libraries, d: Dec, offset: int)
    requires d.Ok() && d.size == |d.buf| < d.cursor + 4 <= d.size + 8
    ensures ReadMessage(libs, d, offset).0.err == Fault
  {}

  lemma NothingLeft(libs: Libraries, d: Dec, start: nat, s: MSet, depth: nat)
    requires d.Ok() && d.cursor <= d.size < d.cursor + 8 && d.size < TWO64
    ensures var (r, t) := DecodeSet(libs, d, start, s, -1, depth); r.Ok() && t == s
  {
    hide ReadMessage;
    ReadNumShort(d, 8);
    ErrorSticks(libs, Skip(d.(err := ErrTruncated), 4), 0);
  }

  /** All that is left is the beginning of one entry. */
  lemma FragmentLeft(
      libs: Libraries, d: Dec, start: nat, s: MSet, depth: nat, offset: int, c: CompressionType, key: seq<byte>,
      field: seq<byte>, frag: seq<byte>)
    requires |key| <= MAX_BYTES && CutShort(libs, c, field)
    requires Left(d, frag, Entry(offset, Record(Body(0, Code(c), key, field))))
    ensures var (r, t) := DecodeSet(libs, d, start, s, -1, depth);
      t == s && r.err == if Overruns(|frag|) then Fault else ErrNone
  {
    hide ReadMessage, Record, EncodeInt, CutShort, Body;
    if |frag| < 8 {
      NothingLeft(libs, d, start, s, depth);
    } else {
      var record := Record(Body(0, Code(c), key, field));
      var len := EncodeInt(|record|, 4);
      LeftSkip(d, frag, EncodeInt(offset, 8), len + record);
      assert EncodeInt(offset, 8) + [] == EncodeInt(offset, 8);
      ReadNumAt(d, offset, 8, []);
      var d1, got := Skip(d, 8), ReadNum(d, 8).1;
      if Overruns(|frag|) {
        MessagePastEnd(libs, Skip(d1, 4), got);
      } else {
        LeftSkip(d1, frag[8..], len, record);
        ReadRecordShort(libs, Skip(d1, 4), c, key, field, got, frag[8..][4..]);
      }
    }
  }

  /** How many messages end at or before the cut. */
  function Complete(ms: seq<Message>, cut: nat): (k: nat)
    ensures k <= |ms| && |PlainBytes(ms[..k])| <= cut
    decreases |ms|
  {
    if ms == [] || |Entry(ms[0].offset, PlainRecord(ms[0]))| > cut then 0
    else
      var n := |Entry(ms[0].offset, PlainRecord(ms[0]))|;
      var k := Complete(ms[1..], cut - n);
      assert ms[..k + 1][1..] == ms[1..][..k];
      k + 1
  }

  lemma {:induction false} PlainBytesAppend(a: seq<Message>, b: seq<Message>)
    ensures PlainBytes(a + b) == PlainBytes(a) + PlainBytes(b)
    decreases |a|
  {
    hide Entry, PlainRecord;
    if a == [] {
      assert a + b == b;
    } else {
      assert (a + b)[1..] == a[1..] + b;
      PlainBytesAppend(a[1..], b);
    }
  }

  /** The cut falls strictly inside the message after the complete ones. */
  lemma {:induction false} NextIsCut(ms: seq<Message>, cut: nat)
    requires Complete(ms, cut) < |ms|
    ensures var k := Complete(ms, cut);
      cut - |PlainBytes(ms[..k])| < |Entry(ms[k].offset, PlainRecord(ms[k]))|
    decreases |ms|
  {
    hide Entry, PlainRecord;
    var n := |Entry(ms[0].offset, PlainRecord(ms[0]))|;
    if n <= cut {
      NextIsCut(ms[1..], cut - n);
      var k := Complete(ms[1..], cut - n);
      assert ms[..k + 1][1..] == ms[1..][..k];
    }
  }

  lemma PlainFragment(libs: Libraries, d: Dec, s: MSet, depth: nat, m: Message, frag: seq<byte>)
    requires Plain(m) && Left(d, frag, Entry(m.offset, PlainRecord(m)))
    ensures var (r, t) := DecodeSet(libs, d, 0, s, -1, depth);
      t == s && r.err == if Overruns(|frag|) then Fault else ErrNone
  {
    hide DecodeSet, Left, Entry, Record, Body;
    PlainCutShort(libs, m.value);
    FragmentLeft(libs, d, 0, s, depth, m.offset, CompNone, m.key, Sized(m.value, 4), frag);
  }

  /**
   Any encoded set cut anywhere decodes to exactly the messages that end before the cut.
   It ends without error if the fragment after them is shorter than 8 bytes or at least
   16, and in an exception if it is 8 to 15 bytes long.
   */
  lemma CutSet(libs: Libraries, ms: seq<Message>, cut: nat, s: MSet, depth: nat)
    requires AllPlain(ms) && cut <= |PlainBytes(ms)| < TWO64
    ensures
      var k := Complete(ms, cut);
      var (d, t) := DecodeBuffer(libs, PlainBytes(ms)[..cut], s, depth);
      && t == PushAll(libs, s, ms[..k])
      && d.err == if Overruns(cut - |PlainBytes(ms[..k])|) then Fault else ErrNone
  {
    hide DecodeBuffer, PlainBytes, Complete, PushAll;
    var k := Complete(ms, cut);
    SplitAt(ms, k);
    var frag := PlainBytes(ms[k..])[..cut - |PlainBytes(ms[..k])|];
    assert PlainBytes(ms)[..cut] == PlainBytes(ms[..k]) + frag;
    if k == |ms| {
      NoFragment(libs, ms[..k], PlainBytes(ms)[..cut], frag, s, depth);
    } else {
      NextIsCut(ms, cut);
      FragmentOf(ms[k..], frag);
      CutAfter(libs, ms[..k], ms[k], PlainBytes(ms)[..cut], frag, s, depth);
    }
  }

  lemma SplitAt(ms: seq<Message>, k: nat)
    requires k <= |ms|
    ensures PlainBytes(ms) == PlainBytes(ms[..k]) + PlainBytes(ms[k..]) && (k == |ms| ==> PlainBytes(ms[k..]) == [])
  {
    hide Entry, PlainRecord;
    assert ms == ms[..k] + ms[k..];
    PlainBytesAppend(ms[..k], ms[k..]);
  }

  /** A part of the bytes that ends inside the first entry is the beginning of that entry. */
  lemma FragmentOf(ms: seq<Message>, frag: seq<byte>)
    requires ms != [] && |frag| <= |PlainBytes(ms)| && frag == PlainBytes(ms)[..|frag|]
      && |frag| < |Entry(ms[0].offset, PlainRecord(ms[0]))|
    ensures frag == Entry(ms[0].offset, PlainRecord(ms[0]))[..|frag|]
  {
    hide Entry, PlainRecord;
    var entry := Entry(ms[0].offset, PlainRecord(ms[0]));
    assert PlainBytes(ms) == entry + PlainBytes(ms[1..]);
  }

  lemma NoFragment(libs: Libraries, ms: seq<Message>, buf: seq<byte>, frag: seq<byte>, s: MSet, depth: nat)
    requires AllPlain(ms) && frag == [] && buf == PlainBytes(ms) + frag && |buf| < TWO64
    ensures DecodeBuffer(libs, buf, s, depth).1 == PushAll(libs, s, ms) && DecodeBuffer(libs, buf, s, depth).0.Ok()
  {
    hide DecodeBuffer, PlainBytes, PushAll;
    assert buf == PlainBytes(ms);
    WholeSet(libs, ms, s, depth);
  }

  /** Whole messages, then the beginning of one more. */
  lemma CutAfter(libs: Libraries, ms: seq<Message>, m: Message, buf: seq<byte>, frag: seq<byte>, s: MSet, depth: nat)
    requires AllPlain(ms) && Plain(m) && buf == PlainBytes(ms) + frag && |buf| < TWO64
    requires var entry := Entry(m.offset, PlainRecord(m)); |frag| < |entry| && frag == entry[..|frag|]
    ensures var (d, t) := DecodeBuffer(libs, buf, s, depth);
      t == PushAll(libs, s, ms) && d.err == if Overruns(|frag|) then Fault else ErrNone
  {
    hide DecodeSet, PlainBytes, Entry, PlainRecord, PushAll;
    var d := FromBuffer(buf);
    AtWhole(buf);
    AtSkip(d, PlainBytes(ms), frag);
    DecodePlain(libs, d, 0, s, -1, depth, ms);
    PlainFragment(libs, Skip(d, |PlainBytes(ms)|), PushAll(libs, s, ms), depth, m, frag);
  }

  /** The uncut set: everything comes back, in order, into a set with room for it. */
  lemma WholeSet(libs: Libraries, ms: seq<Message>, s: MSet, depth: nat)
    requires AllPlain(ms) && |PlainBytes(ms)| < TWO64
    ensures
      var (d, t) := DecodeBuffer(libs, PlainBytes(ms), s, depth);
      d.Ok() && t == PushAll(libs, s, ms)
  {
    hide DecodeSet, PlainBytes;
    var d := FromBuffer(PlainBytes(ms));
    assert d.buf[0..|d.buf|] == d.buf;
    DecodePlain(libs, d, 0, s, -1, depth, ms);
    NothingLeft(libs, Skip(d, |d.buf|), 0, PushAll(libs, s, ms), depth);
  }
}
