/** The size a message set keeps while messages are pushed, and what it bounds. */
module SizeAccounting {
  import opened Wire
  import opened MessageFormat
  import opened Admission
  import opened MessageCodec
  import opened SetRoundTrip

  /** get_msg_encoded_size is the exact byte count of the uncompressed encoding. */
  lemma {:induction false} PlainBytesSize(ms: seq<Message>)
    ensures |PlainBytes(ms)| == TotalSize(ms)
  {
    if ms != [] {
      var key, value := Sized(ms[0].key, 4), Sized(ms[0].value, 4);
      assert |key| == 4 + |ms[0].key| && |value| == 4 + |ms[0].value|;
      PlainBytesSize(ms[1..]);
    }
  }

  /** The counter is right, and a non-empty set is within the limit in the worst case. */
  predicate Accounted(libs: Libraries, s: MSet) {
    && s.encodedSize == TotalSize(s.messages)
    && (s.messages != [] ==> WorstCase(libs, s.compression, s.encodedSize) <= s.maxSize)
  }

  lemma PushAccounted(libs: Libraries, s: MSet, m: Message)
    requires Accounted(libs, s)
    ensures Accounted(libs, Push(libs, s, m))
  {
    TotalSizeAppend(s.messages, [m]);
    assert TotalSize([m]) == MessageSize(m) + TotalSize([]);
  }

  /** Whatever is pushed, in whatever order, accepted or not. */
  lemma {:induction false} RunAccounted(libs: Libraries, s: MSet, ms: seq<Message>)
    requires Accounted(libs, s)
    ensures Accounted(libs, PushAll(libs, s, ms))
    ensures PushAll(libs, s, ms).encodedSize >= s.encodedSize
    ensures PushAll(libs, s, ms).maxSize == s.maxSize && PushAll(libs, s, ms).compression == s.compression
    decreases |ms|
  {
    if ms != [] {
      PushAccounted(libs, s, ms[0]);
      RunAccounted(libs, Push(libs, s, ms[0]), ms[1..]);
    }
  }

  /**
   The bytes a set built by pushes puts on the wire: exactly encoded_size_ and within the
   limit without compression; at most 26 bytes over the limit with it, because the check
   leaves out the wrapping message's own fields. A compressed set is within the limit exactly
   if its compressed bytes leave room for those fields, and surely if the worst case does.
   */
  lemma WireSize(libs: Libraries, s: MSet, ms: seq<Message>)
    requires Lawful(libs) && Accounted(libs, s) && s.compression != CompInvalid
    ensures var t := PushAll(libs, s, ms);
      && |PlainBytes(t.messages)| == t.encodedSize
      && (t.messages != [] ==> t.encodedSize <= t.maxSize)
      && (t.messages != [] ==> |SetBytes(libs, t)| <= t.maxSize + if t.compression == CompNone then 0 else 26)
      && (t.compression != CompNone ==> (|SetBytes(libs, t)| <= t.maxSize <==> |Compressed(libs, t)| + 26 <= t.maxSize))
      && (t.compression != CompNone && WorstCase(libs, t.compression, t.encodedSize) + 26 <= t.maxSize ==>
            |SetBytes(libs, t)| <= t.maxSize)
  {
    hide PlainBytes;
    var t := PushAll(libs, s, ms);
    RunAccounted(libs, s, ms);
    PlainBytesSize(t.messages);
    if t.compression != CompNone {
      WrapperSize(libs, t);
      var lib := Lib(libs, t.compression == CompGzip);
      assert |lib.compress(PlainBytes(t.messages))| <= lib.bound(t.encodedSize);
    }
  }

  lemma WrapperSize(libs: Libraries, s: MSet)
    requires s.compression != CompNone
    ensures |SetBytes(libs, s)| == 26 + |Compressed(libs, s)|
  {}

  /** Once a message is rejected, so is every later one at least as large, however many are pushed between. */
  lemma RejectedStaysRejected(libs: Libraries, s: MSet, m: Message, ms: seq<Message>, later: Message)
    requires Lawful(libs) && Accounted(libs, s) && Full(libs, s, m)
    requires MessageSize(later) >= MessageSize(m)
    ensures Full(libs, PushAll(libs, s, ms), later)
  {
    var t := PushAll(libs, s, ms);
    RunAccounted(libs, s, ms);
    WorstCaseMonotone(libs, s.compression, s.encodedSize + MessageSize(m), t.encodedSize + MessageSize(later));
  }

  /**
   message_set.h promises more: after message_set_full no further push succeeds. That holds
   exactly when not even a message without key and value fits.
   */
  lemma FullForEverything(libs: Libraries, s: MSet)
    requires Lawful(libs)
    ensures (forall m :: Full(libs, s, m)) <==> WorstCase(libs, s.compression, s.encodedSize + 26) > s.maxSize
  {
    var least := Message([], [], 0, CompNone);
    assert MessageSize(least) == 26;
    if Full(libs, s, least) {
      forall m ensures Full(libs, s, m) {
        WorstCaseMonotone(libs, s.compression, s.encodedSize + 26, s.encodedSize + MessageSize(m));
      }
    }
  }

  /** A rejected push followed by an accepted one. */
  lemma RejectedThenAccepted(libs: Libraries) returns (s: MSet, big: Message, small: Message)
    ensures Accounted(libs, s) && Full(libs, s, big) && !Full(libs, Push(libs, s, big), small)
  {
    s := MSet([], 30, CompNone, 0);
    big, small := Message([], [1, 2, 3, 4, 5], 0, CompNone), Message([], [1], 0, CompNone);
  }
}
