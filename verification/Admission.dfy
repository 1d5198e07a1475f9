/** What a receiving set keeps of the messages pushed into it: decoding ignores a refused push. */
module Admission {
  import opened Wire
  import opened MessageFormat

  function TotalSize(ms: seq<Message>): nat {
    if ms == [] then 0 else MessageSize(ms[0]) + TotalSize(ms[1..])
  }

  lemma {:induction false} TotalSizeAppend(a: seq<Message>, b: seq<Message>)
    ensures TotalSize(a + b) == TotalSize(a) + TotalSize(b)
  {
    if a == [] {
      assert a + b == b;
    } else {
      assert (a + b)[1..] == a[1..] + b;
      TotalSizeAppend(a[1..], b);
    }
  }

  lemma WorstCaseMonotone(libs: Libraries, c: CompressionType, m: nat, n: nat)
    requires Lawful(libs) && m <= n
    ensures WorstCase(libs, c, m) <= WorstCase(libs, c, n)
  {}

  /** The set takes all of these messages: the last of them, the fullest moment, is within the limit. */
  predicate Room(libs: Libraries, s: MSet, ms: seq<Message>) {
    ms == [] || WorstCase(libs, s.compression, s.encodedSize + TotalSize(ms)) <= s.maxSize
  }

  /** Room for all is room for the first and, after it, room for the others. */
  lemma RoomCons(libs: Libraries, s: MSet, ms: seq<Message>)
    requires Lawful(libs) && ms != []
    ensures Room(libs, s, ms) <==> !Full(libs, s, ms[0]) && Room(libs, Push(libs, s, ms[0]), ms[1..])
  {
    hide WorstCase, Lawful;
    var n, all := s.encodedSize + MessageSize(ms[0]), s.encodedSize + TotalSize(ms);
    assert all == n + TotalSize(ms[1..]);
    WorstCaseMonotone(libs, s.compression, n, all);
  }

  /** A set with room takes everything, in order. */
  lemma {:induction false} PushAllRoom(libs: Libraries, s: MSet, ms: seq<Message>)
    requires Lawful(libs) && Room(libs, s, ms)
    ensures PushAll(libs, s, ms) == s.(messages := s.messages + ms, encodedSize := s.encodedSize + TotalSize(ms))
    decreases |ms|
  {
    hide Lawful, Room;
    if ms == [] {
      assert s.messages + ms == s.messages;
    } else {
      RoomCons(libs, s, ms);
      PushAllRoom(libs, Push(libs, s, ms[0]), ms[1..]);
      assert s.messages + [ms[0]] + ms[1..] == s.messages + ms;
    }
  }

  /** A set never grows by more than what is pushed, and by less when there is no room. */
  lemma {:induction false} PushAllLoses(libs: Libraries, s: MSet, ms: seq<Message>)
    requires Lawful(libs)
    ensures |PushAll(libs, s, ms).messages| <= |s.messages| + |ms|
    ensures !Room(libs, s, ms) ==> |PushAll(libs, s, ms).messages| < |s.messages| + |ms|
    decreases |ms|
  {
    if ms != [] {
      hide Lawful, Room, Full;
      RoomCons(libs, s, ms);
      PushAllLoses(libs, Push(libs, s, ms[0]), ms[1..]);
    }
  }

  /** Exactly when nothing is lost. */
  lemma KeptIffRoom(libs: Libraries, s: MSet, ms: seq<Message>)
    requires Lawful(libs)
    ensures PushAll(libs, s, ms).messages == s.messages + ms <==> Room(libs, s, ms)
  {
    hide Lawful, Room, PushAll;
    PushAllLoses(libs, s, ms);
    if Room(libs, s, ms) { PushAllRoom(libs, s, ms); }
  }
}
