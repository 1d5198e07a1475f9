/**
 One input for each place where the code does less than a reader might expect; the exact
 conditions are proved beside each model.
 */
module Counterexamples {
  import opened Bytes
  import opened Wire
  import opened Decoder
  import opened MessageFormat
  import opened MessageCodec
  import opened SetRoundTrip
  import opened Admission
  import opened SizeAccounting
  import opened Truncation
  import opened Protocol
  import RpcModel
  import RpcMatching

  /** Eight to fifteen bytes of a message are all there is: the decoder runs past its buffer. */
  lemma FragmentFaults(libs: Libraries, m: Message, n: nat, s: MSet, depth: nat)
    requires Plain(m) && 8 <= n < 16
    ensures n < |PlainBytes([m])|
    ensures DecodeBuffer(libs, PlainBytes([m])[..n], s, depth).0.err == Fault
  {
    hide DecodeBuffer, PlainBytes;
    PlainBytesSize([m]);
    CutSet(libs, [m], n, s, depth);
    CutOne(m, n);
  }

  lemma CutOne(m: Message, n: nat)
    requires n < |PlainBytes([m])|
    ensures Complete([m], n) == 0 && PlainBytes([m][..0]) == []
  {}

  /** A message that fills the 131072 bytes of a chunk but for eight. */
  function EightShort(): Message {
    Message([], Zeros(131038), 0, CompNone)
  }

  /** A gzip set that holds just this message, with a limit just large enough for it. */
  function EightBelowChunk(libs: Libraries): MSet {
    MSet([EightShort()], libs.gzip.bound(131064), CompGzip, 131064)
  }

  /** The sender's push accepts it, and its receiver faults, whatever the receiver holds. */
  lemma GzipPaddingFaults(libs: Libraries, into: MSet)
    requires Lawful(libs) && |Compressed(libs, EightBelowChunk(libs))| <= MAX_BYTES
    ensures var s := EightBelowChunk(libs); Push(libs, s.(messages := [], encodedSize := 0), EightShort()) == s
    ensures DecodeBuffer(libs, SetBytes(libs, EightBelowChunk(libs)), into, 1).0.err == Fault
  {
    hide DecodeBuffer, PlainBytes, SetBytes, Compressed;
    var s := EightBelowChunk(libs);
    assert [] + [EightShort()] == s.messages;
    Widths();
    PlainBytesSize(s.messages);
    assert TotalSize(s.messages) == 131064 by { assert s.messages[1..] == []; }
    WrapperSize(libs, s);
    SetInBuffer(libs, s, into, 1);
  }

  /** One such set among any others spoils a whole produce request for its receiver. */
  lemma GzipRequestFaults(libs: Libraries, r: ProduceRequest, i: nat, j: nat, depth: nat)
    requires Lawful(libs) && GoodProduceRequest(libs, r) && depth > 0
    requires i < |r.topics| && j < |r.topics[i].partitions|
      && r.topics[i].partitions[j].messages == EightBelowChunk(libs)
    ensures FaultsOn(libs, ProduceRequestCodec(libs, depth), r)
  {
    hide FaultsOn, RoundTrips, ProduceRequestCodec, GoodProduceRequest, Lawful, PlainBytes, ArrivedRequest;
    var s := EightBelowChunk(libs);
    PlainBytesSize(s.messages);
    assert TotalSize(s.messages) == 131064 by { assert s.messages[1..] == []; }
    assert !Recoverable(s);
    ProduceRequestReads(libs, r, depth);
    assert !TopicRecoverable(r.topics[i]);
  }

  /** A set that refuses everything: the decode ends without error, and the message is gone. */
  lemma SilentLoss(libs: Libraries, m: Message, depth: nat)
    requires Lawful(libs) && Plain(m) && |PlainBytes([m])| + CHUNK < TWO64 && depth > 0
    ensures var s, none := MSet([m], FRESH.maxSize, CompNone, 0), MSet([], 0, CompNone, 0);
      var (d, t) := DecodeBuffer(libs, SetBytes(libs, s), none, depth);
      d.Ok() && t.messages == []
  {
    hide DecodeBuffer, PlainBytes, SetBytes, Lawful;
    var s, none := MSet([m], FRESH.maxSize, CompNone, 0), MSet([], 0, CompNone, 0);
    PlainSetBytes(libs, s);
    SetInBuffer(libs, s, none, depth);
    assert Full(libs, none, m);
    assert PushAll(libs, none, [m]) == PushAll(libs, none, []) == none by { assert [m][1..] == []; }
  }

  /** A library that stores what it is given behind one byte, and says so. */
  function Store(): Library {
    Library((x: seq<byte>) => [0] + x, (y: seq<byte>) => if y == [] then None else Some(y[1..]), (n: nat) => n + 1)
  }

  lemma StoreLawful()
    ensures LawfulLibrary(Store())
  {
    forall x: seq<byte> ensures Store().decompress(Store().compress(x)) == Some(x) {
      assert ([0] + x)[1..] == x;
    }
  }

  /** Any message, in a compressed set that takes it and then puts 26 bytes more than its limit on the wire. */
  lemma OverTheLimit(m: Message)
    requires m.compression == CompNone
    ensures var libs := Libraries(Store(), Store());
      var empty := MSet([], MessageSize(m) + 1, CompGzip, 0);
      Lawful(libs) && Push(libs, empty, m).messages == [m]
        && |SetBytes(libs, Push(libs, empty, m))| == empty.maxSize + 26
  {
    StoreLawful();
    var libs := Libraries(Store(), Store());
    var s := Push(libs, MSet([], MessageSize(m) + 1, CompGzip, 0), m);
    assert [] + [m] == [m] && s.messages == [m];
    hide PlainBytes, SetBytes;
    PlainBytesSize([m]);
    assert TotalSize([m]) == MessageSize(m) by { assert [m][1..] == []; }
    WrapperSize(libs, s);
  }

  function ZeroLengthRun(): seq<RpcModel.Event> {
    [RpcModel.Connect, RpcModel.NewCall, RpcModel.Dispatch(0), RpcModel.Write(true), RpcModel.Header(0)]
  }

  lemma ZeroLengthRuns(clientId: nat)
    requires clientId <= MAX_STRING
    ensures RpcModel.Run(RpcModel.Init(clientId), ZeroLengthRun())
  {
    var es := ZeroLengthRun();
    var s1 := RpcModel.Step(RpcModel.Init(clientId), es[0]);
    var s2 := RpcModel.Step(s1, es[1]);
    var s3 := RpcModel.Step(s2, es[2]);
    var s4 := RpcModel.Step(s3, es[3]);
    assert RpcModel.Enabled(s4, es[4]);
    assert es[4..][1..] == [] && RpcModel.Run(s4, es[4..]);
    hide RpcModel.Step;
    assert es[3..][1..] == es[4..] && RpcModel.Run(s3, es[3..]);
    assert es[2..][1..] == es[3..] && RpcModel.Run(s2, es[2..]);
    assert es[1..][1..] == es[2..] && RpcModel.Run(s1, es[1..]);
  }

  /** A response of length zero resolves a call without naming it. */
  lemma ZeroLengthResponse(clientId: nat)
    requires clientId <= MAX_STRING
    ensures RpcModel.Run(RpcModel.Init(clientId), ZeroLengthRun())
    ensures RpcMatching.Unchecked(RpcModel.After(RpcModel.Init(clientId), ZeroLengthRun()))
  {
    var es := ZeroLengthRun();
    ZeroLengthRuns(clientId);
    hide RpcModel.Step, RpcModel.Enabled, RpcModel.Run, RpcModel.After;
    assert es[4..] == [RpcModel.Header(0)] && es[3..][1..] == es[4..] && es[2..][1..] == es[3..]
      && es[1..][1..] == es[2..];
    assert RpcMatching.HasEmpty(es[4..]);
    assert RpcMatching.HasEmpty(es[3..]) && RpcMatching.HasEmpty(es[2..]) && RpcMatching.HasEmpty(es[1..]);
    RpcMatching.UncheckedIffEmpty(clientId, es);
  }
}
