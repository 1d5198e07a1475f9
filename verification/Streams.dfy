/**
 The bytes of a connection and the steps of its pipeline, joined: what the receive coroutine
 makes of a stream, response after response, is a run of the transition system, and with
 frames that answer in order every caller decodes the answer to its own request.
 */
module Streams {
  import opened Bytes
  import opened Wire
  import opened Decoder
  import opened Protocol
  import Calls
  import opened RpcModel
  import opened RpcSafety
  import opened RpcMatching

  /** The stream holds at least one whole response. */
  predicate Whole(stream: seq<byte>) {
    4 <= |stream| < TWO64 && |stream| >= 4 + DecodeInt(stream[..4])
  }

  /** The bytes of that response. */
  function Taken(stream: seq<byte>): nat
    requires Whole(stream)
  {
    var len := DecodeInt(stream[..4]);
    4 + if len <= 0 then 0 else len
  }

  /** What its reads complete with; the label stands for the rest of the body. */
  function Arrivals(stream: seq<byte>, tag: nat): seq<Event>
    requires Whole(stream)
  {
    var len := DecodeInt(stream[..4]);
    if len <= 0 then [Header(len)]
    else [Header(len), Body(if len >= 4 then DecodeInt(stream[4..8]) else 0, tag)]
  }

  lemma RunOne(s: State, e: Event)
    requires Enabled(s, e)
    ensures Run(s, [e]) && After(s, [e]) == Step(s, e)
  {
    hide Enabled, Step;
    assert [e][1..] == [];
  }

  lemma RunTwo(s: State, e: Event, f: Event)
    requires Enabled(s, e) && Enabled(Step(s, e), f)
    ensures Run(s, [e, f]) && After(s, [e, f]) == Step(Step(s, e), f)
  {
    hide Enabled, Step;
    assert [e, f][1..] == [f];
    RunOne(Step(s, e), f);
  }

  lemma {:induction false} RunAppend(s: State, es: seq<Event>, fs: seq<Event>)
    requires Run(s, es) && Run(After(s, es), fs)
    ensures Run(s, es + fs) && After(s, es + fs) == After(After(s, es), fs)
    decreases |es|
  {
    hide Enabled, Step;
    if es == [] {
      assert es + fs == fs;
    } else {
      assert (es + fs)[1..] == es[1..] + fs;
      RunAppend(Step(s, es[0]), es[1..], fs);
    }
  }

  /** One response resolved the oldest call, and the next one is being read if there is one. */
  predicate Resolves(s: State, t: State, reply: Reply) {
    && s.recvQ != []
    && t.done == s.done[s.recvQ[0].id := Resolved(reply)]
    && t.recvQ == s.recvQ[1..]
    && (t.recvQ != [] ==> t.reading == ReadHeader)
  }

  /** One response failed every call that was waiting for one. */
  predicate FailsAll(s: State, t: State) {
    && t.recvQ == [] && t.conn == Closed
    && forall i :: 0 <= i < |s.recvQ| ==> s.recvQ[i].id in t.done && t.done[s.recvQ[i].id] == Outcome.Failed(Decoding)
  }

  lemma HeadResolves(s: State, reply: Reply)
    requires Inv(s) && s.recvQ != []
    ensures Resolves(s, ResolveHead(s.(reading := NoRead), reply), reply)
  {
    hide Ordered, Labelled, Prefixed, Conserved, Synced;
    HeadUnsettled(s);
  }

  lemma BodyFails(s: State, correlation: int, tag: nat)
    requires Inv(s) && s.reading.ReadBody? && Mismatch(s, correlation)
    ensures FailsAll(s, BodyRead(s, correlation, tag))
  {
    hide Ordered, Labelled, Prefixed, Conserved, Synced, Pending;
    var u := s.(reading := NoRead, recvCoro := Complete);
    SameBooks(s, u);
    QueueOnce(u);
    var v := u.(recvQ := [], conn := Closed, failedAll := true);
    FailCallsOnce(v, u.recvQ, Decoding);
    FailedEach(v, u.recvQ, Decoding);
  }

  /** fail_all leaves none of its calls out. */
  lemma {:induction false} FailedEach(s: State, q: seq<Call>, why: Reason)
    requires s.mishap.None? && forall id: nat :: Pending(s.done.Keys, q)[id] <= 1
    ensures var done := FailCalls(s, q, why).done;
      forall i :: 0 <= i < |q| ==> q[i].id in done && done[q[i].id] == Outcome.Failed(why)
  {
    FailCallsOnce(s, q, why);
    var t := FailCalls(s, q, why);
    forall i | 0 <= i < |q| ensures q[i].id in t.done && t.done[q[i].id] == Outcome.Failed(why) {
      var x := q[i].id;
      assert Ids(q)[i] == x && x in multiset(Ids(q));
      assert Pending(s.done.Keys, q)[x] >= 1;
      assert x in multiset(t.done.Keys);
      assert Pending(s.done.Keys, q)[x] == multiset(Ids(q))[x] + multiset(s.done.Keys)[x];
      assert multiset(s.done.Keys)[x] == 0 && x !in s.done.Keys;
    }
  }

  lemma AfterHeader(s: State, len: int)
    requires Inv(s) && s.reading == ReadHeader
    ensures Enabled(s, Header(len)) && Inv(Step(s, Header(len)))
    ensures len > 0 ==> Step(s, Header(len)) == s.(reading := ReadBody(len), recvCoro := Suspended(BodyPoint))
    ensures len <= 0 ==> Resolves(s, Step(s, Header(len)), Empty)
  {
    StepInv(s, Header(len));
    if len <= 0 { HeadResolves(s, Empty); }
    hide Books, Synced, ResolveHead;
  }

  lemma AfterBody(s: State, correlation: int, tag: nat)
    requires Inv(s) && s.reading.ReadBody?
    ensures Enabled(s, Body(correlation, tag)) && Inv(Step(s, Body(correlation, tag)))
    ensures var t := Step(s, Body(correlation, tag));
      if Mismatch(s, correlation) then FailsAll(s, t) else Resolves(s, t, Answer(correlation, tag))
  {
    StepInv(s, Body(correlation, tag));
    if Mismatch(s, correlation) { BodyFails(s, correlation, tag); } else { HeadResolves(s, Answer(correlation, tag)); }
    hide Books, Synced, ResolveHead, FailAllRecv;
  }

  /** The reply the pipeline records for a response. */
  function ReplyTo(stream: seq<byte>, expected: int, tag: nat): Reply
    requires Whole(stream)
  {
    if DecodeInt(stream[..4]) <= 0 then Empty else Answer(expected, tag)
  }

  /**
   Any response, whatever its bytes: reading it is a run of the pipeline that resolves the
   oldest call exactly if Receive does, and otherwise fails every waiting call.
   */
  lemma OneResponse(s: State, stream: seq<byte>, tag: nat)
    requires Inv(s) && s.reading == ReadHeader && Whole(stream)
    ensures s.recvQ != [] && Run(s, Arrivals(stream, tag)) && Inv(After(s, Arrivals(stream, tag)))
    ensures var t := After(s, Arrivals(stream, tag));
      var expected := s.recvQ[0].correlation;
      if Calls.Receive(stream, expected).Resolved? then Resolves(s, t, ReplyTo(stream, expected, tag))
      else FailsAll(s, t)
  {
    hide Calls.Receive, DecodeInt, Step, Enabled, Books, Synced;
    var len := DecodeInt(stream[..4]);
    Calls.ReceiveCases(stream, s.recvQ[0].correlation);
    AfterHeader(s, len);
    if len <= 0 {
      RunOne(s, Header(len));
    } else {
      var correlation := if len >= 4 then DecodeInt(stream[4..8]) else 0;
      var u := Step(s, Header(len));
      AfterBody(u, correlation, tag);
      RunTwo(s, Header(len), Body(correlation, tag));
      SameHead(s, u, Step(u, Body(correlation, tag)), Answer(correlation, tag));
    }
  }

  lemma SameHead(s: State, u: State, t: State, reply: Reply)
    requires u == s.(reading := u.reading, recvCoro := u.recvCoro)
    ensures Resolves(u, t, reply) ==> Resolves(s, t, reply)
    ensures FailsAll(u, t) ==> FailsAll(s, t)
  {}

  /** All the responses of a stream, one after the other, while somebody waits for one. */
  ghost function StreamRun(s: State, stream: seq<byte>): seq<Event>
    requires Inv(s)
    decreases |stream|
  {
    if s.reading != ReadHeader || !Whole(stream) then []
    else
      OneResponse(s, stream, s.consumed);
      Arrivals(stream, s.consumed) + StreamRun(After(s, Arrivals(stream, s.consumed)), stream[Taken(stream)..])
  }

  /** Any stream of bytes is a run of the pipeline, so everything proved of its runs holds of it. */
  lemma {:induction false} AnyStream(s: State, stream: seq<byte>)
    requires Inv(s)
    ensures Run(s, StreamRun(s, stream))
    decreases |stream|
  {
    hide Inv, Enabled, Step, Arrivals;
    if s.reading == ReadHeader && Whole(stream) {
      OneResponse(s, stream, s.consumed);
      var t := After(s, Arrivals(stream, s.consumed));
      AnyStream(t, stream[Taken(stream)..]);
      RunAppend(s, Arrivals(stream, s.consumed), StreamRun(t, stream[Taken(stream)..]));
    }
  }

  // ---------- a broker that answers in order ----------

  function ResponseFrame(correlation: int, body: seq<byte>): seq<byte> {
    EncodeInt(4 + |body|, 4) + (EncodeInt(correlation, 4) + body)
  }

  /** The answers to these calls, framed one after the other. */
  function Frames(calls: seq<Call>, bodies: seq<seq<byte>>): seq<byte>
    requires |calls| == |bodies|
  {
    if calls == [] then [] else ResponseFrame(calls[0].correlation, bodies[0]) + Frames(calls[1..], bodies[1..])
  }

  predicate Sendable(calls: seq<Call>, bodies: seq<seq<byte>>) {
    && |calls| == |bodies|
    && forall i :: 0 <= i < |calls| ==> Fits(calls[i].correlation, 4) && 4 + |bodies[i]| <= MAX_BYTES
  }

  /** The decoder that call i is resolved with stands at its own answer, with nothing readable after it. */
  ghost predicate Delivered(calls: seq<Call>, bodies: seq<seq<byte>>, later: seq<byte>, i: nat)
    requires |calls| == |bodies| && i < |calls|
  {
    var stream := Frames(calls[i..], bodies[i..]) + later;
    Whole(stream) && Calls.Receive(stream, calls[i].correlation).Resolved?
      && Ready(Calls.Receive(stream, calls[i].correlation).decoder, bodies[i])
  }

  predicate Ready(d: Dec, body: seq<byte>) {
    At(d, body) && d.size == d.cursor + |body|
  }

  lemma FrameParts(correlation: int, body: seq<byte>, rest: seq<byte>)
    ensures var frame := ResponseFrame(correlation, body);
      && |frame| == 8 + |body|
      && frame + rest == EncodeInt(4 + |body|, 4) + (EncodeInt(correlation, 4) + (body + rest))
      && (frame + rest)[..4] == EncodeInt(4 + |body|, 4) && (frame + rest)[4..8] == EncodeInt(correlation, 4)
      && (frame + rest)[|frame|..] == rest
  {
    hide EncodeInt;
  }

  /** A frame at the head of a stream, whatever follows it. */
  lemma OneFrame(correlation: int, body: seq<byte>, rest: seq<byte>, tag: nat)
    requires Fits(correlation, 4) && 4 + |body| <= MAX_BYTES && |ResponseFrame(correlation, body) + rest| < TWO64
    ensures var stream := ResponseFrame(correlation, body) + rest;
      && Whole(stream) && Taken(stream) == |ResponseFrame(correlation, body)| && stream[Taken(stream)..] == rest
      && Arrivals(stream, tag) == [Header(4 + |body|), Body(correlation, tag)]
      && Calls.Receive(stream, correlation).Resolved? && Ready(Calls.Receive(stream, correlation).decoder, body)
  {
    hide At, Calls.Receive, EncodeInt, DecodeInt, ResponseFrame;
    var stream := ResponseFrame(correlation, body) + rest;
    FrameParts(correlation, body, rest);
    Calls.ResponseArrives(correlation, body, rest, correlation);
    Widths();
    IntRoundTrip(4 + |body|, 4);
    IntRoundTrip(correlation, 4);
    ReceivedAt8(stream, correlation);
  }

  lemma FramesCons(calls: seq<Call>, bodies: seq<seq<byte>>, later: seq<byte>)
    requires |calls| == |bodies| && calls != []
    ensures Frames(calls, bodies) + later ==
      ResponseFrame(calls[0].correlation, bodies[0]) + (Frames(calls[1..], bodies[1..]) + later)
  {
    hide ResponseFrame;
    var frame, rest := ResponseFrame(calls[0].correlation, bodies[0]), Frames(calls[1..], bodies[1..]);
    assert (frame + rest) + later == frame + (rest + later);
  }

  lemma FirstFrame(calls: seq<Call>, bodies: seq<seq<byte>>, later: seq<byte>)
    requires Sendable(calls, bodies) && calls != [] && |Frames(calls, bodies) + later| < TWO64
    ensures var stream := Frames(calls, bodies) + later;
      && Delivered(calls, bodies, later, 0)
      && Arrivals(stream, calls[0].id) == [Header(4 + |bodies[0]|), Body(calls[0].correlation, calls[0].id)]
      && Taken(stream) == |ResponseFrame(calls[0].correlation, bodies[0])|
      && stream[Taken(stream)..] == Frames(calls[1..], bodies[1..]) + later
  {
    hide Ready, Calls.Receive, ResponseFrame, Whole, Taken, Arrivals, Frames;
    FramesCons(calls, bodies, later);
    assert calls[0..] == calls && bodies[0..] == bodies;
    OneFrame(calls[0].correlation, bodies[0], Frames(calls[1..], bodies[1..]) + later, calls[0].id);
  }

  lemma ReceivedAt8(stream: seq<byte>, expected: int)
    requires Whole(stream) && DecodeInt(stream[..4]) > 0 && Calls.Receive(stream, expected).Resolved?
    ensures Calls.Receive(stream, expected).decoder.cursor == 8
  {
    hide DecodeInt, Calls.Receive;
    Calls.ReceiveCases(stream, expected);
  }

  lemma {:induction false} FramesShrink(calls: seq<Call>, bodies: seq<seq<byte>>, k: nat)
    requires |calls| == |bodies| && k <= |calls|
    ensures |Frames(calls[k..], bodies[k..])| <= |Frames(calls, bodies)|
    decreases k
  {
    if k == 0 {
      assert calls[0..] == calls && bodies[0..] == bodies;
    } else {
      hide ResponseFrame;
      FramesShrink(calls[1..], bodies[1..], k - 1);
      assert calls[1..][k - 1..] == calls[k..] && bodies[1..][k - 1..] == bodies[k..];
    }
  }

  /** Wherever the reader is, it finds the answer to the call whose turn it is. */
  lemma EachDelivered(calls: seq<Call>, bodies: seq<seq<byte>>, later: seq<byte>, k: nat)
    requires Sendable(calls, bodies) && k < |calls| && |Frames(calls, bodies) + later| < TWO64
    ensures Delivered(calls, bodies, later, k)
  {
    hide Ready, Calls.Receive, Whole, ResponseFrame;
    FramesShrink(calls, bodies, k);
    FirstFrame(calls[k..], bodies[k..], later);
    assert calls[k..][0..] == calls[k..] && bodies[k..][0..] == bodies[k..];
  }

  // ---------- with everything else going on ----------

  /**
   The reads of a run, with any other events between them, take these bytes off the
   connection; mid says that a length has been read and its body has not, and k counts the
   responses so far, which label what is read.
   */
  predicate Parses(es: seq<Event>, stream: seq<byte>, k: nat, mid: bool)
    decreases |es|
  {
    es == [] ||
    match es[0]
    case Header(len) =>
      && !mid && Whole(stream) && len == DecodeInt(stream[..4])
      && if len <= 0 then Parses(es[1..], stream[4..], k + 1, false) else Parses(es[1..], stream, k, true)
    case Body(correlation, tag) =>
      && mid && Whole(stream) && tag == k
      && correlation == (if DecodeInt(stream[..4]) >= 4 then DecodeInt(stream[4..8]) else 0)
      && Parses(es[1..], stream[Taken(stream)..], k + 1, false)
    case ReadError => Parses(es[1..], stream, k, false)
    case _ => Parses(es[1..], stream, k, mid)
  }

  function Headers(es: seq<Event>): nat
    decreases |es|
  {
    if es == [] then 0 else (if es[0].Header? then 1 else 0) + Headers(es[1..])
  }

  /** A step that reads nothing: requests may go out, calls may be lost, and a body being read goes on being read. */
  lemma OtherStep(s: State, e: Event)
    requires Inv(s) && Enabled(s, e) && !e.Header? && !e.Body?
    ensures var t := Step(s, e);
      && OnlyFails(s, t, Network) && t.consumed == s.consumed && s.issued <= t.issued
      && (s.reading.ReadBody? && !e.ReadError? ==> t.reading == s.reading)
      && (!s.reading.ReadBody? || e.ReadError? ==> !t.reading.ReadBody?)
  {
    hide Books, Synced, FailAllSend, FailAllRecv;
    match e
    case Dispatch(i) =>
      DispatchIs(s, i);
      DispatchFails(s, i);
      FailSendKeeps(Enqueued(s, i).(sendCoro := Restarted(s.sendCoro)), Network);
      hide Step, OnlyFails;
    case Write(ok) =>
      WriteIs(s, ok);
      WriteFails(s, ok);
      FailSendKeeps(s.(writing := false), Network);
      hide WriteDone, OnlyFails;
    case ReadError =>
      ErrorIs(s);
      ReadErrorFails(s);
      FailRecvKeeps(s.(reading := NoRead), Network);
      hide ReadFailed, OnlyFails;
    case _ =>
  }

  /** The response of its turn, read: the oldest call is resolved with it. */
  lemma OwnBody(s: State, correlation: int, tag: nat)
    requires Inv(s) && s.reading.ReadBody? && s.reading.len >= 4
    requires s.consumed < |s.issued| ==> correlation == s.issued[s.consumed].correlation
    ensures s.consumed < |s.issued|
    ensures var t := Step(s, Body(correlation, tag));
      && s.issued[s.consumed].id !in s.done
      && t.done == s.done[s.issued[s.consumed].id := Resolved(Answer(correlation, tag))]
      && t.consumed == s.consumed + 1 && t.issued == s.issued && !t.reading.ReadBody?
  {
    BodyIs(s, correlation, tag);
    HeadOnWire(s);
    Unsettled(s);
    hide Books, Synced, FailAllRecv;
  }

  lemma HeadOnWire(s: State)
    requires Inv(s) && s.recvQ != []
    ensures s.consumed < |s.issued| && s.recvQ[0] == s.issued[s.consumed]
  {
    hide Ordered, Labelled, Conserved, Synced;
    assert s.recvQ[0] == s.issued[s.consumed..][0];
  }

  lemma Unsettled(s: State)
    requires Inv(s) && s.recvQ != []
    ensures s.recvQ[0].id !in s.done
  {
    hide Ordered, Labelled, Prefixed, Conserved, Synced;
    HeadUnsettled(s);
  }

  lemma {:induction false} IssuedGrows(s: State, es: seq<Event>)
    requires Inv(s) && Run(s, es)
    ensures s.issued <= After(s, es).issued
    decreases |es|
  {
    if es != [] {
      var e := es[0];
      StepInv(s, e);
      if e.Header? {
        HeaderKeeps(s, e.len);
      } else if e.Body? {
        BodyKeeps(s, e.correlation, e.tag);
      } else {
        OtherStep(s, e);
      }
      hide Inv, Enabled, Step;
      IssuedGrows(Step(s, e), es[1..]);
    }
  }

  lemma HeaderKeeps(s: State, len: int)
    requires Inv(s) && s.reading == ReadHeader
    ensures Step(s, Header(len)).issued == s.issued
  {
    HeaderIs(s, len);
    hide Books, Synced;
  }

  lemma BodyKeeps(s: State, correlation: int, tag: nat)
    requires Inv(s) && s.reading.ReadBody?
    ensures Step(s, Body(correlation, tag)).issued == s.issued
  {
    BodyIs(s, correlation, tag);
    FailRecvKeeps(s.(reading := NoRead, recvCoro := Complete), Decoding);
    hide Books, Synced, FailAllRecv;
  }

  /** Response k answered the k-th request on the wire, which is this call's own. */
  predicate AnsweredBy(o: Outcome, id: nat, wire: seq<Call>, k: nat) {
    k < |wire| && wire[k].id == id && o == Resolved(Answer(wire[k].correlation, k))
  }

  /** Every call so far was lost with the connection or resolved by one of the first n responses, its own. */
  ghost predicate OwnAnswers(done: map<nat, Outcome>, wire: seq<Call>, n: nat) {
    forall id :: id in done && done[id] != Outcome.Failed(Network) ==>
      exists k: nat :: k < n && AnsweredBy(done[id], id, wire, k)
  }

  lemma OwnFails(s: State, t: State, wire: seq<Call>, n: nat)
    requires OwnAnswers(s.done, wire, n) && OnlyFails(s, t, Network)
    ensures OwnAnswers(t.done, wire, n)
  {
    forall id | id in t.done && t.done[id] != Outcome.Failed(Network)
      ensures exists k: nat :: k < n && AnsweredBy(t.done[id], id, wire, k)
    {
      assert id in s.done && s.done[id] == t.done[id];
    }
  }

  lemma OwnResolves(done: map<nat, Outcome>, wire: seq<Call>, k: nat)
    requires OwnAnswers(done, wire, k) && k < |wire|
    ensures OwnAnswers(done[wire[k].id := Resolved(Answer(wire[k].correlation, k))], wire, k + 1)
  {
    var x := wire[k].id;
    var now := done[x := Resolved(Answer(wire[k].correlation, k))];
    forall id | id in now && now[id] != Outcome.Failed(Network)
      ensures exists j: nat :: j < k + 1 && AnsweredBy(now[id], id, wire, j)
    {
      if id == x {
        assert AnsweredBy(now[x], x, wire, k);
      } else {
        var j: nat :| j < k && AnsweredBy(done[id], id, wire, j);
        assert AnsweredBy(now[id], id, wire, j);
      }
    }
  }

  /** Where the reader of a run stands among the frames that answer the requests on the wire. */
  ghost predicate Reading(s: State, es: seq<Event>, wire: seq<Call>, bodies: seq<seq<byte>>, later: seq<byte>) {
    var n, mid := |bodies|, s.reading.ReadBody?;
    && n <= |wire| && s.consumed + (if mid then 1 else 0) + Headers(es) <= n
    && Sendable(wire[s.consumed..n], bodies[s.consumed..])
    && (mid ==> s.reading.len == 4 + |bodies[s.consumed]|)
    && var stream := Frames(wire[s.consumed..n], bodies[s.consumed..]) + later;
       |stream| < TWO64 && Parses(es, stream, s.consumed, mid)
  }

  /** The frame of its turn, at the head of what is left. */
  lemma NextFrame(s: State, wire: seq<Call>, bodies: seq<seq<byte>>, later: seq<byte>)
    requires s.consumed < |bodies| <= |wire|
    requires Sendable(wire[s.consumed..|bodies|], bodies[s.consumed..])
    requires |Frames(wire[s.consumed..|bodies|], bodies[s.consumed..]) + later| < TWO64
    ensures var k, n := s.consumed, |bodies|;
      var stream := Frames(wire[k..n], bodies[k..]) + later;
      && Whole(stream) && DecodeInt(stream[..4]) == 4 + |bodies[k]| && DecodeInt(stream[4..8]) == wire[k].correlation
      && stream[Taken(stream)..] == Frames(wire[k + 1..n], bodies[k + 1..]) + later
      && Sendable(wire[k + 1..n], bodies[k + 1..])
  {
    hide Ready, Calls.Receive, ResponseFrame, DecodeInt, Frames;
    var k, n := s.consumed, |bodies|;
    FirstFrame(wire[k..n], bodies[k..], later);
    assert wire[k..n][1..] == wire[k + 1..n] && bodies[k..][1..] == bodies[k + 1..];
  }

  lemma ReadingHeader(s: State, es: seq<Event>, wire: seq<Call>, bodies: seq<seq<byte>>, later: seq<byte>)
    requires Inv(s) && es != [] && es[0].Header? && Enabled(s, es[0]) && Reading(s, es, wire, bodies, later)
    ensures var t := Step(s, es[0]);
      t.done == s.done && t.consumed == s.consumed && Reading(t, es[1..], wire, bodies, later)
  {
    NextFrame(s, wire, bodies, later);
    HeaderIs(s, es[0].len);
    hide Inv, Frames, DecodeInt, Sendable, HeaderRead, ResolveHead;
  }

  lemma ReadingBody(s: State, es: seq<Event>, wire: seq<Call>, bodies: seq<seq<byte>>, later: seq<byte>)
    requires Inv(s) && es != [] && es[0].Body? && Enabled(s, es[0]) && Reading(s, es, wire, bodies, later)
    requires s.issued <= wire
    ensures var t := Step(s, es[0]);
      && s.consumed < |wire| && t.consumed == s.consumed + 1
      && t.done == s.done[wire[s.consumed].id := Resolved(Answer(wire[s.consumed].correlation, s.consumed))]
      && Reading(t, es[1..], wire, bodies, later)
  {
    NextFrame(s, wire, bodies, later);
    OwnBody(s, es[0].correlation, es[0].tag);
    hide Inv, Frames, DecodeInt, Sendable, Step, Enabled;
  }

  lemma ReadingOther(s: State, es: seq<Event>, wire: seq<Call>, bodies: seq<seq<byte>>, later: seq<byte>)
    requires Inv(s) && es != [] && !es[0].Header? && !es[0].Body? && Enabled(s, es[0])
      && Reading(s, es, wire, bodies, later)
    ensures var t := Step(s, es[0]);
      OnlyFails(s, t, Network) && t.consumed == s.consumed && Reading(t, es[1..], wire, bodies, later)
  {
    OtherStep(s, es[0]);
    hide Inv, Frames, DecodeInt, Sendable, Step, Enabled, OnlyFails;
  }

  lemma {:induction false} ReadingRun(
      s: State, es: seq<Event>, wire: seq<Call>, bodies: seq<seq<byte>>, later: seq<byte>)
    requires Inv(s) && Run(s, es) && After(s, es).issued <= wire && Reading(s, es, wire, bodies, later)
    requires OwnAnswers(s.done, wire, s.consumed)
    ensures var t := After(s, es); t.consumed <= |bodies| && OwnAnswers(t.done, wire, t.consumed)
    decreases |es|
  {
    if es != [] {
      var e, t := es[0], Step(s, es[0]);
      StepInv(s, e);
      IssuedGrows(s, es);
      if e.Header? {
        ReadingHeader(s, es, wire, bodies, later);
      } else if e.Body? {
        ReadingBody(s, es, wire, bodies, later);
        OwnResolves(s.done, wire, s.consumed);
      } else {
        ReadingOther(s, es, wire, bodies, later);
        OwnFails(s, t, wire, s.consumed);
      }
      hide Inv, Enabled, Step, Reading, OwnAnswers;
      ReadingRun(t, es[1..], wire, bodies, later);
    }
  }

  /**
   Any run of any connection, with calls, writes, errors and closes between its reads, that
   takes at most n responses off a stream whose first n frames answer the first n requests on
   the wire, in order, and in which anything may follow. The correlation check never fails:
   every call so far is lost with the connection or resolved by the response to its own
   request, and the decoder it is resolved with stands at exactly that answer.
   */
  lemma InOrderStream(clientId: nat, es: seq<Event>, bodies: seq<seq<byte>>, later: seq<byte>)
    requires clientId <= MAX_STRING && Run(Init(clientId), es)
    requires var wire := After(Init(clientId), es).issued;
      && |bodies| <= |wire| && Sendable(wire[..|bodies|], bodies) && Headers(es) <= |bodies|
      && |Frames(wire[..|bodies|], bodies) + later| < TWO64
      && Parses(es, Frames(wire[..|bodies|], bodies) + later, 0, false)
    ensures var t := After(Init(clientId), es);
      forall id :: id in t.done && t.done[id] != Outcome.Failed(Network) ==>
        exists k: nat :: k < |bodies| && AnsweredBy(t.done[id], id, t.issued, k)
          && Delivered(t.issued[..|bodies|], bodies, later, k)
  {
    InitInv(clientId);
    var s, t := Init(clientId), RpcModel.After(Init(clientId), es);
    var wire, n := t.issued, |bodies|;
    assert wire[0..n] == wire[..n] && bodies[0..] == bodies;
    ReadingRun(s, es, wire, bodies, later);
    hide Run, After, Inv, Frames, Parses, Delivered, AnsweredBy;
    forall id | id in t.done && t.done[id] != Outcome.Failed(Network)
      ensures exists k: nat :: k < n && AnsweredBy(t.done[id], id, wire, k) && Delivered(wire[..n], bodies, later, k)
    {
      var k: nat :| k < t.consumed && AnsweredBy(t.done[id], id, wire, k);
      EachDelivered(wire[..n], bodies, later, k);
    }
  }

  /** Whatever a call asked, its caller decodes the value that was answered. */
  lemma CallerDecodes<W(!new), R(!new)>(libs: Libraries, answer: Codec<W, R>, x: W, y: R, d: Dec)
    requires RoundTrips(libs, answer, x, y) && Ready(d, Encode(libs, answer.items(x)).bytes)
    ensures Calls.Decoded(answer.read(d)) == Calls.Value(y)
  {
    hide At, Encode;
    var body := Encode(libs, answer.items(x)).bytes;
    AtOk(d, body);
    assert Gives(d, answer.read(d), |body|, y);
  }

  /** What the caller of response k decodes from the decoder it is given. */
  ghost function CallerGets<W, R>(
    calls: seq<Call>, bodies: seq<seq<byte>>, later: seq<byte>, k: nat, answer: Codec<W, R>): Calls.CallResult<R>
    requires |calls| == |bodies| && k < |calls| && Delivered(calls, bodies, later, k)
  {
    Calls.Decoded(answer.read(Calls.Receive(Frames(calls[k..], bodies[k..]) + later, calls[k].correlation).decoder))
  }

  /**
   In any such run, each caller that is resolved decodes the value that its own request was
   answered, whatever the types of the requests in the pipeline.
   */
  lemma OwnAnswer<W(!new), R(!new)>(clientId: nat, es: seq<Event>, bodies: seq<seq<byte>>, later: seq<byte>, id: nat,
                                    libs: Libraries, answer: Codec<W, R>, x: W, y: R) returns (k: nat)
    requires clientId <= MAX_STRING && Run(Init(clientId), es)
    requires var t := After(Init(clientId), es);
      var wire := t.issued;
      && |bodies| <= |wire| && Sendable(wire[..|bodies|], bodies) && Headers(es) <= |bodies|
      && |Frames(wire[..|bodies|], bodies) + later| < TWO64
      && Parses(es, Frames(wire[..|bodies|], bodies) + later, 0, false)
      && id in t.done && t.done[id].Resolved?
    requires RoundTrips(libs, answer, x, y)
    requires forall k :: 0 <= k < |bodies| && After(Init(clientId), es).issued[k].id == id ==>
      bodies[k] == Encode(libs, answer.items(x)).bytes
    ensures var wire := After(Init(clientId), es).issued;
      && k < |bodies| <= |wire| && wire[k].id == id && Delivered(wire[..|bodies|], bodies, later, k)
      && CallerGets(wire[..|bodies|], bodies, later, k, answer) == Calls.Value(y)
  {
    InOrderStream(clientId, es, bodies, later);
    hide Run, After, Frames, Parses, Calls.Receive, RoundTrips, Ready, Encode, Whole, Init;
    var t := RpcModel.After(Init(clientId), es);
    k :| k < |bodies| && AnsweredBy(t.done[id], id, t.issued, k) && Delivered(t.issued[..|bodies|], bodies, later, k);
    var calls := t.issued[..|bodies|];
    CallerDecodes(libs, answer, x, y,
        Calls.Receive(Frames(calls[k..], bodies[k..]) + later, calls[k].correlation).decoder);
  }
}
