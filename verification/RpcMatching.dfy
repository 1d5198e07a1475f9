/** Which response resolves which call, over whole runs. */
module RpcMatching {
  import Wire
  import opened RpcModel
  import opened RpcSafety

  // ---------- what one step can settle ----------

  /** Promises only fail in this step, and only for this reason. */
  predicate OnlyFails(s: State, t: State, why: Reason) {
    && (forall id :: id in s.done ==> id in t.done && t.done[id] == s.done[id])
    && (forall id :: id in t.done && id !in s.done ==> t.done[id] == Failed(why))
  }

  /** The oldest call awaiting an answer gets this one, and nothing else is settled. */
  predicate ResolvesHead(s: State, t: State, reply: Reply) {
    s.recvQ != [] && s.recvQ[0].id !in s.done && t.done == s.done[s.recvQ[0].id := Resolved(reply)]
      && Pipeline(t) == Pipeline(s)[1..]
  }

  lemma FailSendOnly(s: State)
    requires Conserved(s) && s.mishap.None?
    ensures OnlyFails(s, FailAllSend(s, Network), Network)
  {
    hide Conserved;
    QueueOnce(s);
    FailCallsOnce(s.(sendQ := [], conn := Closed, failedAll := true), s.sendQ, Network);
  }

  lemma FailRecvOnly(s: State, why: Reason)
    requires Conserved(s) && s.mishap.None?
    ensures OnlyFails(s, FailAllRecv(s, why), why)
  {
    hide Conserved;
    QueueOnce(s);
    FailCallsOnce(s.(recvQ := [], conn := Closed, failedAll := true), s.recvQ, why);
  }

  lemma DispatchFails(s: State, i: nat)
    requires Inv(s) && i < |s.posted|
    ensures OnlyFails(s, Step(s, Dispatch(i)), Network)
  {
    DispatchIs(s, i);
    hide Ordered, Labelled, Prefixed, Conserved, Synced, FailAllSend, Step;
    var u := Enqueued(s, i).(sendCoro := Restarted(s.sendCoro));
    PostedBooks(s, i, u);
    FailSendOnly(u);
  }

  lemma WriteFails(s: State, ok: bool)
    requires Inv(s) && s.writing
    ensures OnlyFails(s, WriteDone(s, ok), Network)
  {
    WriteIs(s, ok);
    hide Ordered, Labelled, Prefixed, Conserved, Synced, FailAllSend, WriteDone;
    SameBooks(s, s.(writing := false));
    FailSendOnly(s.(writing := false));
  }

  lemma ReadErrorFails(s: State)
    requires Inv(s) && s.reading != NoRead
    ensures OnlyFails(s, ReadFailed(s), Network)
  {
    ErrorIs(s);
    hide Ordered, Labelled, Prefixed, Conserved, Synced, FailAllRecv, ReadFailed;
    SameBooks(s, s.(reading := NoRead));
    FailRecvOnly(s.(reading := NoRead), Network);
  }

  lemma ResolveResolves(s: State, reply: Reply)
    requires Inv(s) && s.recvQ != []
    ensures ResolvesHead(s, ResolveHead(s.(reading := NoRead), reply), reply)
  {
    hide Ordered, Labelled, Prefixed, Conserved, Synced;
    HeadUnsettled(s);
    assert Pipeline(s)[1..] == s.recvQ[1..] + s.sendQ;
  }

  lemma BodySettles(s: State, correlation: int, tag: nat)
    requires Inv(s) && s.reading.ReadBody?
    ensures var t := BodyRead(s, correlation, tag);
      if Mismatch(s, correlation) then OnlyFails(s, t, Decoding) else ResolvesHead(s, t, Answer(correlation, tag))
  {
    BodyIs(s, correlation, tag);
    hide Ordered, Labelled, Prefixed, Conserved, Synced, FailAllRecv, ResolveHead, OnlyFails, ResolvesHead, BodyRead;
    if Mismatch(s, correlation) {
      var t := s.(reading := NoRead, recvCoro := Complete);
      SameBooks(s, t);
      FailRecvOnly(t, Decoding);
      SameDone(s, t, BodyRead(s, correlation, tag), Decoding);
    } else {
      ResolveResolves(s, Answer(correlation, tag));
    }
  }

  lemma SameDone(s: State, u: State, t: State, why: Reason)
    requires s.done == u.done && OnlyFails(u, t, why)
    ensures OnlyFails(s, t, why)
  {}

  // ---------- how the pipeline and the numbering move ----------

  /** Old calls keep their numbers, and what joins the pipeline is newer than everything before it. */
  ghost predicate Renumbered(s: State, t: State) {
    && (forall id :: id in s.seqOf ==> id in t.seqOf && t.seqOf[id] == s.seqOf[id])
    && (forall c :: c in Pipeline(t) ==> c in Pipeline(s) || c.correlation >= s.nextSeq)
  }

  lemma FailSendKeeps(s: State, why: Reason)
    ensures var t := FailAllSend(s, why);
      t == s.(sendQ := [], conn := Closed, failedAll := true, done := t.done, mishap := t.mishap)
  {
    FailCallsFrame(s.(sendQ := [], conn := Closed, failedAll := true), s.sendQ, why);
  }

  lemma FailRecvKeeps(s: State, why: Reason)
    ensures var t := FailAllRecv(s, why);
      t == s.(recvQ := [], conn := Closed, failedAll := true, done := t.done, mishap := t.mishap)
  {
    FailCallsFrame(s.(recvQ := [], conn := Closed, failedAll := true), s.recvQ, why);
  }

  lemma DispatchRenumbers(s: State, i: nat)
    requires Inv(s) && i < |s.posted|
    ensures Renumbered(s, Step(s, Dispatch(i)))
  {
    DispatchIs(s, i);
    hide Ordered, Prefixed, Conserved, Synced, Step, FailAllSend;
    FailSendKeeps(Enqueued(s, i).(sendCoro := Restarted(s.sendCoro)), Network);
  }

  lemma WriteRenumbers(s: State, ok: bool)
    requires Inv(s) && s.writing
    ensures Renumbered(s, WriteDone(s, ok))
  {
    WriteIs(s, ok);
    hide Books, Synced, FailAllSend, WriteDone;
    FailSendKeeps(s.(writing := false), Network);
    assert s.sendQ == [s.sendQ[0]] + s.sendQ[1..];
  }

  lemma ReadErrorRenumbers(s: State)
    requires Inv(s) && s.reading != NoRead
    ensures Renumbered(s, ReadFailed(s))
  {
    ErrorIs(s);
    hide Books, Synced, FailAllRecv, ReadFailed;
    FailRecvKeeps(s.(reading := NoRead), Network);
  }

  lemma ResolveRenumbers(s: State, reply: Reply)
    requires Inv(s) && s.recvQ != []
    ensures Renumbered(s, ResolveHead(s.(reading := NoRead), reply))
  {
    ResolveResolves(s, reply);
    hide Inv, Pipeline;
  }

  lemma HeaderRenumbers(s: State, len: int)
    requires Inv(s) && s.reading == ReadHeader
    ensures Renumbered(s, HeaderRead(s, len))
  {
    HeaderIs(s, len);
    if len <= 0 { ResolveRenumbers(s, Empty); }
    hide Books, Synced, ResolveHead, HeaderRead;
  }

  lemma MismatchRenumbers(s: State, correlation: int, tag: nat)
    requires Inv(s) && s.reading.ReadBody? && Mismatch(s, correlation)
    ensures Renumbered(s, BodyRead(s, correlation, tag))
  {
    BodyIs(s, correlation, tag);
    hide Books, Synced, FailAllRecv, ResolveHead, BodyRead;
    FailRecvKeeps(s.(reading := NoRead, recvCoro := Complete), Decoding);
  }

  lemma BodyRenumbers(s: State, correlation: int, tag: nat)
    requires Inv(s) && s.reading.ReadBody?
    ensures Renumbered(s, BodyRead(s, correlation, tag))
  {
    BodyIs(s, correlation, tag);
    hide Books, Synced, FailAllRecv, ResolveHead, Renumbered, BodyRead;
    if Mismatch(s, correlation) {
      MismatchRenumbers(s, correlation, tag);
    } else {
      ResolveRenumbers(s, Answer(correlation, tag));
    }
  }

  lemma StepRenumbers(s: State, e: Event)
    requires Inv(s) && Enabled(s, e)
    ensures Renumbered(s, Step(s, e))
  {
    hide Inv, Pushed, WriteDone, ReadFailed, HeaderRead, BodyRead;
    match e
    case Dispatch(i) => DispatchRenumbers(s, i);
    case Write(ok) => WriteRenumbers(s, ok);
    case Body(correlation, tag) => BodyRenumbers(s, correlation, tag);
    case ReadError => ReadErrorRenumbers(s);
    case Header(len) => HeaderRenumbers(s, len);
    case _ =>
  }

  // ---------- any broker ----------

  /** What a settled promise can be, whatever the broker sends. */
  ghost predicate Matched(s: State) {
    forall id :: id in s.done && s.done[id].Resolved? ==> MatchedCall(s, id, s.done[id].reply)
  }

  /** The call was sent, its answer carries its own correlation id, and no older call is still waiting. */
  ghost predicate MatchedCall(s: State, id: nat, reply: Reply) {
    && id in s.seqOf
    && (reply.Answer? ==> reply.correlation == s.seqOf[id])
    && (forall c :: c in Pipeline(s) ==> s.seqOf[id] < c.correlation)
  }

  lemma CallStays(s: State, t: State, id: nat, reply: Reply)
    requires MatchedCall(s, id, reply) && Renumbered(s, t) && Labelled(s)
    ensures MatchedCall(t, id, reply)
  {}

  lemma FailsMatched(s: State, t: State, why: Reason)
    requires Matched(s) && Labelled(s) && OnlyFails(s, t, why) && Renumbered(s, t)
    ensures Matched(t)
  {}

  lemma HeadMatched(s: State, t: State, reply: Reply)
    requires Ordered(s) && Labelled(s) && ResolvesHead(s, t, reply) && Renumbered(s, t)
    requires reply.Answer? ==> reply.correlation == s.recvQ[0].correlation
    ensures MatchedCall(t, s.recvQ[0].id, reply)
  {
    var p := Pipeline(s);
    assert p[0] == s.recvQ[0] && p[0] in s.recvQ;
    forall c | c in Pipeline(t) ensures p[0].correlation < c.correlation {
      var j :| 0 <= j < |p[1..]| && p[1..][j] == c;
      assert p[j + 1] == c;
    }
  }

  lemma ResolvesMatched(s: State, t: State, reply: Reply)
    requires Matched(s) && Ordered(s) && Labelled(s) && ResolvesHead(s, t, reply) && Renumbered(s, t)
    requires reply.Answer? ==> reply.correlation == s.recvQ[0].correlation
    ensures Matched(t)
  {
    hide Ordered, Labelled, Renumbered, MatchedCall;
    HeadMatched(s, t, reply);
    forall id | id in t.done && t.done[id].Resolved? ensures MatchedCall(t, id, t.done[id].reply) {
      if id != s.recvQ[0].id { CallStays(s, t, id, s.done[id].reply); }
    }
  }

  lemma StepMatched(s: State, e: Event)
    requires Inv(s) && Matched(s) && Enabled(s, e)
    ensures Matched(Step(s, e))
  {
    hide Ordered, Labelled, Prefixed, Conserved, Synced, Renumbered, Matched, OnlyFails, ResolvesHead, Pushed;
    hide WriteDone, ReadFailed, BodyRead, ResolveHead;
    var t := Step(s, e);
    StepRenumbers(s, e);
    match e
    case Dispatch(i) => DispatchFails(s, i); FailsMatched(s, t, Network);
    case Write(ok) => WriteFails(s, ok); FailsMatched(s, t, Network);
    case ReadError => ReadErrorFails(s); FailsMatched(s, t, Network);
    case Header(len) =>
      if len > 0 {
        NothingFails(s, t);
        FailsMatched(s, t, Network);
      } else {
        ResolveResolves(s, Empty);
        ResolvesMatched(s, t, Empty);
      }
    case Body(correlation, tag) =>
      BodySettles(s, correlation, tag);
      if Mismatch(s, correlation) {
        FailsMatched(s, t, Decoding);
      } else {
        ResolvesMatched(s, t, Answer(correlation, tag));
      }
    case _ =>
      NothingFails(s, t);
      FailsMatched(s, t, Network);
  }

  lemma NothingFails(s: State, t: State)
    requires s.done == t.done
    ensures OnlyFails(s, t, Network)
  {}

  lemma {:induction false} RunMatchedFrom(s: State, es: seq<Event>)
    requires Inv(s) && Matched(s) && Run(s, es)
    ensures Inv(After(s, es)) && Matched(After(s, es))
    decreases |es|
  {
    hide Inv, Matched;
    if es != [] {
      StepInv(s, es[0]);
      StepMatched(s, es[0]);
      RunMatchedFrom(Step(s, es[0]), es[1..]);
    }
  }

  /**
   Whatever the broker sends, in every run: a call resolved with a body got one that carries
   its own correlation id, no other call has that id, and no call with an older id is still
   waiting in a queue.
   */
  lemma AnyBroker(clientId: nat, es: seq<Event>)
    requires clientId <= Wire.MAX_STRING && Run(Init(clientId), es)
    ensures var s := After(Init(clientId), es);
      forall id :: id in s.done && s.done[id].Resolved? ==>
        && id in s.seqOf
        && (s.done[id].reply.Answer? ==> s.done[id].reply.correlation == s.seqOf[id])
        && (forall other :: other in s.seqOf && other != id ==> s.seqOf[other] != s.seqOf[id])
        && (forall c :: c in s.recvQ || c in s.sendQ ==> s.seqOf[id] < c.correlation)
  {
    InitInv(clientId);
    RunMatchedFrom(Init(clientId), es);
    hide Ordered, Prefixed, Conserved, Synced;
    var s := After(Init(clientId), es);
    forall c | c in s.recvQ || c in s.sendQ ensures c in Pipeline(s) {}
  }

  // ---------- unchecked responses ----------

  predicate HasEmpty(es: seq<Event>)
    decreases |es|
  {
    es != [] && ((es[0].Header? && es[0].len <= 0) || HasEmpty(es[1..]))
  }

  ghost predicate Unchecked(s: State) {
    exists id :: id in s.done && s.done[id] == Resolved(Empty)
  }

  lemma StepUnchecked(s: State, e: Event)
    requires Inv(s) && Enabled(s, e)
    ensures Unchecked(Step(s, e)) <==> Unchecked(s) || (e.Header? && e.len <= 0)
  {
    hide Ordered, Labelled, Prefixed, Conserved, Synced, Unchecked, OnlyFails, ResolvesHead, Pushed, WriteDone;
    hide ReadFailed, BodyRead, ResolveHead;
    var t := Step(s, e);
    match e
    case Dispatch(i) => DispatchFails(s, i); FailsUnchecked(s, t, Network);
    case Write(ok) => WriteFails(s, ok); FailsUnchecked(s, t, Network);
    case ReadError => ReadErrorFails(s); FailsUnchecked(s, t, Network);
    case Header(len) =>
      if len > 0 {
        NothingFails(s, t);
        FailsUnchecked(s, t, Network);
      } else {
        ResolveResolves(s, Empty);
        ResolvesUnchecked(s, t, Empty);
      }
    case Body(correlation, tag) =>
      BodySettles(s, correlation, tag);
      if Mismatch(s, correlation) {
        FailsUnchecked(s, t, Decoding);
      } else {
        ResolvesUnchecked(s, t, Answer(correlation, tag));
      }
    case _ =>
      NothingFails(s, t);
      FailsUnchecked(s, t, Network);
  }

  lemma FailsUnchecked(s: State, t: State, why: Reason)
    requires OnlyFails(s, t, why)
    ensures Unchecked(t) <==> Unchecked(s)
  {}

  lemma ResolvesUnchecked(s: State, t: State, reply: Reply)
    requires ResolvesHead(s, t, reply)
    ensures Unchecked(t) <==> Unchecked(s) || reply == Empty
  {
    var x := s.recvQ[0].id;
    if Unchecked(s) {
      var id :| id in s.done && s.done[id] == Resolved(Empty);
      assert id in t.done;
    } else if reply == Empty {
      assert t.done[x] == Resolved(Empty);
    }
    if Unchecked(t) && reply != Empty {
      var id :| id in t.done && t.done[id] == Resolved(Empty);
      assert id in s.done;
    }
  }

  lemma {:induction false} RunUncheckedFrom(s: State, es: seq<Event>)
    requires Inv(s) && Run(s, es)
    ensures Unchecked(After(s, es)) <==> Unchecked(s) || HasEmpty(es)
    decreases |es|
  {
    hide Inv, Unchecked;
    if es != [] {
      StepInv(s, es[0]);
      StepUnchecked(s, es[0]);
      RunUncheckedFrom(Step(s, es[0]), es[1..]);
    }
  }

  /**
   A call is resolved without its correlation id being checked exactly when some response had a
   length of zero or less.
   */
  lemma UncheckedIffEmpty(clientId: nat, es: seq<Event>)
    requires clientId <= Wire.MAX_STRING && Run(Init(clientId), es)
    ensures var done := After(Init(clientId), es).done;
      (exists id :: id in done && done[id] == Resolved(Empty)) <==> HasEmpty(es)
  {
    InitInv(clientId);
    RunUncheckedFrom(Init(clientId), es);
  }

  // ---------- a broker that answers in order ----------

  /** The next response answers the oldest unanswered request on the wire. */
  predicate InOrder(s: State, e: Event) {
    && (e.Header? ==> e.len >= 4)
    && (e.Body? && s.consumed < |s.issued| ==>
          e.correlation == s.issued[s.consumed].correlation && e.tag == s.issued[s.consumed].id)
  }

  predicate InOrderRun(s: State, es: seq<Event>)
    requires Run(s, es)
    decreases |es|
  {
    es == [] || (InOrder(s, es[0]) && InOrderRun(Step(s, es[0]), es[1..]))
  }

  /** Every promise so far: lost with the connection, or resolved with the answer to its own request. */
  ghost predicate Genuine(s: State) {
    && (s.reading.ReadBody? ==> s.reading.len >= 4)
    && (forall id :: id in s.done && s.done[id] != Failed(Network) ==> GenuineCall(s, id, s.done[id]))
  }

  ghost predicate GenuineCall(s: State, id: nat, o: Outcome) {
    id in s.seqOf && o == Resolved(Answer(s.seqOf[id], id))
  }

  lemma FailsGenuine(s: State, t: State)
    requires Genuine(s) && OnlyFails(s, t, Network) && Renumbered(s, t)
    requires t.reading.ReadBody? ==> t.reading.len >= 4
    ensures Genuine(t)
  {}

  /** After an answer nothing, or the next length, is read. */
  lemma ResolveReads(s: State, reply: Reply)
    requires s.recvQ != []
    ensures !ResolveHead(s.(reading := NoRead), reply).reading.ReadBody?
  {}

  lemma ReadingKept(s: State, e: Event)
    requires Inv(s) && Enabled(s, e) && !e.Header?
    ensures Step(s, e).reading.ReadBody? ==> Step(s, e).reading == s.reading
  {
    hide Books, Synced, FailAllRecv, FailAllSend, ResolveHead;
    match e
    case Dispatch(i) =>
      DispatchIs(s, i);
      FailSendKeeps(Enqueued(s, i).(sendCoro := Restarted(s.sendCoro)), Network);
      hide Step;
    case Write(ok) =>
      WriteIs(s, ok);
      FailSendKeeps(s.(writing := false), Network);
      hide WriteDone;
    case ReadError =>
      ErrorIs(s);
      FailRecvKeeps(s.(reading := NoRead), Network);
      hide ReadFailed;
    case Body(correlation, tag) =>
      BodyIs(s, correlation, tag);
      FailRecvKeeps(s.(reading := NoRead, recvCoro := Complete), Decoding);
      ResolveReads(s, Answer(correlation, tag));
      hide BodyRead;
    case _ =>
  }

  lemma BodyGenuine(s: State, correlation: int, tag: nat)
    requires Inv(s) && Genuine(s) && s.reading.ReadBody? && InOrder(s, Body(correlation, tag))
    ensures Genuine(BodyRead(s, correlation, tag))
  {
    hide Ordered, Conserved, Synced, BodyRead, FailAllRecv, ResolveHead;
    var t := BodyRead(s, correlation, tag);
    BodySettles(s, correlation, tag);
    BodyRenumbers(s, correlation, tag);
    ReadingKept(s, Body(correlation, tag));
    assert s.recvQ[0] == s.issued[s.consumed..][0] && s.recvQ[0] in s.recvQ;
    assert ResolvesHead(s, t, Answer(correlation, tag));
    forall id | id in t.done && t.done[id] != Failed(Network) ensures GenuineCall(t, id, t.done[id]) {
      if id != s.recvQ[0].id { assert GenuineCall(s, id, s.done[id]); }
    }
  }

  lemma StepGenuine(s: State, e: Event)
    requires Inv(s) && Genuine(s) && Enabled(s, e) && InOrder(s, e)
    ensures Genuine(Step(s, e))
  {
    hide Books, Synced, Renumbered, OnlyFails, Pushed, WriteDone, ReadFailed, BodyRead, ResolveHead;
    var t := Step(s, e);
    StepRenumbers(s, e);
    if !e.Header? { ReadingKept(s, e); }
    match e
    case Dispatch(i) => DispatchFails(s, i); FailsGenuine(s, t);
    case Write(ok) => WriteFails(s, ok); FailsGenuine(s, t);
    case ReadError => ReadErrorFails(s); FailsGenuine(s, t);
    case Body(correlation, tag) => BodyGenuine(s, correlation, tag);
    case _ =>
      NothingFails(s, t);
      FailsGenuine(s, t);
  }

  lemma {:induction false} RunGenuineFrom(s: State, es: seq<Event>)
    requires Inv(s) && Genuine(s) && Run(s, es) && InOrderRun(s, es)
    ensures Genuine(After(s, es))
    decreases |es|
  {
    hide Inv, Genuine;
    if es != [] {
      StepInv(s, es[0]);
      StepGenuine(s, es[0]);
      RunGenuineFrom(Step(s, es[0]), es[1..]);
    }
  }

  /**
   With a broker that answers in order, whatever closes, errors and pipelining there are: the
   correlation check never fails, and every call is resolved with the answer to its own
   request or lost with the connection.
   */
  lemma InOrderBroker(clientId: nat, es: seq<Event>)
    requires clientId <= Wire.MAX_STRING && Run(Init(clientId), es) && InOrderRun(Init(clientId), es)
    ensures var s := After(Init(clientId), es);
      forall id :: id in s.done && s.done[id] != Failed(Network) ==>
        id in s.seqOf && s.done[id] == Resolved(Answer(s.seqOf[id], id))
  {
    InitInv(clientId);
    RunGenuineFrom(Init(clientId), es);
  }

  /**
   Every call in the pipeline has an id given out before, larger than all those ahead of it, and
   until a close they are the last ones given out.
   */
  lemma PipelineOrder(clientId: nat, es: seq<Event>, i: nat)
    requires clientId <= Wire.MAX_STRING && Run(Init(clientId), es)
    requires i < |Pipeline(After(Init(clientId), es))|
    ensures var s := After(Init(clientId), es);
      var p := Pipeline(s);
      && p[i].correlation < s.nextSeq
      && (forall j :: 0 <= j < i ==> p[j].correlation < p[i].correlation)
      && (s.conn != Closed ==> p[i].correlation == s.nextSeq - |p| + i)
  {
    InitInv(clientId);
    RunInvFrom(Init(clientId), es);
  }

  /** As many numbers were given out as calls were dispatched, from zero on. */
  ghost predicate Counted(s: State) {
    |s.seqOf| == s.nextSeq && forall id :: id in s.seqOf ==> 0 <= s.seqOf[id] < s.nextSeq
  }

  /** The numbering is the same. */
  predicate SameNumbers(s: State, t: State) {
    t.seqOf == s.seqOf && t.nextSeq == s.nextSeq
  }

  lemma SameCount(s: State, t: State)
    requires Counted(s) && SameNumbers(s, t)
    ensures Counted(t)
  {}

  lemma DispatchCounts(s: State, i: nat)
    requires Inv(s) && Counted(s) && i < |s.posted|
    ensures Counted(Step(s, Dispatch(i)))
  {
    DispatchIs(s, i);
    var u := Enqueued(s, i);
    assert Counted(u);
    FailSendKeeps(u.(sendCoro := Restarted(s.sendCoro)), Network);
    hide Inv, Step, FailAllSend, Counted;
    SameCount(u, Step(s, Dispatch(i)));
  }

  lemma WriteCounts(s: State, ok: bool)
    requires Inv(s) && Counted(s) && s.writing
    ensures Counted(WriteDone(s, ok))
  {
    WriteIs(s, ok);
    FailSendKeeps(s.(writing := false), Network);
    hide Inv, WriteDone, FailAllSend;
  }

  lemma ResolveNumbers(s: State, reply: Reply)
    requires s.recvQ != []
    ensures SameNumbers(s, ResolveHead(s, reply))
  {}

  lemma ReadCounts(s: State, a: Arrival)
    requires Counted(s)
    ensures Counted(ReadDone(s, a))
  {
    if s.recvQ != [] { EntryNumbers(s.(reading := NoRead), a); }
    hide RecvEntry, Counted;
    SameCount(s, ReadDone(s, a));
  }

  lemma EntryNumbers(t: State, a: Arrival)
    requires t.recvQ != []
    ensures SameNumbers(t, RecvEntry(t, a))
  {
    FailRecvKeeps(t, Network);
    FailRecvKeeps(t.(recvCoro := Complete), Decoding);
    hide FailAllRecv, ResolveHead;
    ResolveNumbers(t, Empty);
    if a.Payload? { ResolveNumbers(t, Answer(a.correlation, a.tag)); }
  }

  lemma StepCounts(s: State, e: Event)
    requires Inv(s) && Counted(s) && Enabled(s, e)
    ensures Counted(Step(s, e))
  {
    hide Inv, ReadDone, WriteDone, Pushed;
    match e
    case Dispatch(i) => DispatchCounts(s, i);
    case Write(ok) => WriteCounts(s, ok);
    case ReadError => ReadCounts(s, Broken);
    case Header(len) => ReadCounts(s, Length(len));
    case Body(correlation, tag) => ReadCounts(s, Payload(s.reading.len, correlation, tag));
    case _ =>
  }

  lemma {:induction false} RunCounts(s: State, es: seq<Event>)
    requires Inv(s) && Counted(s) && Run(s, es)
    ensures Counted(After(s, es))
    decreases |es|
  {
    if es != [] {
      StepInv(s, es[0]);
      StepCounts(s, es[0]);
      hide Inv, Enabled, Step, Counted;
      RunCounts(Step(s, es[0]), es[1..]);
    }
  }

  /** In every run the n calls that have reached the strand have the correlation ids 0 to n - 1, each one of them. */
  lemma NumberedFromZero(clientId: nat, es: seq<Event>)
    requires clientId <= Wire.MAX_STRING && Run(Init(clientId), es)
    ensures var s := After(Init(clientId), es);
      && (forall id :: id in s.seqOf ==> 0 <= s.seqOf[id] < |s.seqOf|)
      && (forall a, b :: a in s.seqOf && b in s.seqOf && a != b ==> s.seqOf[a] != s.seqOf[b])
  {
    InitInv(clientId);
    RunCounts(Init(clientId), es);
    RunInvFrom(Init(clientId), es);
  }
}
