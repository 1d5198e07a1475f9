/** The properties of whole runs: once, never hung, matched to the right caller. */
module RpcProperties {
  import opened Bytes
  import Wire
  import opened RpcModel
  import opened RpcSafety

  // ---------- safety ----------

  /** In how many of its four places a call is: waiting for the strand, a queue, or completed. */
  function Count(s: State, id: nat): nat {
    multiset(s.posted)[id] + multiset(Ids(s.sendQ))[id] + multiset(Ids(s.recvQ))[id] + if id in s.done then 1 else 0
  }

  /**
   In every run of calls, completions, errors and closes, each call is in exactly one place,
   no promise is set twice, no handler finds its queue empty, no suspended coroutine is
   entered without its operation having completed, and at most one read and one write are in
   flight, a write exactly while the send queue is non-empty and a read exactly while the
   receive queue is.
   */
  lemma SafeRuns(clientId: nat, es: seq<Event>)
    requires clientId <= Wire.MAX_STRING && Run(Init(clientId), es)
    ensures var s := After(Init(clientId), es);
      && s.mishap.None?
      && (forall id: nat :: Count(s, id) == if id < s.nextId then 1 else 0)
      && (s.writing <==> s.sendQ != []) && (s.reading != NoRead <==> s.recvQ != [])
      && (s.sendCoro.Suspended? && !s.writing ==> s.conn == Closed)
      && (s.recvCoro.Suspended? && s.reading == NoRead ==> s.conn == Closed)
  {
    InitInv(clientId);
    RunInvFrom(Init(clientId), es);
    var s := After(Init(clientId), es);
    forall id: nat ensures Count(s, id) == if id < s.nextId then 1 else 0 {
      assert Places(s)[id] == if id < s.nextId then 1 else 0;
      assert id in s.done <==> id in s.done.Keys;
    }
  }

  /** A client id too long for its length prefix: the call fails, is sent on anyway, and completes again. */
  function LongIdRun(): seq<Event> {
    [Connect, NewCall, Dispatch(0), Write(true), Header(0)]
  }

  /** The call is waiting for the strand, */
  function LongPosted(clientId: nat): State {
    Init(clientId).(conn := Up, posted := [0], nextId := 1)
  }

  /** has failed and is being written, */
  function LongWritten(clientId: nat): State {
    Init(clientId).(conn := Up, nextId := 1, sendQ := [Call(0, 0)], nextSeq := 1, sendCoro := Suspended(WritePoint),
                    writing := true, done := map[0 := Failed(Encoding)], seqOf := map[0 := 0])
  }

  /** and waits for an answer. */
  function LongAwaited(clientId: nat): State {
    LongWritten(clientId).(sendQ := [], recvQ := [Call(0, 0)], sendCoro := Complete, writing := false,
                           recvCoro := Suspended(HeaderPoint), reading := ReadHeader)
  }

  lemma LongDispatch(clientId: nat)
    requires clientId > Wire.MAX_STRING
    ensures Step(LongPosted(clientId), Dispatch(0)) == LongWritten(clientId)
  {
    assert [0][..0] + [0][1..] == [];
  }

  lemma LongWrite(clientId: nat)
    ensures Step(LongWritten(clientId), Write(true)) == LongAwaited(clientId)
  {}

  lemma LongAnswer(clientId: nat)
    ensures Step(LongAwaited(clientId), Header(0)).mishap == Some(PromiseSetTwice)
  {}

  lemma RunCons(s: State, e: Event, t: State, es: seq<Event>)
    requires Enabled(s, e) && Step(s, e) == t && Run(t, es)
    ensures Run(s, [e] + es) && After(s, [e] + es) == After(t, es)
  {
    hide Enabled, Step;
    assert ([e] + es)[1..] == es;
  }

  lemma LongStart(clientId: nat)
    ensures Enabled(Init(clientId), Connect) && Enabled(Step(Init(clientId), Connect), NewCall)
    ensures Step(Step(Init(clientId), Connect), NewCall) == LongPosted(clientId)
    ensures Enabled(LongPosted(clientId), Dispatch(0)) && Enabled(LongWritten(clientId), Write(true))
    ensures Enabled(LongAwaited(clientId), Header(0))
  {}

  lemma LongIdBreaks(clientId: nat)
    requires clientId > Wire.MAX_STRING
    ensures Run(Init(clientId), LongIdRun())
    ensures After(Init(clientId), LongIdRun()).mishap == Some(PromiseSetTwice)
  {
    hide Step, Enabled, LongPosted, LongWritten, LongAwaited, Init, Run, After;
    LongStart(clientId);
    LongDispatch(clientId);
    LongWrite(clientId);
    LongAnswer(clientId);
    var s1 := Step(Init(clientId), Connect);
    var s5 := Step(LongAwaited(clientId), Header(0));
    NoEvents(s5);
    RunCons(LongAwaited(clientId), Header(0), s5, []);
    RunCons(LongWritten(clientId), Write(true), LongAwaited(clientId), [Header(0)] + []);
    RunCons(LongPosted(clientId), Dispatch(0), LongWritten(clientId), [Write(true)] + ([Header(0)] + []));
    var es := [Dispatch(0)] + ([Write(true)] + ([Header(0)] + []));
    RunCons(s1, NewCall, LongPosted(clientId), es);
    RunCons(Init(clientId), Connect, s1, [NewCall] + es);
    assert LongIdRun() == [Connect] + ([NewCall] + es);
  }

  lemma NoEvents(s: State)
    ensures Run(s, []) && After(s, []) == s
  {}

  /** Promises are set at most once in every run exactly when the client id fits a string field. */
  lemma OnceIffShortId(clientId: nat)
    ensures clientId <= Wire.MAX_STRING <==>
      forall es :: Run(Init(clientId), es) ==> After(Init(clientId), es).mishap.None?
  {
    if clientId <= Wire.MAX_STRING {
      forall es | Run(Init(clientId), es) ensures After(Init(clientId), es).mishap.None? {
        SafeRuns(clientId, es);
      }
    } else {
      LongIdBreaks(clientId);
    }
  }

  // ---------- progress ----------

  /** Steps still owed: dispatch, write, header and body for each call. */
  function Work(s: State): nat {
    4 * |s.posted| + 3 * |s.sendQ| + 2 * |s.recvQ| - if s.reading.ReadBody? && s.recvQ != [] then 1 else 0
  }

  /** Something the strand or the network still has to deliver. */
  predicate Delivery(e: Event) {
    !e.Connect? && !e.Close? && !e.NewCall?
  }

  lemma FailSendWork(s: State, why: Reason)
    ensures Work(FailAllSend(s, why)) == Work(s) - 3 * |s.sendQ|
  {
    FailCallsFrame(s.(sendQ := [], conn := Closed, failedAll := true), s.sendQ, why);
  }

  lemma FailRecvWork(s: State, why: Reason)
    requires s.reading == NoRead
    ensures Work(FailAllRecv(s, why)) == Work(s) - 2 * |s.recvQ|
  {
    FailCallsFrame(s.(recvQ := [], conn := Closed, failedAll := true), s.recvQ, why);
  }

  lemma DispatchWorks(s: State, i: nat)
    requires Inv(s) && i < |s.posted|
    ensures Work(Step(s, Dispatch(i))) < Work(s)
  {
    DispatchIs(s, i);
    hide Books, Synced, FailAllSend, Step;
    FailSendWork(Enqueued(s, i).(sendCoro := Restarted(s.sendCoro)), Network);
  }

  lemma WriteWorks(s: State, ok: bool)
    requires Inv(s) && s.writing
    ensures Work(WriteDone(s, ok)) < Work(s)
  {
    WriteIs(s, ok);
    hide Books, Synced, FailAllSend, WriteDone;
    FailSendWork(s.(writing := false), Network);
  }

  lemma ReadErrorWorks(s: State)
    requires Inv(s) && s.reading != NoRead
    ensures Work(ReadFailed(s)) < Work(s)
  {
    ErrorIs(s);
    hide Books, Synced, FailAllRecv, ReadFailed;
    FailRecvWork(s.(reading := NoRead), Network);
  }

  lemma ResolveWorks(s: State, reply: Reply)
    requires Inv(s) && s.recvQ != []
    ensures Work(ResolveHead(s.(reading := NoRead), reply)) == 4 * |s.posted| + 3 * |s.sendQ| + 2 * (|s.recvQ| - 1)
  {
    hide Books, Synced;
    ResolveInv(s, reply);
  }

  lemma HeaderWorks(s: State, len: int)
    requires Inv(s) && s.reading == ReadHeader
    ensures Work(HeaderRead(s, len)) < Work(s)
  {
    HeaderIs(s, len);
    hide Books, Synced, ResolveHead, HeaderRead;
    ResolveWorks(s, Empty);
  }

  lemma BodyWorks(s: State, correlation: int, tag: nat)
    requires Inv(s) && s.reading.ReadBody?
    ensures Work(BodyRead(s, correlation, tag)) < Work(s)
  {
    BodyIs(s, correlation, tag);
    hide Books, Synced, FailAllRecv, ResolveHead, BodyRead;
    FailRecvWork(s.(reading := NoRead, recvCoro := Complete), Decoding);
    ResolveWorks(s, Answer(correlation, tag));
  }

  /** Every delivery uses up work. */
  lemma DeliveryWorks(s: State, e: Event)
    requires Inv(s) && Enabled(s, e) && Delivery(e)
    ensures Work(Step(s, e)) < Work(s)
  {
    hide Inv, Work;
    match e
    case Dispatch(i) => DispatchWorks(s, i);
    case Write(ok) => WriteWorks(s, ok);
    case ReadError => ReadErrorWorks(s);
    case Header(len) => HeaderWorks(s, len);
    case Body(correlation, tag) => BodyWorks(s, correlation, tag);
  }

  function Deliveries(es: seq<Event>): nat {
    if es == [] then 0 else (if Delivery(es[0]) then 1 else 0) + Deliveries(es[1..])
  }

  predicate NoCalls(es: seq<Event>) {
    forall i :: 0 <= i < |es| ==> !es[i].NewCall?
  }

  lemma {:induction false} BoundedFrom(s: State, es: seq<Event>)
    requires Inv(s) && Run(s, es) && NoCalls(es)
    ensures Deliveries(es) + Work(After(s, es)) <= Work(s)
    decreases |es|
  {
    hide Inv;
    if es != [] {
      StepInv(s, es[0]);
      if Delivery(es[0]) { DeliveryWorks(s, es[0]); }
      BoundedFrom(Step(s, es[0]), es[1..]);
    }
  }

  /** Nothing is left to be delivered. */
  ghost predicate Quiet(s: State) {
    forall e :: Delivery(e) ==> !Enabled(s, e)
  }

  /**
   No future hangs. Once no more calls are made, only as many deliveries are possible as
   work was left, and when none is possible any more, whatever errors and closes there were,
   every call has its promise set.
   */
  lemma NoHungFutures(clientId: nat, before: seq<Event>, rest: seq<Event>)
    requires clientId <= Wire.MAX_STRING && Run(Init(clientId), before)
    requires Run(After(Init(clientId), before), rest) && NoCalls(rest)
    ensures var s := After(Init(clientId), before);
      var t := After(s, rest);
      && Deliveries(rest) <= Work(s)
      && (Quiet(t) ==> t.sendQ == [] && t.recvQ == [] && forall id: nat :: id < t.nextId ==> id in t.done)
  {
    InitInv(clientId);
    RunInvFrom(Init(clientId), before);
    var s := After(Init(clientId), before);
    BoundedFrom(s, rest);
    RunInvFrom(s, rest);
    var t := After(s, rest);
    if Quiet(t) { QuietIsDone(t); }
  }

  lemma QuietIsDone(t: State)
    requires Inv(t) && Quiet(t)
    ensures t.sendQ == [] && t.recvQ == [] && forall id: nat :: id < t.nextId ==> id in t.done
  {
    hide Ordered, Labelled, Prefixed, Synced;
    assert !Enabled(t, Dispatch(0)) && !Enabled(t, Write(true)) && !Enabled(t, ReadError);
    assert Ids([]) == [];
    hide Ids;
    forall id: nat | id < t.nextId ensures id in t.done {
      assert Places(t)[id] == 1;
    }
  }
}
