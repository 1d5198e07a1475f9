/**
 The RPC pipeline of one broker connection as a labelled transition system. Two queues, each
 driven by a restartable stackless coroutine, share the connection; all handlers run on its
 strand, one at a time, while connect() and close() may come from any thread between them.

 A coroutine is fresh, suspended at a yield, or complete. Leaving a reenter block without
 yielding completes it; the error exits before reenter leave it where it was.
 */
module RpcModel {
  import opened Bytes
  import Wire

  datatype Conn = Idle | Up | Closed

  datatype Point = WritePoint | HeaderPoint | BodyPoint

  datatype Coro = Fresh | Suspended(at: Point) | Complete

  datatype Call = Call(id: nat, correlation: int)

  /** What a resolved promise holds: the body read, or nothing after a length of zero or less. */
  datatype Reply = Empty | Answer(correlation: int, tag: nat)

  datatype Reason = Network | Encoding | Decoding

  datatype Outcome = Resolved(reply: Reply) | Failed(why: Reason)

  datatype Read = NoRead | ReadHeader | ReadBody(len: int)

  /** Things the code must never do. The first one that happens stops the model. */
  datatype Mishap =
    | PromiseSetTwice          // std::future_error
    | NullCall                 // a handler runs with an empty queue and dereferences next()
    | StaleResume(at: Point)   // a suspended coroutine is entered without its operation completing
    | TwoOperations            // a read or write is started while one is in flight

  datatype State = State(
    clientId: nat,                // length of the client id sent in every header
    conn: Conn,
    posted: seq<nat>,             // calls waiting for the strand
    nextId: nat,
    sendQ: seq<Call>,
    recvQ: seq<Call>,
    nextSeq: int,
    sendCoro: Coro,
    recvCoro: Coro,
    writing: bool,                // a write is in flight
    reading: Read,                // the read in flight
    done: map<nat, Outcome>,      // promises set
    mishap: Option<Mishap>,
    // history
    seqOf: map<nat, int>,         // correlation id given to each call
    issued: seq<Call>,            // requests put on the wire, in order
    consumed: nat,                // responses read off it
    failedAll: bool)              // some fail_all has run

  function Init(clientId: nat): State {
    State(clientId, Idle, [], 0, [], [], 0, Fresh, Fresh, false, NoRead, map[], None, map[], [], 0, false)
  }

  // ---------- promises ----------

  function Settle(s: State, id: nat, o: Outcome): State {
    if id in s.done then s.(mishap := Some(PromiseSetTwice)) else s.(done := s.done[id := o])
  }

  /** The loop at the end of fail_all, over its local copy of the queue. */
  function FailCalls(s: State, q: seq<Call>, why: Reason): State
    decreases |q|
  {
    if q == [] || s.mishap.Some? then s else FailCalls(Settle(s, q[0].id, Failed(why)), q[1..], why)
  }

  function FailAllSend(s: State, why: Reason): State {
    FailCalls(s.(sendQ := [], conn := Closed, failedAll := true), s.sendQ, why)
  }

  function FailAllRecv(s: State, why: Reason): State {
    FailCalls(s.(recvQ := [], conn := Closed, failedAll := true), s.recvQ, why)
  }

  // ---------- the receive queue ----------

  function Restarted(c: Coro): Coro {
    if c == Complete then Fresh else c
  }

  function StartHeader(s: State): State {
    if s.reading != NoRead then s.(mishap := Some(TwoOperations))
    else s.(reading := ReadHeader, recvCoro := Suspended(HeaderPoint))
  }

  /** pop()->resolve(): the oldest call leaves the queue with its promise set. */
  function Popped(s: State, reply: Reply): State
    requires s.recvQ != []
  {
    Settle(s.(recvQ := s.recvQ[1..], consumed := s.consumed + 1), s.recvQ[0].id, Resolved(reply))
  }

  /** pop()->resolve() and on to the next call, if any. */
  function ResolveHead(s: State, reply: Reply): State
    requires s.recvQ != []
  {
    var t := Popped(s, reply);
    if t.mishap.Some? then t
    else if t.recvQ == [] then t.(recvCoro := Complete)
    else StartHeader(t)
  }

  /** What the receive handler is called with: nothing from a push, an error, or the bytes read. */
  datatype Arrival = Nothing | Broken | Length(len: int) | Payload(size: int, correlation: int, tag: nat)

  /** RPCRecvQueue's operator(): an error fails everything, otherwise the coroutine goes on from where it is. */
  function RecvEntry(s: State, a: Arrival): State
    requires s.recvQ != []
  {
    if a == Broken then FailAllRecv(s, Network)
    else match s.recvCoro
      case Fresh => StartHeader(s)
      case Suspended(BodyPoint) =>
        if !a.Payload? then s
        else if a.size < 4 || a.correlation != s.recvQ[0].correlation then
          FailAllRecv(s.(recvCoro := Complete), Decoding)
        else ResolveHead(s, Answer(a.correlation, a.tag))
      case Suspended(_) =>
        if !a.Length? then s
        else if a.len <= 0 then ResolveHead(s, Empty)
        else if s.reading != NoRead then s.(mishap := Some(TwoOperations))
        else s.(reading := ReadBody(a.len), recvCoro := Suspended(BodyPoint))
      case Complete => s
  }

  /** stranded_push on the receive queue, called from the send handler. */
  function PushRecv(s: State, c: Call): State {
    var t := s.(recvQ := s.recvQ + [c]);
    if |t.recvQ| != 1 then t
    else if t.recvCoro.Suspended? then t.(mishap := Some(StaleResume(t.recvCoro.at)))
    else RecvEntry(t.(recvCoro := Restarted(t.recvCoro)), Nothing)
  }

  /** A read completed: the handler runs with no read in flight. */
  function ReadDone(s: State, a: Arrival): State {
    var t := s.(reading := NoRead);
    if t.recvQ == [] then t.(mishap := Some(NullCall)) else RecvEntry(t, a)
  }

  function ReadFailed(s: State): State {
    ReadDone(s, Broken)
  }

  function HeaderRead(s: State, len: int): State {
    ReadDone(s, Length(len))
  }

  function BodyRead(s: State, correlation: int, tag: nat): State
    requires s.reading.ReadBody?
  {
    ReadDone(s, Payload(s.reading.len, correlation, tag))
  }

  // ---------- the send queue ----------

  /** encode_request for the head of the queue; a header that cannot be encoded fails the call. */
  function EncodedHead(s: State): State
    requires s.sendQ != []
  {
    if s.clientId > Wire.MAX_STRING then Settle(s, s.sendQ[0].id, Failed(Encoding))
    else s.(issued := s.issued + [s.sendQ[0]])
  }

  /** encode_request and async_write. */
  function StartWrite(s: State): State
    requires s.sendQ != []
  {
    var t := EncodedHead(s);
    if t.mishap.Some? then t
    else if t.writing then t.(mishap := Some(TwoOperations))
    else t.(writing := true, sendCoro := Suspended(WritePoint))
  }

  /** pop and on_success: the call that was written waits for its answer now. */
  function HandedOver(s: State): State
    requires s.sendQ != []
  {
    PushRecv(s.(sendQ := s.sendQ[1..]), s.sendQ[0])
  }

  /** After a write: hand over, and start the next one. */
  function NextWrite(s: State): State
    requires s.sendQ != []
  {
    var t := HandedOver(s);
    if t.mishap.Some? then t
    else if t.sendQ == [] then t.(sendCoro := Complete)
    else StartWrite(t)
  }

  /**
   RPCSendQueue's operator(): no connection or an error fails everything, otherwise the coroutine
   goes on from where it is.
   */
  function SendEntry(s: State, ok: bool): State
    requires s.sendQ != []
  {
    if !ok || s.conn != Up then FailAllSend(s, Network)
    else match s.sendCoro
      case Fresh => StartWrite(s)
      case Suspended(_) => NextWrite(s)
      case Complete => s
  }

  /** A write completed: the handler runs with no write in flight. */
  function WriteDone(s: State, ok: bool): State {
    var t := s.(writing := false);
    if t.sendQ == [] then t.(mishap := Some(NullCall)) else SendEntry(t, ok)
  }

  /** A waiting call joins the send queue under the next number. */
  function Enqueued(s: State, i: nat): (t: State)
    requires i < |s.posted|
    ensures |t.sendQ| == |s.sendQ| + 1
  {
    s.(posted := s.posted[..i] + s.posted[i + 1..], nextSeq := s.nextSeq + 1,
       seqOf := s.seqOf[s.posted[i] := s.nextSeq], sendQ := s.sendQ + [Call(s.posted[i], s.nextSeq)])
  }

  /** The send handler called by a push, with no error and no operation behind it. */
  function EnterSend(s: State): State
    requires s.sendQ != []
  {
    if s.conn == Up && s.sendCoro.Suspended? then s.(mishap := Some(StaleResume(s.sendCoro.at)))
    else SendEntry(s, true)
  }

  /** stranded_push on the send queue, for call i of those waiting for the strand. */
  function Pushed(s: State, i: nat): State
    requires i < |s.posted|
  {
    var t := Enqueued(s, i);
    if |t.sendQ| != 1 then t else EnterSend(t.(sendCoro := Restarted(t.sendCoro)))
  }

  // ---------- runs ----------

  datatype Event =
    | Connect                          // the connection came up
    | Close                            // close() from any thread
    | NewCall                          // Broker::call from any thread
    | Dispatch(i: nat)                 // the strand runs a waiting push
    | Write(ok: bool)
    | ReadError
    | Header(len: int)
    | Body(correlation: int, tag: nat)

  predicate Enabled(s: State, e: Event) {
    s.mishap.None? &&
    match e
    case Connect => s.conn == Idle
    case Close => true
    case NewCall => true
    case Dispatch(i) => i < |s.posted|
    case Write(_) => s.writing
    case ReadError => s.reading != NoRead
    case Header(_) => s.reading == ReadHeader
    case Body(_, _) => s.reading.ReadBody?
  }

  function Step(s: State, e: Event): State
    requires Enabled(s, e)
  {
    match e
    case Connect => s.(conn := Up)
    case Close => s.(conn := Closed)
    case NewCall => s.(posted := s.posted + [s.nextId], nextId := s.nextId + 1)
    case Dispatch(i) => Pushed(s, i)
    case Write(ok) => WriteDone(s, ok)
    case ReadError => ReadFailed(s)
    case Header(len) => HeaderRead(s, len)
    case Body(correlation, tag) => BodyRead(s, correlation, tag)
  }

  predicate Run(s: State, es: seq<Event>)
    decreases |es|
  {
    es == [] || (Enabled(s, es[0]) && Run(Step(s, es[0]), es[1..]))
  }

  function After(s: State, es: seq<Event>): State
    requires Run(s, es)
    decreases |es|
  {
    if es == [] then s else After(Step(s, es[0]), es[1..])
  }
}
