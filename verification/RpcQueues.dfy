/**
 The pipeline as objects: each call owns its promise, each direction has a queue of calls
 with its coroutine, and both queues share one connection. Setting a promise that is set,
 starting a second operation or taking the head of an empty queue is not modelled as an
 outcome here but ruled out by preconditions, so the proofs that the handlers meet them are
 the proofs that it never happens. The handlers enter a coroutine wherever it is suspended,
 without being told why they were called.
 */
module RpcQueues {
  import opened Bytes
  import Wire
  import opened RpcModel
  import opened RpcSafety

  class Rpc {
    const id: nat
    var seqNo: int
    var promise: Option<Outcome>

    constructor (id: nat)
      ensures this.id == id && promise == None && seqNo == 0
    {
      this.id := id;
      seqNo, promise := 0, None;
    }

    /** set_value or set_exception: throws if the promise is set. */
    method Settle(o: Outcome)
      requires promise.None?
      modifies this`promise
      ensures promise == Some(o)
    {
      promise := Some(o);
    }
  }

  /** The connection, with the operations in flight on it: at most one read and one write. */
  class Link {
    var conn: Conn
    var writing: bool
    var reading: Read

    constructor ()
      ensures conn == Conn.Idle && !writing && reading == NoRead
    {
      conn, writing, reading := Conn.Idle, false, NoRead;
    }

    method AsyncWrite()
      requires !writing
      modifies this`writing
      ensures writing
    {
      writing := true;
    }

    method AsyncRead(what: Read)
      requires reading == NoRead && what != NoRead
      modifies this`reading
      ensures reading == what
    {
      reading := what;
    }
  }

  /** The calls as the transition system sees them. */
  ghost function CallsOf(q: seq<Rpc>): (r: seq<Call>)
    reads q`seqNo
    ensures |r| == |q| && forall i :: 0 <= i < |q| ==> r[i] == Call(q[i].id, q[i].seqNo)
  {
    if q == [] then [] else [Call(q[0].id, q[0].seqNo)] + CallsOf(q[1..])
  }

  ghost function IdsOf(q: seq<Rpc>): (r: seq<nat>)
    ensures |r| == |q| && forall i :: 0 <= i < |q| ==> r[i] == q[i].id
  {
    seq(|q|, i requires 0 <= i < |q| => q[i].id)
  }

  /** The promises that are set. */
  ghost function DoneOf(made: seq<Rpc>): (r: map<nat, Outcome>)
    reads made`promise
    ensures forall k: nat :: k in r <==> k < |made| && made[k].promise.Some?
    ensures forall k: nat :: k in r ==> r[k] == made[k].promise.value
  {
    map k: nat | k < |made| && made[k].promise.Some? :: made[k].promise.value
  }

  class RpcQueue {
    const link: Link
    var q: seq<Rpc>
    var nextSeq: int
    var coro: Coro

    constructor (link: Link)
      ensures this.link == link && q == [] && nextSeq == 0 && coro == Fresh
    {
      this.link := link;
      q, nextSeq, coro := [], 0, Fresh;
    }

    /** Fails every call of the queue, once the queue is empty and the connection closed. */
    method FailAll(why: Reason)
      requires forall i :: 0 <= i < |q| ==> q[i].promise.None?
      requires forall i, j :: 0 <= i < j < |q| ==> q[i] != q[j]
      modifies this`q, link`conn, q`promise
      ensures q == [] && link.conn == Closed
      ensures forall i :: 0 <= i < |old(q)| ==> old(q)[i].promise == Some(Failed(why))
    {
      var local := q;
      q := [];
      link.conn := Closed;
      var i := 0;
      while i < |local|
        invariant 0 <= i <= |local| && q == [] && link.conn == Closed
        invariant forall j :: 0 <= j < i ==> local[j].promise == Some(Failed(why))
        invariant forall j :: i <= j < |local| ==> local[j].promise.None?
      {
        local[i].Settle(Failed(why));
        i := i + 1;
      }
    }

    method Pop() returns (r: Rpc)
      requires q != []
      modifies this`q
      ensures r == old(q)[0] && q == old(q)[1..]
    {
      r := q[0];
      q := q[1..];
    }
  }

  class Broker {
    const clientId: nat
    const link: Link
    const sends: RpcQueue
    const receives: RpcQueue
    var posted: seq<Rpc>
    ghost var made: seq<Rpc>         // every call, by its id
    var nextId: nat
    ghost var seqOf: map<nat, int>
    ghost var issued: seq<Call>
    ghost var consumed: nat
    ghost var failedAll: bool

    ghost predicate Ours(rs: seq<Rpc>)
      reads this`made
    {
      forall i :: 0 <= i < |rs| ==> rs[i].id < |made| && made[rs[i].id] == rs[i]
    }

    /** The objects are the broker's own, and a call is known by its id. */
    ghost predicate Shaped()
      reads this, sends, receives
    {
      && sends != receives && sends.link == link && receives.link == link
      && nextId == |made| && (forall i :: 0 <= i < |made| ==> made[i].id == i)
      && Ours(posted) && Ours(sends.q) && Ours(receives.q)
    }

    ghost function View(): State
      reads this, link, sends, receives, made, sends.q, receives.q
    {
      State(clientId, link.conn, IdsOf(posted), nextId, CallsOf(sends.q), CallsOf(receives.q), sends.nextSeq,
            sends.coro, receives.coro, link.writing, link.reading, DoneOf(made), None,
            seqOf, issued, consumed, failedAll)
    }

    ghost predicate Valid()
      reads this, link, sends, receives, made, sends.q, receives.q
    {
      Shaped() && Inv(View())
    }

    constructor (clientId: nat)
      requires clientId <= Wire.MAX_STRING
      ensures Valid() && View() == Init(clientId)
      ensures fresh(link) && fresh(sends) && fresh(receives) && made == []
    {
      this.clientId := clientId;
      var l := new Link();
      link := l;
      sends := new RpcQueue(l);
      receives := new RpcQueue(l);
      posted, made, nextId := [], [], 0;
      seqOf, issued, consumed, failedAll := map[], [], 0, false;
      new;
      InitInv(clientId);
      assert View() == Init(clientId);
    }

    // ---------- promises ----------

    method SettleCall(r: Rpc, o: Outcome)
      requires Shaped() && Ours([r]) && r.promise.None?
      modifies r`promise
      ensures Shaped() && View() == Settle(old(View()), r.id, o)
    {
      assert made[[r][0].id] == r;
      r.Settle(o);
      assert DoneOf(made) == old(DoneOf(made))[r.id := o];
    }

    /** fail_all, as it changes the promises. */
    method FailQueue(queue: RpcQueue, why: Reason)
      requires Shaped() && (queue == sends || queue == receives)
      requires forall i :: 0 <= i < |queue.q| ==> queue.q[i].promise.None?
      requires forall i, j :: 0 <= i < j < |queue.q| ==> queue.q[i] != queue.q[j]
      modifies this`failedAll, queue`q, link`conn, made`promise
      ensures Shaped() && queue.q == [] && link.conn == Closed && failedAll
      ensures Fails(old(DoneOf(made)), IdsOf(old(queue.q)), why, DoneOf(made))
    {
      hide Fails, IdsOf, DoneOf;
      ghost var q, was := queue.q, DoneOf(made);
      queue.FailAll(why);
      failedAll := true;
      FailedDone(made, q, why, was);
    }

    method FailSends(why: Reason)
      requires Shaped() && FailAllSend(View(), why).mishap.None?
      modifies this`failedAll, sends`q, link`conn, made`promise
      ensures Shaped() && View() == FailAllSend(old(View()), why)
    {
      hide FailCalls, Fails, Ids, IdsOf, CallsOf, DoneOf;
      ghost var s, calls := View(), CallsOf(sends.q);
      ghost var t := s.(sendQ := [], conn := Closed, failedAll := true);
      FailCallsFresh(t, calls, why);
      FailCallsDone(t, calls, why);
      assert Ids(calls) == IdsOf(sends.q);
      FailQueue(sends, why);
      FailsOne(t.done, Ids(calls), why, DoneOf(made), FailCalls(t, calls, why).done);
      assert View() == t.(done := DoneOf(made));
    }

    method FailReceives(why: Reason)
      requires Shaped() && FailAllRecv(View(), why).mishap.None?
      modifies this`failedAll, receives`q, link`conn, made`promise
      ensures Shaped() && View() == FailAllRecv(old(View()), why)
    {
      hide FailCalls, Fails, Ids, IdsOf, CallsOf, DoneOf;
      ghost var s, calls := View(), CallsOf(receives.q);
      ghost var t := s.(recvQ := [], conn := Closed, failedAll := true);
      FailCallsFresh(t, calls, why);
      FailCallsDone(t, calls, why);
      assert Ids(calls) == IdsOf(receives.q);
      FailQueue(receives, why);
      FailsOne(t.done, Ids(calls), why, DoneOf(made), FailCalls(t, calls, why).done);
      assert View() == t.(done := DoneOf(made));
    }

    // ---------- one field at a time ----------

    /** What the handlers look at, as the transition system sees it. */
    lemma Looks()
      requires Shaped()
      ensures var s := View();
        && s.clientId == clientId && s.conn == link.conn && s.writing == link.writing && s.reading == link.reading
        && s.sendCoro == sends.coro && s.recvCoro == receives.coro && s.mishap.None?
        && |s.posted| == |posted| && |s.sendQ| == |sends.q| && |s.recvQ| == |receives.q|
    {
      hide DoneOf, CallsOf, IdsOf;
    }

    lemma Heads()
      requires Shaped()
      ensures sends.q != [] ==>
        Ours([sends.q[0]]) && View().sendQ != [] && View().sendQ[0] == Call(sends.q[0].id, sends.q[0].seqNo)
      ensures receives.q != [] ==> View().recvQ != [] && View().recvQ[0] == Call(receives.q[0].id, receives.q[0].seqNo)
    {
      hide DoneOf, CallsOf, IdsOf;
    }

    lemma Promised(r: Rpc)
      requires Shaped() && Ours([r])
      ensures r in made && (r.promise.Some? <==> r.id in View().done)
    {
      hide DoneOf, CallsOf, IdsOf;
      assert made[[r][0].id] == r;
    }

    method BeginRead(what: Read, at: Point)
      requires Shaped() && link.reading == NoRead && what != NoRead
      modifies link`reading, receives`coro
      ensures Shaped() && View() == old(View()).(reading := what, recvCoro := Suspended(at))
    {
      hide DoneOf, CallsOf, IdsOf;
      link.AsyncRead(what);
      receives.coro := Suspended(at);
    }

    method BeginWrite()
      requires Shaped() && !link.writing
      modifies link`writing, sends`coro
      ensures Shaped() && View() == old(View()).(writing := true, sendCoro := Suspended(WritePoint))
    {
      hide DoneOf, CallsOf, IdsOf;
      link.AsyncWrite();
      sends.coro := Suspended(WritePoint);
    }

    method SetRecvCoro(c: Coro)
      requires Shaped()
      modifies receives`coro
      ensures Shaped() && View() == old(View()).(recvCoro := c)
    {
      hide DoneOf, CallsOf, IdsOf;
      receives.coro := c;
    }

    method SetSendCoro(c: Coro)
      requires Shaped()
      modifies sends`coro
      ensures Shaped() && View() == old(View()).(sendCoro := c)
    {
      hide DoneOf, CallsOf, IdsOf;
      sends.coro := c;
    }

    method TakeReceive() returns (r: Rpc)
      requires Shaped() && receives.q != []
      modifies receives`q, this`consumed
      ensures Shaped() && Ours([r]) && r.id == old(View()).recvQ[0].id
      ensures View() == old(View()).(recvQ := old(View()).recvQ[1..], consumed := old(consumed) + 1)
    {
      hide DoneOf, CallsOf, IdsOf;
      r := receives.Pop();
      consumed := consumed + 1;
      assert CallsOf(receives.q) == old(View()).recvQ[1..];
    }

    method TakeSend() returns (r: Rpc)
      requires Shaped() && sends.q != []
      modifies sends`q
      ensures Shaped() && Ours([r]) && Call(r.id, r.seqNo) == old(View()).sendQ[0]
      ensures View() == old(View()).(sendQ := old(View()).sendQ[1..])
    {
      hide DoneOf, CallsOf, IdsOf;
      r := sends.Pop();
      assert CallsOf(sends.q) == old(View()).sendQ[1..];
    }

    method AppendReceive(r: Rpc)
      requires Shaped() && Ours([r])
      modifies receives`q
      ensures Shaped() && View() == old(View()).(recvQ := old(View()).recvQ + [Call(r.id, r.seqNo)])
    {
      hide DoneOf, CallsOf, IdsOf;
      assert made[[r][0].id] == r;
      receives.q := receives.q + [r];
      assert CallsOf(receives.q) == old(View()).recvQ + [Call(r.id, r.seqNo)];
    }

    // ---------- the receive queue ----------

    method ReadLength()
      requires Shaped() && StartHeader(View()).mishap.None?
      modifies link`reading, receives`coro
      ensures Shaped() && View() == StartHeader(old(View()))
    {
      Looks();
      hide View, Shaped, Ours;
      BeginRead(ReadHeader, HeaderPoint);
    }

    /** pop()->resolve(). */
    method PopResolve(reply: Reply)
      requires Shaped() && receives.q != [] && Popped(View(), reply).mishap.None?
      modifies this`consumed, receives`q, made`promise
      ensures Shaped() && View() == Popped(old(View()), reply)
    {
      Looks();
      hide View, Shaped, Ours;
      var r := TakeReceive();
      Promised(r);
      SettleCall(r, Resolved(reply));
    }

    /** From pop()->resolve() to the next yield or the end of the coroutine. */
    method ResolveNext(reply: Reply)
      requires Shaped() && receives.q != [] && ResolveHead(View(), reply).mishap.None?
      modifies this`consumed, receives`q, receives`coro, link`reading, made`promise
      ensures Shaped() && View() == ResolveHead(old(View()), reply)
    {
      Looks();
      hide View, Shaped, Ours, StartHeader, Settle;
      PopResolve(reply);
      Looks();
      if receives.q == [] {
        SetRecvCoro(Complete);
      } else {
        ReadLength();
      }
    }

    /** RPCRecvQueue's operator(): an error fails everything, otherwise the coroutine goes on from where it is. */
    method RecvOperator(a: Arrival)
      requires Shaped() && receives.q != [] && RecvEntry(View(), a).mishap.None?
      modifies this`consumed, this`failedAll, receives`q, receives`coro, link`conn, link`reading, made`promise
      ensures Shaped() && View() == RecvEntry(old(View()), a)
    {
      Looks();
      Heads();
      hide View, Shaped, Ours, FailAllRecv, ResolveHead, StartHeader;
      if a == Broken {
        FailReceives(Network);
        return;
      }
      match receives.coro
      case Fresh => ReadLength();
      case Suspended(BodyPoint) =>
        if a.Payload? {
          if a.size < 4 || a.correlation != receives.q[0].seqNo {
            SetRecvCoro(Complete);
            FailReceives(Decoding);
          } else {
            ResolveNext(Answer(a.correlation, a.tag));
          }
        }
      case Suspended(_) =>
        if a.Length? {
          if a.len > 0 {
            BeginRead(ReadBody(a.len), BodyPoint);
          } else {
            ResolveNext(Empty);
          }
        }
      case Complete =>
    }

    /** stranded_push on the receive queue. */
    method PushReceive(r: Rpc)
      requires Shaped() && Ours([r]) && PushRecv(View(), Call(r.id, r.seqNo)).mishap.None?
      modifies this`consumed, this`failedAll, receives`q, receives`coro, link`conn, link`reading, made`promise
      ensures Shaped() && View() == PushRecv(old(View()), Call(r.id, r.seqNo))
    {
      hide View, Shaped, Ours, StartHeader, RecvEntry;
      AppendReceive(r);
      Looks();
      if |receives.q| == 1 {
        SetRecvCoro(if receives.coro == Complete then Fresh else receives.coro);
        RecvOperator(Nothing);
      }
    }

    // ---------- the send queue ----------

    /** encode_request for the head of the queue; a header that cannot be encoded fails the call. */
    method EncodeHead()
      requires Shaped() && sends.q != [] && StartWrite(View()).mishap.None?
      modifies this`issued, made`promise
      ensures Shaped() && View() == EncodedHead(old(View()))
    {
      Looks();
      Heads();
      var r := sends.q[0];
      Promised(r);
      if clientId > Wire.MAX_STRING {
        hide View, Shaped, Ours;
        SettleCall(r, Failed(Encoding));
      } else {
        hide DoneOf, CallsOf, IdsOf;
        issued := issued + [Call(r.id, r.seqNo)];
      }
    }

    method WriteHead()
      requires Shaped() && sends.q != [] && StartWrite(View()).mishap.None?
      modifies this`issued, sends`coro, link`writing, made`promise
      ensures Shaped() && View() == StartWrite(old(View()))
    {
      Looks();
      hide View, Shaped, Ours;
      EncodeHead();
      Looks();
      BeginWrite();
    }

    /** pop and on_success: the call that was written waits for its answer now. */
    method HandOver()
      requires Shaped() && sends.q != [] && HandedOver(View()).mishap.None?
      modifies this`consumed, this`failedAll, sends`q, receives`q, receives`coro, link`conn, link`reading, made`promise
      ensures Shaped() && View() == HandedOver(old(View()))
    {
      Looks();
      hide View, Shaped, Ours, PushRecv;
      var r := TakeSend();
      PushReceive(r);
    }

    /** After a write: hand over, and the next write if there is one. */
    method NextSend()
      requires Shaped() && sends.q != [] && NextWrite(View()).mishap.None?
      modifies this`issued, this`consumed, this`failedAll, sends`q, sends`coro, receives`q, receives`coro, link,
               made`promise
      ensures Shaped() && View() == NextWrite(old(View()))
    {
      Looks();
      hide View, Shaped, Ours, PushRecv, StartWrite;
      HandOver();
      Looks();
      if sends.q == [] {
        SetSendCoro(Complete);
      } else {
        WriteHead();
      }
    }

    /**
     RPCSendQueue's operator(): no connection or an error fails everything, otherwise the
     coroutine goes on from where it is.
     */
    method SendOperator(ok: bool)
      requires Shaped() && sends.q != [] && SendEntry(View(), ok).mishap.None?
      modifies this`issued, this`consumed, this`failedAll, sends`q, sends`coro, receives`q, receives`coro, link,
               made`promise
      ensures Shaped() && View() == SendEntry(old(View()), ok)
    {
      Looks();
      hide View, Shaped, Ours, FailAllSend, StartWrite, NextWrite;
      if !ok || link.conn != Up {
        FailSends(Network);
        return;
      }
      match sends.coro
      case Fresh => WriteHead();
      case Suspended(_) => NextSend();
      case Complete =>
    }

    /** The strand takes up a call that was waiting for it. */
    method Unpost(i: nat) returns (r: Rpc)
      requires Shaped() && i < |posted|
      modifies this`posted
      ensures Shaped() && Ours([r]) && r == old(posted)[i] && r.id == old(View()).posted[i]
      ensures View() == old(View()).(posted := old(View()).posted[..i] + old(View()).posted[i + 1..])
    {
      hide DoneOf, CallsOf, IdsOf;
      ghost var s := View();
      r := posted[i];
      posted := posted[..i] + posted[i + 1..];
      assert IdsOf(posted) == s.posted[..i] + s.posted[i + 1..];
    }

    /** set_seq on a call that is in neither queue. */
    method Number(r: Rpc)
      requires Shaped() && Ours([r]) && r !in sends.q && r !in receives.q
      modifies this`seqOf, sends`nextSeq, r`seqNo
      ensures Shaped() && r.seqNo == old(sends.nextSeq) == old(View()).nextSeq
      ensures View() ==
        old(View()).(nextSeq := old(View()).nextSeq + 1, seqOf := old(View()).seqOf[r.id := old(View()).nextSeq])
    {
      hide DoneOf, CallsOf, IdsOf;
      ghost var s := View();
      r.seqNo := sends.nextSeq;
      sends.nextSeq := sends.nextSeq + 1;
      seqOf := seqOf[r.id := r.seqNo];
      assert CallsOf(sends.q) == s.sendQ;
      assert CallsOf(receives.q) == s.recvQ;
    }

    method AppendSend(r: Rpc)
      requires Shaped() && Ours([r])
      modifies sends`q
      ensures Shaped() && View() == old(View()).(sendQ := old(View()).sendQ + [Call(r.id, r.seqNo)])
    {
      hide DoneOf, CallsOf, IdsOf;
      assert made[[r][0].id] == r;
      sends.q := sends.q + [r];
      assert CallsOf(sends.q) == old(View()).sendQ + [Call(r.id, r.seqNo)];
    }

    /** A call waiting for the strand is in neither queue. */
    lemma Apart(i: nat)
      requires Shaped() && Conserved(View()) && i < |posted|
      ensures posted[i] !in sends.q && posted[i] !in receives.q && posted[i] in made
    {
      PostedApart(View(), i);
      hide DoneOf, CallsOf, IdsOf, Ids, Conserved;
      var s := View();
      assert forall j :: 0 <= j < |sends.q| ==> Ids(s.sendQ)[j] == sends.q[j].id;
      assert forall j :: 0 <= j < |receives.q| ==> Ids(s.recvQ)[j] == receives.q[j].id;
      assert made[posted[i].id] == posted[i];
    }

    /** Takes a call up and numbers it. */
    method TakeUp(i: nat) returns (r: Rpc)
      requires Shaped() && Conserved(View()) && i < |posted|
      modifies this`posted, this`seqOf, sends`nextSeq, made`seqNo
      ensures Shaped() && Ours([r]) && Call(r.id, r.seqNo) == Call(old(View()).posted[i], old(View()).nextSeq)
      ensures var s := old(View());
        View() ==
          s.(posted := s.posted[..i] + s.posted[i + 1..], nextSeq := s.nextSeq + 1,
             seqOf := s.seqOf[s.posted[i] := s.nextSeq])
    {
      Looks();
      Apart(i);
      hide View, Shaped, Ours, Conserved;
      r := Unpost(i);
      StillOurs(r);
      Number(r);
    }

    lemma StillOurs(r: Rpc)
      ensures Ours([r]) <==> r.id < |made| && made[r.id] == r
    {
      assert [r][0] == r;
    }

    /** Takes a call up, numbers it and puts it at the end of the send queue. */
    method Enqueue(i: nat)
      requires Shaped() && Conserved(View()) && i < |posted|
      modifies this`posted, this`seqOf, sends`nextSeq, sends`q, made`seqNo
      ensures Shaped() && View() == Enqueued(old(View()), i)
    {
      Looks();
      hide View, Shaped, Ours, Conserved;
      var r := TakeUp(i);
      AppendSend(r);
    }

    /** stranded_push on the send queue. */
    method Push(i: nat)
      requires Shaped() && Conserved(View()) && i < |posted|
      requires Pushed(View(), i).mishap.None?
      modifies this`posted, this`seqOf, this`issued, this`consumed, this`failedAll, sends, receives`q, receives`coro,
               link, made
      ensures Shaped() && View() == Pushed(old(View()), i)
    {
      Looks();
      hide View, Shaped, Ours, SendEntry, Conserved, Enqueued;
      Enqueue(i);
      Looks();
      if |sends.q| == 1 {
        SetSendCoro(if sends.coro == Complete then Fresh else sends.coro);
        SendOperator(true);
      }
    }

    // ---------- events ----------

    /** Broker::call: a new call with an unset promise, waiting for the strand. */
    method NewRpc() returns (r: Rpc)
      requires Shaped()
      modifies this`posted, this`nextId, this`made
      ensures fresh(r) && made == old(made) + [r] && Shaped() && View() == Step(old(View()), NewCall)
    {
      hide DoneOf, CallsOf, IdsOf;
      ghost var s, was := View(), made;
      r := new Rpc(nextId);
      posted := posted + [r];
      made := made + [r];
      nextId := nextId + 1;
      assert IdsOf(posted) == s.posted + [s.nextId];
      NotDone(was, r);
      assert CallsOf(sends.q) == s.sendQ && CallsOf(receives.q) == s.recvQ;
    }

    method SetLink(conn: Conn, writing: bool, reading: Read)
      requires Shaped()
      modifies link
      ensures Shaped() && View() == old(View()).(conn := conn, writing := writing, reading := reading)
      ensures link.conn == conn && link.writing == writing && link.reading == reading
    {
      hide DoneOf, CallsOf, IdsOf;
      link.conn, link.writing, link.reading := conn, writing, reading;
    }

    method OnWrite(ok: bool)
      requires Valid() && Enabled(View(), Write(ok))
      modifies this`issued, this`consumed, this`failedAll, sends`q, sends`coro, receives`q, receives`coro, link,
               made`promise
      ensures Valid() && View() == Step(old(View()), Write(ok))
    {
      Looks();
      StepInv(View(), Write(ok));
      WriteEntry(View(), ok);
      hide View, Shaped, Ours, Inv, SendEntry, Step;
      SetLink(link.conn, false, link.reading);
      Looks();
      SendOperator(ok);
    }

    method OnRead(e: Event)
      requires Valid() && Enabled(View(), e) && (e.ReadError? || e.Header? || e.Body?)
      modifies this`consumed, this`failedAll, receives`q, receives`coro, link, made`promise
      ensures Valid() && View() == Step(old(View()), e)
    {
      Looks();
      StepInv(View(), e);
      var a := Arrives(e, link.reading);
      ReadEntry(View(), e);
      hide View, Shaped, Ours, Inv, RecvEntry, Step;
      SetLink(link.conn, link.writing, NoRead);
      Looks();
      RecvOperator(a);
    }

    method OnDispatch(i: nat)
      requires Valid() && Enabled(View(), Dispatch(i))
      modifies this`posted, this`seqOf, this`issued, this`consumed, this`failedAll, sends, receives`q, receives`coro,
               link, made
      ensures Valid() && View() == Step(old(View()), Dispatch(i))
    {
      Looks();
      StepInv(View(), Dispatch(i));
      PushEntry(View(), i);
      hide View, Shaped, Inv, Step, Pushed, Conserved;
      Push(i);
    }

    method OnConnection(e: Event)
      requires Valid() && Enabled(View(), e) && (e.Connect? || e.Close?)
      modifies link
      ensures Valid() && View() == Step(old(View()), e)
    {
      Looks();
      StepInv(View(), e);
      hide View, Shaped, Inv;
      SetLink(if e.Connect? then Up else Closed, link.writing, link.reading);
    }

    /**
     Any event that can happen, handled to its end: what the transition system prescribes, and
     the object stays valid.
     */
    method Handle(e: Event)
      requires Valid() && Enabled(View(), e)
      modifies this, link, sends, receives, made
      ensures Valid() && View() == Step(old(View()), e)
      ensures forall j :: 0 <= j < |made| ==> made[j] in old(made) || fresh(made[j])
    {
      hide View, Valid, Step, Enabled;
      match e
      case Connect => OnConnection(e);
      case Close => OnConnection(e);
      case NewCall => var _ := OnCall();
      case Dispatch(i) => OnDispatch(i);
      case Write(ok) => OnWrite(ok);
      case _ => OnRead(e);
    }

    /** Event after event. */
    method Serve(es: seq<Event>)
      requires Valid() && Run(View(), es)
      modifies this, link, sends, receives, made
      ensures Valid() && View() == After(old(View()), es)
    {
      hide View, Valid, Step, Enabled;
      ghost var end := After(View(), es);
      var i := 0;
      while i < |es|
        invariant 0 <= i <= |es| && Valid() && forall j :: 0 <= j < |made| ==> made[j] in old(made) || fresh(made[j])
        invariant Run(View(), es[i..]) && After(View(), es[i..]) == end
      {
        assert es[i..][0] == es[i] && es[i..][1..] == es[i + 1..];
        Handle(es[i]);
        i := i + 1;
      }
    }

    method OnCall() returns (r: Rpc)
      requires Valid()
      modifies this`posted, this`nextId, this`made
      ensures fresh(r) && made == old(made) + [r] && Valid() && View() == Step(old(View()), NewCall)
    {
      Looks();
      StepInv(View(), NewCall);
      hide View, Shaped, Inv, Step;
      r := NewRpc();
    }

    /** Every call is owned by exactly one holder, once: the strand, a queue, or its set promise. */
    lemma OwnedOnce(k: nat)
      requires Valid() && k < |made|
      ensures var r := made[k];
        multiset(posted)[r] + multiset(sends.q)[r] + multiset(receives.q)[r] + (if r.promise.Some? then 1 else 0) == 1
    {
      hide DoneOf, CallsOf, IdsOf, Ids, Conserved, Labelled, Ordered, Prefixed, Synced;
      var s := View();
      PlacesOf(s, k);
      CountIds(made, posted, k);
      CountIds(made, sends.q, k);
      CountIds(made, receives.q, k);
      assert IdsOf(sends.q) == Ids(s.sendQ) && IdsOf(receives.q) == Ids(s.recvQ);
    }
  }

  lemma PlacesOf(s: State, k: nat)
    requires Conserved(s) && k < s.nextId
    ensures multiset(s.posted)[k] + multiset(Ids(s.sendQ))[k] + multiset(Ids(s.recvQ))[k]
      + (if k in s.done then 1 else 0) == 1
  {
    hide Ids;
    assert Places(s)[k] == 1;
    assert k in s.done <==> k in s.done.Keys;
  }

  /** A call with an unset promise adds nothing to those that are set. */
  lemma NotDone(made: seq<Rpc>, r: Rpc)
    requires r.promise.None?
    ensures DoneOf(made + [r]) == DoneOf(made)
  {
    hide DoneOf;
  }

  /** The events are the handlers, each called with its operation completed. */
  lemma PushEntry(s: State, i: nat)
    requires Inv(s) && i < |s.posted|
    ensures Conserved(s) && Pushed(s, i) == Step(s, Dispatch(i))
  {
    hide Ordered, Labelled, Prefixed, Conserved, Synced, Pushed;
  }

  lemma WriteEntry(s: State, ok: bool)
    requires Inv(s) && s.writing
    ensures s.sendQ != [] && SendEntry(s.(writing := false), ok) == Step(s, Write(ok))
  {
    hide Books, Synced, SendEntry;
  }

  /** What the handler of a completed read is called with. */
  function Arrives(e: Event, reading: Read): Arrival
    requires e.ReadError? || e.Header? || (e.Body? && reading.ReadBody?)
  {
    if e.ReadError? then Broken
    else if e.Header? then Length(e.len)
    else Payload(reading.len, e.correlation, e.tag)
  }

  lemma ReadEntry(s: State, e: Event)
    requires Inv(s) && Enabled(s, e) && (e.ReadError? || e.Header? || e.Body?)
    ensures s.recvQ != []
    ensures RecvEntry(s.(reading := NoRead), Arrives(e, s.reading)) == Step(s, e)
  {
    hide Books, Synced, RecvEntry;
  }

  /** Counting calls is counting their ids. */
  lemma {:induction false} CountIds(made: seq<Rpc>, q: seq<Rpc>, k: nat)
    requires k < |made| && (forall i :: 0 <= i < |made| ==> made[i].id == i)
    requires forall i :: 0 <= i < |q| ==> q[i].id < |made| && made[q[i].id] == q[i]
    ensures multiset(IdsOf(q))[k] == multiset(q)[made[k]]
    decreases |q|
  {
    hide IdsOf;
    if q == [] {
      assert IdsOf(q) == [];
    } else {
      var r, rest := q[0], q[1..];
      CountIds(made, rest, k);
      CountCons(r, rest, made[k]);
      CountCons(r.id, IdsOf(rest), k);
      assert q == [r] + rest && IdsOf(q) == [r.id] + IdsOf(rest);
      assert r == made[k] <==> r.id == k;
    }
  }

  lemma CountCons<T>(x: T, s: seq<T>, y: T)
    ensures multiset([x] + s)[y] == multiset(s)[y] + if x == y then 1 else 0
  {
    assert multiset([x] + s) == multiset{x} + multiset(s);
  }

  /** A call waiting for the strand is in neither queue. */
  lemma PostedApart(s: State, i: nat)
    requires Conserved(s) && i < |s.posted|
    ensures s.posted[i] !in Ids(s.sendQ) && s.posted[i] !in Ids(s.recvQ)
  {
    var id := s.posted[i];
    assert multiset(s.posted)[id] >= 1;
    assert Places(s)[id] <= 1;
  }

  /** The promises after a fail_all: those of its calls failed, all others as they were. */
  ghost predicate Fails(was: map<nat, Outcome>, ids: seq<nat>, why: Reason, now: map<nat, Outcome>) {
    && (forall id: nat :: id in now <==> id in was || id in ids)
    && (forall id: nat :: id in now ==> now[id] == if id in ids then Failed(why) else was[id])
  }

  lemma FailsOne(was: map<nat, Outcome>, ids: seq<nat>, why: Reason, a: map<nat, Outcome>, b: map<nat, Outcome>)
    requires Fails(was, ids, why, a) && Fails(was, ids, why, b)
    ensures a == b
  {}

  lemma FailedDone(made: seq<Rpc>, q: seq<Rpc>, why: Reason, was: map<nat, Outcome>)
    requires forall i :: 0 <= i < |made| ==> made[i].id == i
    requires forall i :: 0 <= i < |q| ==> q[i].id < |made| && made[q[i].id] == q[i] && q[i].promise == Some(Failed(why))
    requires forall k: nat :: k in was ==> k < |made|
    requires forall k: nat :: k < |made| && made[k] !in q ==>
      (k in was <==> made[k].promise.Some?) && (k in was ==> was[k] == made[k].promise.value)
    ensures Fails(was, IdsOf(q), why, DoneOf(made))
  {
    forall k: nat | k < |made| ensures made[k] in q <==> k in IdsOf(q) {
      if made[k] in q {
        var i :| 0 <= i < |q| && q[i] == made[k];
        assert IdsOf(q)[i] == k;
      }
      if k in IdsOf(q) {
        var i :| 0 <= i < |q| && IdsOf(q)[i] == k;
        assert q[i] == made[k];
      }
    }
  }

  /** A fail_all that sets no promise twice, one call at a time. */
  lemma FailCallsStep(s: State, q: seq<Call>, why: Reason)
    requires q != [] && s.mishap.None? && FailCalls(s, q, why).mishap.None?
    ensures q[0].id !in s.done
    ensures FailCalls(s, q, why) == FailCalls(s.(done := s.done[q[0].id := Failed(why)]), q[1..], why)
  {}

  /** Its calls are all different and unsettled, */
  lemma {:induction false} FailCallsFresh(s: State, q: seq<Call>, why: Reason)
    requires s.mishap.None? && FailCalls(s, q, why).mishap.None?
    ensures forall i :: 0 <= i < |q| ==> q[i].id !in s.done
    ensures forall i, j :: 0 <= i < j < |q| ==> q[i].id != q[j].id
    decreases |q|
  {
    if q != [] {
      FailCallsStep(s, q, why);
      hide FailCalls;
      FailCallsFresh(s.(done := s.done[q[0].id := Failed(why)]), q[1..], why);
      assert forall i :: 0 < i < |q| ==> q[i] == q[1..][i - 1];
    }
  }

  /** and each of them ends failed, with everything else as it was. */
  lemma {:induction false} FailCallsDone(s: State, q: seq<Call>, why: Reason)
    requires s.mishap.None? && FailCalls(s, q, why).mishap.None?
    ensures Fails(s.done, Ids(q), why, FailCalls(s, q, why).done)
    ensures FailCalls(s, q, why) == s.(done := FailCalls(s, q, why).done)
    decreases |q|
  {
    if q == [] {
      assert Ids(q) == [];
    } else {
      FailCallsStep(s, q, why);
      hide FailCalls, Fails;
      var x := q[0].id;
      var u := s.(done := s.done[x := Failed(why)]);
      FailCallsDone(u, q[1..], why);
      FailsCons(s.done, x, Ids(q[1..]), why, FailCalls(u, q[1..], why).done);
      assert Ids(q) == [x] + Ids(q[1..]);
    }
  }

  lemma FailsCons(was: map<nat, Outcome>, x: nat, ids: seq<nat>, why: Reason, now: map<nat, Outcome>)
    requires x !in was && Fails(was[x := Failed(why)], ids, why, now)
    ensures Fails(was, [x] + ids, why, now)
  {}

  /** A broker driven through any run ends valid, in the state the transition system gives. */
  method Drive(clientId: nat, es: seq<Event>) returns (b: Broker)
    requires clientId <= Wire.MAX_STRING && Run(Init(clientId), es)
    ensures fresh(b) && b.Valid() && b.View() == After(Init(clientId), es)
  {
    hide Run, After, Init;
    b := new Broker(clientId);
    b.Serve(es);
  }
}
