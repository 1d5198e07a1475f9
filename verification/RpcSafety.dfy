/** What holds in every reachable state of the RPC pipeline. */
module RpcSafety {
  import Wire
  import opened RpcModel

  function Ids(q: seq<Call>): (r: seq<nat>)
    ensures |r| == |q| && forall i :: 0 <= i < |q| ==> r[i] == q[i].id
  {
    seq(|q|, i requires 0 <= i < |q| => q[i].id)
  }

  /** Every place a call can be, counted. */
  function Places(s: State): multiset<nat> {
    multiset(s.posted) + multiset(Ids(s.sendQ)) + multiset(Ids(s.recvQ)) + multiset(s.done.Keys)
  }

  /** Each call ever made is in exactly one place. */
  ghost predicate Conserved(s: State) {
    forall id: nat :: Places(s)[id] == if id < s.nextId then 1 else 0
  }

  /** The send queue is non-empty exactly when its one write is in flight. */
  predicate SendSound(s: State) {
    && (s.writing <==> s.sendQ != [])
    && (s.writing ==> s.sendCoro == Suspended(WritePoint))
    && (s.sendCoro.Suspended? ==> s.sendCoro.at == WritePoint && (s.writing || s.conn == Closed))
  }

  /** The receive queue is non-empty exactly when its one read is in flight. */
  predicate RecvSound(s: State) {
    && (s.reading != NoRead <==> s.recvQ != [])
    && (s.reading == ReadHeader ==> s.recvCoro == Suspended(HeaderPoint))
    && (s.reading.ReadBody? ==> s.recvCoro == Suspended(BodyPoint))
    && (s.recvCoro.Suspended? ==> s.reading != NoRead || s.conn == Closed)
  }

  /** The requests awaiting an answer or a write, oldest first. */
  function Pipeline(s: State): seq<Call> {
    s.recvQ + s.sendQ
  }

  /** Correlation ids increase along the pipeline, one by one until a fail_all. */
  predicate Ordered(s: State) {
    var p := Pipeline(s);
    && (forall i :: 0 <= i < |p| ==> p[i].correlation < s.nextSeq)
    && (forall i, j :: 0 <= i < j < |p| ==> p[i].correlation < p[j].correlation)
    && (!s.failedAll ==> forall i :: 0 <= i < |p| ==> p[i].correlation == s.nextSeq - |p| + i)
  }

  /** The history of correlation ids agrees with the queues. */
  ghost predicate Labelled(s: State) {
    && (forall c :: c in s.sendQ || c in s.recvQ ==> c.id in s.seqOf && s.seqOf[c.id] == c.correlation)
    && (forall id :: id in s.seqOf ==> s.seqOf[id] < s.nextSeq)
    && (forall a, b :: a in s.seqOf && b in s.seqOf && a != b ==> s.seqOf[a] != s.seqOf[b])
    && (forall i :: 0 <= i < |s.posted| ==> s.posted[i] !in s.seqOf && s.posted[i] < s.nextId)
    && (forall id :: id in s.seqOf ==> id < s.nextId)
  }

  /** The receive queue is the front of the unanswered requests on the wire. */
  predicate Prefixed(s: State) {
    s.consumed <= |s.issued| && s.recvQ <= s.issued[s.consumed..]
  }

  /** Until a fail_all, the unanswered requests are the receive queue and the write in flight. */
  predicate Synced(s: State) {
    !s.failedAll ==>
      s.consumed <= |s.issued| && s.issued[s.consumed..] == s.recvQ + s.sendQ[..if s.sendQ == [] then 0 else 1]
  }

  // ---------- setting promises ----------

  function Pending(settled: set<nat>, q: seq<Call>): multiset<nat> {
    multiset(Ids(q)) + multiset(settled)
  }

  lemma IdsCons(q: seq<Call>)
    requires q != []
    ensures multiset(Ids(q)) == multiset{q[0].id} + multiset(Ids(q[1..]))
  {
    assert Ids(q) == [q[0].id] + Ids(q[1..]);
  }

  lemma IdsSnoc(q: seq<Call>, c: Call)
    ensures multiset(Ids(q + [c])) == multiset(Ids(q)) + multiset{c.id}
  {
    assert Ids(q + [c]) == Ids(q) + [c.id];
  }

  lemma SettleOnce(s: State, id: nat, o: Outcome)
    requires id !in s.done && s.mishap.None?
    ensures Settle(s, id, o) == s.(done := s.done[id := o])
    ensures multiset(Settle(s, id, o).done.Keys) == multiset(s.done.Keys) + multiset{id}
  {}

  /** fail_all sets each promise of its queue once and changes nothing else. */
  lemma {:induction false} FailCallsOnce(s: State, q: seq<Call>, why: Reason)
    requires s.mishap.None? && forall id: nat :: Pending(s.done.Keys, q)[id] <= 1
    ensures var t := FailCalls(s, q, why);
      && t == s.(done := t.done)
      && multiset(t.done.Keys) == Pending(s.done.Keys, q)
      && (forall id :: id in t.done ==> t.done[id] == Failed(why) || (id in s.done && t.done[id] == s.done[id]))
      && (forall id :: id in s.done ==> id in t.done && t.done[id] == s.done[id])
    decreases |q|
  {
    if q == [] {
      assert Ids(q) == [];
    } else {
      var x := q[0].id;
      IdsCons(q);
      assert multiset(Ids(q))[x] >= 1;
      assert Pending(s.done.Keys, q)[x] == multiset(Ids(q))[x] + multiset(s.done.Keys)[x];
      assert multiset(s.done.Keys)[x] == 0 && x !in s.done.Keys;
      SettleOnce(s, x, Failed(why));
      var t := Settle(s, x, Failed(why));
      assert Pending(t.done.Keys, q[1..]) == Pending(s.done.Keys, q);
      FailCallsOnce(t, q[1..], why);
    }
  }

  lemma {:induction false} FailCallsFrame(s: State, q: seq<Call>, why: Reason)
    ensures var t := FailCalls(s, q, why); t == s.(done := t.done, mishap := t.mishap)
    decreases |q|
  {
    if q != [] && s.mishap.None? {
      FailCallsFrame(Settle(s, q[0].id, Failed(why)), q[1..], why);
    }
  }

  lemma QueueOnce(s: State)
    requires Conserved(s)
    ensures forall id: nat :: Pending(s.done.Keys, s.sendQ)[id] <= 1
    ensures forall id: nat :: Pending(s.done.Keys, s.recvQ)[id] <= 1
  {
    forall id: nat ensures Pending(s.done.Keys, s.sendQ)[id] <= 1 && Pending(s.done.Keys, s.recvQ)[id] <= 1 {
      assert Places(s)[id] <= 1;
    }
  }

  // ---------- one step at a time ----------

  /** The part of the invariant that is about where calls stand and how they are numbered. */
  ghost predicate Books(s: State) {
    Ordered(s) && Labelled(s) && Prefixed(s) && Conserved(s)
  }

  ghost predicate Inv(s: State)
  {
    && s.mishap.None?
    && s.clientId <= Wire.MAX_STRING
    && SendSound(s)
    && RecvSound(s)
    && (s.failedAll ==> s.conn == Closed)
    && Books(s)
    && Synced(s)
  }

  // ---------- what each step comes to ----------

  lemma PushRecvIs(s: State, c: Call)
    requires s.mishap.None? && (s.recvQ == [] ==> s.reading == NoRead && !s.recvCoro.Suspended?)
    ensures PushRecv(s, c) == s.(recvQ := s.recvQ + [c], reading := if s.recvQ == [] then ReadHeader else s.reading,
                                 recvCoro := if s.recvQ == [] then Suspended(HeaderPoint) else s.recvCoro)
  {}

  lemma StartWriteIs(s: State)
    requires s.mishap.None? && s.sendQ != [] && !s.writing && s.clientId <= Wire.MAX_STRING
    ensures StartWrite(s) == s.(issued := s.issued + [s.sendQ[0]], writing := true, sendCoro := Suspended(WritePoint))
  {}

  /** The next request to go on the wire, if there is one. */
  function NextUp(s: State): seq<Call>
    requires s.sendQ != []
  {
    s.sendQ[1..if |s.sendQ| == 1 then 1 else 2]
  }

  /** A write went well: its call waits for an answer, with a read in flight, and the next write is too. */
  function Written(s: State): State
    requires s.sendQ != []
  {
    s.(sendQ := s.sendQ[1..], recvQ := s.recvQ + [s.sendQ[0]], issued := s.issued + NextUp(s),
       reading := if s.recvQ == [] then ReadHeader else s.reading,
       recvCoro := if s.recvQ == [] then Suspended(HeaderPoint) else s.recvCoro,
       writing := |s.sendQ| > 1, sendCoro := if |s.sendQ| == 1 then Complete else Suspended(WritePoint))
  }

  /** A completed write finds the coroutine at its one yield. */
  lemma WriteIs(s: State, ok: bool)
    requires Inv(s) && s.writing
    ensures s.sendQ != []
    ensures WriteDone(s, ok) == if ok && s.conn == Up then Written(s) else FailAllSend(s.(writing := false), Network)
  {
    hide Books, Synced, FailAllSend, PushRecv, StartWrite;
    if ok && s.conn == Up {
      var t := s.(writing := false);
      PushRecvIs(t.(sendQ := t.sendQ[1..]), t.sendQ[0]);
      if |t.sendQ| > 1 { StartWriteIs(HandedOver(t)); }
    }
  }

  /** A push enters a coroutine that is fresh, never one that is suspended. */
  lemma DispatchIs(s: State, i: nat)
    requires Inv(s) && i < |s.posted|
    ensures var u := Enqueued(s, i);
      Step(s, Dispatch(i)) ==
        if s.sendQ != [] then u
        else if s.conn != Up then FailAllSend(u.(sendCoro := Restarted(s.sendCoro)), Network)
        else u.(issued := u.issued + u.sendQ, writing := true, sendCoro := Suspended(WritePoint))
  {
    hide Books, Synced, FailAllSend, StartWrite;
    var u := Enqueued(s, i).(sendCoro := Restarted(s.sendCoro));
    if s.sendQ == [] && s.conn == Up {
      StartWriteIs(u);
      assert u.sendQ == [u.sendQ[0]];
    }
  }

  lemma ErrorIs(s: State)
    requires Inv(s) && s.reading != NoRead
    ensures s.recvQ != [] && ReadFailed(s) == FailAllRecv(s.(reading := NoRead), Network)
  {
    hide Books, Synced, FailAllRecv, ResolveHead;
  }

  /** A completed read of a length finds the coroutine at the first of its yields, */
  lemma HeaderIs(s: State, len: int)
    requires Inv(s) && s.reading == ReadHeader
    ensures s.recvQ != []
    ensures HeaderRead(s, len) ==
      if len > 0 then s.(reading := ReadBody(len), recvCoro := Suspended(BodyPoint))
      else ResolveHead(s.(reading := NoRead), Empty)
  {
    hide Books, Synced, FailAllRecv, ResolveHead;
  }

  /** A body that does not carry the correlation id of the oldest call fails the whole queue. */
  predicate Mismatch(s: State, correlation: int)
    requires s.reading.ReadBody? && s.recvQ != []
  {
    s.reading.len < 4 || correlation != s.recvQ[0].correlation
  }

  /** and one of a body at the second. */
  lemma BodyIs(s: State, correlation: int, tag: nat)
    requires Inv(s) && s.reading.ReadBody?
    ensures s.recvQ != []
    ensures BodyRead(s, correlation, tag) ==
      if Mismatch(s, correlation) then FailAllRecv(s.(reading := NoRead, recvCoro := Complete), Decoding)
      else ResolveHead(s.(reading := NoRead), Answer(correlation, tag))
  {
    hide Books, Synced, FailAllRecv, ResolveHead;
  }

  // ---------- what the steps keep ----------

  /** The books do not look at the operations in flight, the coroutines or the connection. */
  lemma SameBooks(s: State, t: State)
    requires Books(s)
    requires t ==
      s.(conn := t.conn, sendCoro := t.sendCoro, recvCoro := t.recvCoro, writing := t.writing, reading := t.reading,
         mishap := t.mishap)
    ensures Books(t)
  {
    assert Pipeline(t) == Pipeline(s);
    assert Places(t) == Places(s);
  }

  lemma SubOrdered(s: State, t: State, lo: nat, hi: nat)
    requires Ordered(s) && t.nextSeq == s.nextSeq && t.failedAll
    requires lo <= hi <= |Pipeline(s)| && Pipeline(t) == Pipeline(s)[lo..hi]
    ensures Ordered(t)
  {}

  lemma SubLabelled(s: State, t: State)
    requires Labelled(s) && t.seqOf == s.seqOf && t.nextSeq == s.nextSeq && t.nextId == s.nextId && t.posted == s.posted
    requires forall c :: c in t.sendQ || c in t.recvQ ==> c in s.sendQ || c in s.recvQ
    ensures Labelled(t)
  {}

  lemma SamePlaces(s: State, t: State)
    requires Conserved(s) && Places(t) == Places(s) && t.nextId == s.nextId
    ensures Conserved(t)
  {}

  lemma DropSendPlaces(s: State, t: State)
    requires t.posted == s.posted && t.sendQ == [] && t.recvQ == s.recvQ
    requires multiset(t.done.Keys) == Pending(s.done.Keys, s.sendQ)
    ensures Places(t) == Places(s)
  {}

  lemma DropRecvPlaces(s: State, t: State)
    requires t.posted == s.posted && t.sendQ == s.sendQ && t.recvQ == []
    requires multiset(t.done.Keys) == Pending(s.done.Keys, s.recvQ)
    ensures Places(t) == Places(s)
  {}

  lemma MovePlaces(s: State, t: State)
    requires s.sendQ != [] && t.posted == s.posted && t.done == s.done
    requires t.sendQ == s.sendQ[1..] && t.recvQ == s.recvQ + [s.sendQ[0]]
    ensures Places(t) == Places(s)
  {
    IdsCons(s.sendQ);
    IdsSnoc(s.recvQ, s.sendQ[0]);
  }

  lemma ResolvePlaces(s: State, t: State, o: Outcome)
    requires s.recvQ != [] && t.posted == s.posted && t.sendQ == s.sendQ && t.recvQ == s.recvQ[1..]
    requires s.recvQ[0].id !in s.done && t.done == s.done[s.recvQ[0].id := o]
    ensures Places(t) == Places(s)
  {
    IdsCons(s.recvQ);
    hide Ids;
    assert t.done.Keys == s.done.Keys + {s.recvQ[0].id};
  }

  lemma PostedPlaces(s: State, t: State, i: nat, c: Call)
    requires i < |s.posted| && c.id == s.posted[i] && t.posted == s.posted[..i] + s.posted[i + 1..]
    requires t.sendQ == s.sendQ + [c] && t.recvQ == s.recvQ && t.done == s.done
    ensures Places(t) == Places(s)
  {
    assert s.posted == s.posted[..i] + [c.id] + s.posted[i + 1..];
    IdsSnoc(s.sendQ, c);
  }

  lemma DropSendBooks(s: State, t: State)
    requires Books(s) && t == s.(sendQ := [], conn := Closed, failedAll := true, done := t.done)
    requires multiset(t.done.Keys) == Pending(s.done.Keys, s.sendQ)
    ensures Books(t)
  {
    hide Ordered, Labelled, Conserved, Places, Pending;
    DropSendPlaces(s, t);
    SamePlaces(s, t);
    SubLabelled(s, t);
    assert Pipeline(t) == Pipeline(s)[0..|t.recvQ|];
    SubOrdered(s, t, 0, |t.recvQ|);
  }

  lemma DropRecvBooks(s: State, t: State)
    requires Books(s) && t == s.(recvQ := [], conn := Closed, failedAll := true, done := t.done)
    requires multiset(t.done.Keys) == Pending(s.done.Keys, s.recvQ)
    ensures Books(t)
  {
    hide Ordered, Labelled, Conserved, Places, Pending;
    DropRecvPlaces(s, t);
    SamePlaces(s, t);
    SubLabelled(s, t);
    assert Pipeline(t) == Pipeline(s)[|s.recvQ|..|Pipeline(s)|];
    SubOrdered(s, t, |s.recvQ|, |Pipeline(s)|);
  }

  lemma FailAllSendInv(s: State, why: Reason)
    requires s.mishap.None? && s.clientId <= Wire.MAX_STRING && RecvSound(s) && Books(s)
    requires !s.writing && (s.sendCoro.Suspended? ==> s.sendCoro.at == WritePoint)
    ensures Inv(FailAllSend(s, why))
  {
    hide Ordered, Labelled, Prefixed, Conserved, Pending;
    QueueOnce(s);
    FailCallsOnce(s.(sendQ := [], conn := Closed, failedAll := true), s.sendQ, why);
    DropSendBooks(s, FailAllSend(s, why));
  }

  lemma FailAllRecvInv(s: State, why: Reason)
    requires s.mishap.None? && s.clientId <= Wire.MAX_STRING && SendSound(s) && Books(s)
    requires s.reading == NoRead
    ensures Inv(FailAllRecv(s, why))
  {
    hide Ordered, Labelled, Prefixed, Conserved, Pending;
    QueueOnce(s);
    FailCallsOnce(s.(recvQ := [], conn := Closed, failedAll := true), s.recvQ, why);
    DropRecvBooks(s, FailAllRecv(s, why));
  }

  /** A completed write: the head moves to the receive queue, and the next one goes on the wire. */
  lemma MoveBooks(s: State, t: State, next: seq<Call>)
    requires Books(s) && Synced(s) && !s.failedAll && s.sendQ != []
    requires next == s.sendQ[1..if |s.sendQ| == 1 then 1 else 2]
    requires t == s.(sendQ := s.sendQ[1..], recvQ := s.recvQ + [s.sendQ[0]], issued := s.issued + next,
                     sendCoro := t.sendCoro, recvCoro := t.recvCoro, writing := t.writing, reading := t.reading)
    ensures Books(t) && Synced(t)
  {
    hide Labelled, Conserved, Places;
    MovePlaces(s, t);
    SamePlaces(s, t);
    SubLabelled(s, t);
    assert Pipeline(t) == Pipeline(s);
    assert s.issued[s.consumed..] == s.recvQ + [s.sendQ[0]];
    assert t.issued[t.consumed..] == t.recvQ + next;
  }

  lemma WriteOkInv(s: State)
    requires Inv(s) && s.writing && s.conn == Up
    ensures Inv(Written(s))
  {
    hide Books, Synced;
    MoveBooks(s, Written(s), NextUp(s));
  }

  /** An answered call leaves the front of the pipeline. */
  lemma ResolveBooks(s: State, t: State, o: Outcome)
    requires Books(s) && s.recvQ != [] && s.recvQ[0].id !in s.done
    requires t == s.(recvQ := s.recvQ[1..], consumed := s.consumed + 1, done := s.done[s.recvQ[0].id := o],
                     recvCoro := t.recvCoro, reading := t.reading)
    ensures Books(t) && (Synced(s) ==> Synced(t))
  {
    hide Labelled, Conserved, Places;
    ResolvePlaces(s, t, o);
    SamePlaces(s, t);
    SubLabelled(s, t);
    assert Pipeline(t) == Pipeline(s)[1..];
    assert t.issued[t.consumed..] == s.issued[s.consumed..][1..];
  }

  lemma HeadUnsettled(s: State)
    requires Conserved(s) && s.recvQ != []
    ensures s.recvQ[0].id !in s.done
  {
    var x := s.recvQ[0].id;
    IdsCons(s.recvQ);
    assert Places(s)[x] <= 1;
  }

  lemma ResolveInv(s: State, reply: Reply)
    requires Inv(s) && s.recvQ != []
    ensures Inv(ResolveHead(s.(reading := NoRead), reply))
  {
    hide Ordered, Labelled, Prefixed, Conserved, Synced;
    HeadUnsettled(s);
    var t := ResolveHead(s.(reading := NoRead), reply);
    ResolveBooks(s, t, Resolved(reply));
  }

  lemma {:induction false} PostedBooks(s: State, i: nat, t: State)
    requires Books(s) && i < |s.posted|
    requires t == s.(posted := s.posted[..i] + s.posted[i + 1..], nextSeq := s.nextSeq + 1,
                     seqOf := s.seqOf[s.posted[i] := s.nextSeq], sendQ := s.sendQ + [Call(s.posted[i], s.nextSeq)],
                     sendCoro := t.sendCoro)
    ensures Books(t)
  {
    hide Conserved, Places;
    var c := Call(s.posted[i], s.nextSeq);
    PostedPlaces(s, t, i, c);
    SamePlaces(s, t);
    assert Pipeline(t) == Pipeline(s) + [c];
    PostedOnce(s, i);
  }

  lemma PostedOnce(s: State, i: nat)
    requires Conserved(s) && i < |s.posted|
    ensures s.posted[i] !in s.posted[..i] + s.posted[i + 1..]
  {
    hide Ids;
    var id, rest := s.posted[i], s.posted[..i] + s.posted[i + 1..];
    assert s.posted == s.posted[..i] + [id] + s.posted[i + 1..];
    assert multiset(s.posted) == multiset(rest) + multiset{id};
    assert Places(s)[id] <= 1;
  }

  lemma SameQueues(s: State, t: State)
    requires t.posted == s.posted && t.sendQ == s.sendQ && t.recvQ == s.recvQ && t.done == s.done
    ensures Places(t) == Places(s) && Pipeline(t) == Pipeline(s)
  {}

  lemma SameOrdered(s: State, t: State)
    requires Ordered(s) && Pipeline(t) == Pipeline(s) && t.nextSeq == s.nextSeq && t.failedAll == s.failedAll
    ensures Ordered(t)
  {}

  lemma IssueBooks(s: State, t: State)
    requires Books(s) && s.sendQ != []
      && t == s.(issued := s.issued + [s.sendQ[0]], writing := true, sendCoro := t.sendCoro)
    requires !s.failedAll ==> s.issued[s.consumed..] == s.recvQ
    ensures Books(t) && (|s.sendQ| == 1 ==> Synced(t))
  {
    hide Labelled, Conserved, Places, Ordered;
    assert Places(t) == Places(s) && Pipeline(t) == Pipeline(s) by { SameQueues(s, t); }
    SamePlaces(s, t);
    SubLabelled(s, t);
    SameOrdered(s, t);
    assert t.issued[t.consumed..] == s.issued[s.consumed..] + [s.sendQ[0]];
  }

  /** A call joins others that are waiting for their write. */
  lemma JoinInv(s: State, i: nat)
    requires Inv(s) && i < |s.posted| && s.sendQ != []
    ensures Inv(Enqueued(s, i))
  {
    hide Books;
    PostedBooks(s, i, Enqueued(s, i));
    assert Enqueued(s, i).sendQ[..1] == s.sendQ[..1];
  }

  /** A call finds the queue empty and the connection up: it is written at once. */
  lemma BeginInv(s: State, i: nat)
    requires Inv(s) && i < |s.posted| && s.sendQ == [] && s.conn == Up
    ensures var u := Enqueued(s, i);
      Inv(u.(issued := u.issued + u.sendQ, writing := true, sendCoro := Suspended(WritePoint)))
  {
    hide Ordered, Labelled, Prefixed, Conserved;
    var u := Enqueued(s, i);
    PostedBooks(s, i, u);
    assert s.sendQ[..0] == [] && s.recvQ + [] == s.recvQ && u.sendQ == [u.sendQ[0]];
    hide Enqueued;
    IssueBooks(u, u.(issued := u.issued + u.sendQ, writing := true, sendCoro := Suspended(WritePoint)));
  }

  lemma DispatchInv(s: State, i: nat)
    requires Inv(s) && i < |s.posted|
    ensures Inv(Step(s, Dispatch(i)))
  {
    DispatchIs(s, i);
    hide Books, Synced, Step, FailAllSend;
    if s.sendQ != [] {
      JoinInv(s, i);
    } else if s.conn != Up {
      var u := Enqueued(s, i).(sendCoro := Restarted(s.sendCoro));
      PostedBooks(s, i, u);
      FailAllSendInv(u, Network);
    } else {
      BeginInv(s, i);
    }
  }

  lemma StepInv(s: State, e: Event)
    requires Inv(s) && Enabled(s, e)
    ensures Inv(Step(s, e))
  {
    match e
    case Connect => SameBooks(s, s.(conn := Up));
    case Close => SameBooks(s, s.(conn := Closed));
    case NewCall => NewCallInv(s);
    case Dispatch(i) => DispatchInv(s, i);
    case Write(ok) => WriteInv(s, ok);
    case ReadError => ReadErrorInv(s);
    case Header(len) => HeaderInv(s, len);
    case Body(correlation, tag) => BodyInv(s, correlation, tag);
  }

  lemma NewCallConserved(s: State, t: State)
    requires Conserved(s) && t == s.(posted := s.posted + [s.nextId], nextId := s.nextId + 1)
    ensures Conserved(t)
  {
    hide Ids;
    assert Places(t) == Places(s) + multiset{s.nextId};
  }

  lemma NewCallLabelled(s: State, t: State)
    requires Labelled(s) && t == s.(posted := s.posted + [s.nextId], nextId := s.nextId + 1)
    ensures Labelled(t)
  {}

  lemma NewCallInv(s: State)
    requires Inv(s)
    ensures Inv(Step(s, NewCall))
  {
    hide Labelled, Conserved;
    var t := Step(s, NewCall);
    assert Pipeline(t) == Pipeline(s);
    NewCallConserved(s, t);
    NewCallLabelled(s, t);
  }

  lemma WriteInv(s: State, ok: bool)
    requires Inv(s) && s.writing
    ensures Inv(WriteDone(s, ok))
  {
    WriteIs(s, ok);
    hide Books, Synced, WriteDone, FailAllSend;
    if ok && s.conn == Up {
      WriteOkInv(s);
    } else {
      SameBooks(s, s.(writing := false));
      FailAllSendInv(s.(writing := false), Network);
    }
  }

  lemma ReadErrorInv(s: State)
    requires Inv(s) && s.reading != NoRead
    ensures Inv(ReadFailed(s))
  {
    ErrorIs(s);
    hide Books, Synced, ReadFailed, FailAllRecv;
    SameBooks(s, s.(reading := NoRead));
    FailAllRecvInv(s.(reading := NoRead), Network);
  }

  lemma HeaderInv(s: State, len: int)
    requires Inv(s) && s.reading == ReadHeader
    ensures Inv(HeaderRead(s, len))
  {
    HeaderIs(s, len);
    hide Books, HeaderRead, ResolveHead;
    if len > 0 {
      SameBooks(s, HeaderRead(s, len));
    } else {
      ResolveInv(s, Empty);
    }
  }

  lemma BodyInv(s: State, correlation: int, tag: nat)
    requires Inv(s) && s.reading.ReadBody?
    ensures Inv(BodyRead(s, correlation, tag))
  {
    BodyIs(s, correlation, tag);
    hide Books, Synced, BodyRead, ResolveHead, FailAllRecv;
    if Mismatch(s, correlation) {
      var t := s.(reading := NoRead, recvCoro := Complete);
      SameBooks(s, t);
      FailAllRecvInv(t, Decoding);
    } else {
      ResolveInv(s, Answer(correlation, tag));
    }
  }

  lemma InitInv(clientId: nat)
    requires clientId <= Wire.MAX_STRING
    ensures Inv(Init(clientId))
  {}

  lemma {:induction false} RunInvFrom(s: State, es: seq<Event>)
    requires Inv(s) && Run(s, es)
    ensures Inv(After(s, es))
    decreases |es|
  {
    hide Inv;
    if es != [] {
      StepInv(s, es[0]);
      RunInvFrom(Step(s, es[0]), es[1..]);
    }
  }
}
