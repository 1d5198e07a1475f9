/** The connection over whole runs: forward only, one closing reason, nobody left waiting. */
module ConnectionProperties {
  import opened ConnectionModel
  import RpcModel

  function Rank(p: Phase): nat {
    match p
    case Init => 0
    case Connecting => 1
    case Connected => 2
    case Closed => 3
  }

  /** What a step or a run never takes back. */
  ghost predicate Extends(s: State, t: State) {
    && Rank(s.phase) <= Rank(t.phase)
    && (s.phase == Closed ==> t.ec == s.ec)
    && |s.callers| <= |t.callers|
    && s.closes <= t.closes
    && (forall k :: 0 <= k < |s.callers| && s.callers[k].Returned? ==> t.callers[k] == s.callers[k])
    && (s.phase == Closed ==> forall k :: 0 <= k < |t.callers| && t.callers[k].Returned? ==>
          (k < |s.callers| && s.callers[k].Returned?) || t.callers[k].result == s.ec)
  }

  lemma StepExtends(s: State, e: Event)
    requires Inv(s) && Enabled(s, e)
    ensures Extends(s, Step(s, e))
  {}

  lemma ExtendsTrans(s: State, t: State, u: State)
    requires Extends(s, t) && Extends(t, u)
    ensures Extends(s, u)
  {}

  lemma {:induction false} RunExtends(s: State, es: seq<Event>)
    requires Inv(s) && Run(s, es)
    ensures Extends(s, After(s, es))
    decreases |es|
  {
    if es != [] {
      hide Inv, Extends;
      var t := Step(s, es[0]);
      StepInv(s, es[0]);
      StepExtends(s, es[0]);
      RunExtends(t, es[1..]);
      ExtendsTrans(s, t, After(t, es[1..]));
    }
  }

  /**
   In every run of connects, closes, timeouts and late completions: the phase only moves
   forward; once closed, the connection stays closed for the reason it had, and every
   connect() that returns from then on returns that reason, never success.
   */
  lemma ForwardOnly(before: seq<Event>, rest: seq<Event>)
    requires Run(Start(), before) && Run(After(Start(), before), rest)
    ensures var s := After(Start(), before);
      var t := After(s, rest);
      && Rank(s.phase) <= Rank(t.phase)
      && (s.phase == Closed ==>
            && t.phase == Closed && t.ec == s.ec && s.ec != Success
            && forall k :: 0 <= k < |t.callers| && t.callers[k].Returned? ==>
                 (k < |s.callers| && s.callers[k].Returned?) || t.callers[k].result == s.ec)
  {
    StartInv();
    RunInv(Start(), before);
    RunExtends(After(Start(), before), rest);
  }

  /**
   Every error that any connect() or close() ever returned is the one reason recorded, which
   is never success; the coroutine was started at most once, and no connect() is more than
   one recursive call deep.
   */
  lemma OneReason(es: seq<Event>)
    requires Run(Start(), es)
    ensures var s := After(Start(), es);
      && (s.phase == Closed <==> s.ec != Success)
      && (forall r :: r in s.closes ==> s.phase == Closed && r == s.ec)
      && (forall k :: 0 <= k < |s.callers| && s.callers[k].Returned? && s.callers[k].result != Success ==>
            s.phase == Closed && s.callers[k].result == s.ec)
      && s.starts <= 1
      && (forall k :: 0 <= k < |s.callers| && s.callers[k].Entering? ==> s.callers[k].depth <= 1)
      && (forall k :: 0 <= k < |s.callers| && s.callers[k].Starting? ==> s.callers[k].depth == 0 && s.starts == 0)
  {
    StartInv();
    RunInv(Start(), es);
    var s := After(Start(), es);
    assert forall k :: 0 <= k < |s.callers| ==> CallerSound(s, s.callers[k]);
  }

  /** The error a step would close the connection with. */
  function ReasonOf(e: Event): ErrorCode {
    match e
    case CallClose(ec) => ec
    case Resolve(ec, _) => ec
    case Connect(ec) => ec
    case _ => TimedOut
  }

  /** Exactly the steps that close an open connection. */
  predicate Closes(s: State, e: Event) {
    match e
    case CallClose(_) => true
    case Timeout(k) => s.phase == Connecting
    case Resolve(ec, endpoints) => ec != Success || endpoints == 0
    case Connect(ec) => ec == OperationAborted || (ec != Success && s.coro.Trying? && s.coro.left <= 1)
    case _ => false
  }

  /** A timeout cannot close a connection that has come up, and the recorded reason is the closing step's own. */
  lemma ClosedBy(s: State, e: Event)
    requires Inv(s) && Enabled(s, e) && s.phase != Closed
    ensures Step(s, e).phase == Closed <==> Closes(s, e)
    ensures Closes(s, e) ==> Step(s, e).ec == if ReasonOf(e) == Success then ConnectionAborted else ReasonOf(e)
  {}

  /** Success is returned only from a critical section that found the connection up. */
  lemma OkMeansConnected(s: State, e: Event, k: nat)
    requires Inv(s) && Enabled(s, e) && k < |Step(s, e).callers| && Step(s, e).callers[k] == Returned(Success)
    ensures (k < |s.callers| && s.callers[k] == Returned(Success))
      || (s.phase == Connected && Step(s, e).phase == Connected)
  {
    assert k < |s.callers| ==> CallerSound(s, s.callers[k]);
  }

  /** The place in a run where the connection was closed: for the reason it has ever since. */
  lemma {:induction false} ClosingStep(s: State, es: seq<Event>) returns (i: nat)
    requires Inv(s) && Run(s, es) && s.phase != Closed && After(s, es).phase == Closed
    ensures i < |es| && Run(s, es[..i]) && After(s, es[..i]).phase != Closed && Closes(After(s, es[..i]), es[i])
    ensures After(s, es).ec == Recorded(ReasonOf(es[i]))
    decreases |es|
  {
    var t := Step(s, es[0]);
    StepInv(s, es[0]);
    if t.phase == Closed {
      i := 0;
      ClosedBy(s, es[0]);
      RunExtends(t, es[1..]);
    } else {
      hide Inv, Enabled, Step, Closes;
      var j := ClosingStep(t, es[1..]);
      i := j + 1;
      assert es[..i][1..] == es[1..][..j];
    }
  }

  /**
   Every run that ends closed has exactly one step that closed it; whatever closes, timeouts and
   failures came after, the reason recorded is that step's own, and a success is recorded as an abort.
   */
  lemma FirstCloseDecides(es: seq<Event>) returns (i: nat)
    requires Run(Start(), es) && After(Start(), es).phase == Closed
    ensures i < |es| && Run(Start(), es[..i]) && After(Start(), es[..i]).phase != Closed
      && Closes(After(Start(), es[..i]), es[i])
    ensures After(Start(), es).ec == if ReasonOf(es[i]) == Success then ConnectionAborted else ReasonOf(es[i])
  {
    StartInv();
    i := ClosingStep(Start(), es);
  }

  lemma {:induction false} ConnectedWhen(s: State, es: seq<Event>, k: nat) returns (i: nat)
    requires Inv(s) && Run(s, es) && k < |After(s, es).callers| && After(s, es).callers[k] == Returned(Success)
    requires !(k < |s.callers| && s.callers[k] == Returned(Success))
    ensures i <= |es| && Run(s, es[..i]) && After(s, es[..i]).phase == Connected
    decreases |es|
  {
    var t := Step(s, es[0]);
    StepInv(s, es[0]);
    if k < |t.callers| && t.callers[k] == Returned(Success) {
      i := 0;
      OkMeansConnected(s, es[0], k);
    } else {
      hide Inv, Enabled, Step;
      var j := ConnectedWhen(t, es[1..], k);
      i := j + 1;
      assert es[..i][1..] == es[1..][..j];
    }
  }

  /** In every run, a connect() that returned success did so at a moment the connection was up. */
  lemma OkWasConnected(es: seq<Event>, k: nat) returns (i: nat)
    requires Run(Start(), es) && k < |After(Start(), es).callers| && After(Start(), es).callers[k] == Returned(Success)
    ensures i <= |es| && Run(Start(), es[..i]) && After(Start(), es[..i]).phase == Connected
  {
    StartInv();
    i := ConnectedWhen(Start(), es, k);
  }

  // ---------- coming up, or having tried every endpoint ----------

  function Offered(e: Event): nat {
    if e.Resolve? then e.endpoints else 0
  }

  function AllOffered(es: seq<Event>): nat
    decreases |es|
  {
    if es == [] then 0 else Offered(es[0]) + AllOffered(es[1..])
  }

  /** An async_connect that failed, other than by being aborted. */
  predicate Refusal(e: Event) {
    e.Connect? && e.ec != Success && e.ec != OperationAborted
  }

  function Refused(es: seq<Event>): nat
    decreases |es|
  {
    if es == [] then 0 else (if Refusal(es[0]) then 1 else 0) + Refused(es[1..])
  }

  function Left(c: Coro): nat {
    if c.Trying? then c.left else 0
  }

  predicate Over(c: Coro) {
    c == Notifying || c == Stopped
  }

  lemma StepTally(s: State, e: Event)
    requires Inv(s) && Enabled(s, e)
    ensures var t := Step(s, e);
      && (Over(s.coro) ==> Over(t.coro))
      && (!Over(t.coro) ==> Left(s.coro) + Offered(e) == Left(t.coro) + if Refusal(e) then 1 else 0)
  {}

  /** While endpoints are tried, each one offered has been refused or is still to come. */
  lemma {:induction false} RunTally(s: State, es: seq<Event>)
    requires Inv(s) && Run(s, es)
    ensures var t := After(s, es);
      && (Over(s.coro) ==> Over(t.coro))
      && (!Over(t.coro) ==> Left(s.coro) + AllOffered(es) == Left(t.coro) + Refused(es))
    decreases |es|
  {
    if es != [] {
      StepInv(s, es[0]);
      StepTally(s, es[0]);
      hide Inv, Enabled, Step;
      RunTally(Step(s, es[0]), es[1..]);
    }
  }

  lemma {:induction false} Prefix(s: State, es: seq<Event>, i: nat)
    requires Run(s, es) && i < |es|
    ensures Run(s, es[..i]) && Enabled(After(s, es[..i]), es[i])
    ensures Run(s, es[..i + 1]) && After(s, es[..i + 1]) == Step(After(s, es[..i]), es[i])
    decreases |es|
  {
    var a, b := es[..i], es[..i + 1];
    assert b[0] == es[0];
    hide Enabled, Step;
    if i > 0 {
      Prefix(Step(s, es[0]), es[1..], i - 1);
      assert a[1..] == es[1..][..i - 1] && b[1..] == es[1..][..i];
    } else {
      assert b[1..] == [];
    }
  }

  lemma {:induction false} TallySnoc(es: seq<Event>, e: Event)
    ensures AllOffered(es + [e]) == AllOffered(es) + Offered(e)
    ensures Refused(es + [e]) == Refused(es) + if Refusal(e) then 1 else 0
    decreases |es|
  {
    if es == [] {
      assert es + [e] == [e] && [e][1..] == [];
    } else {
      assert (es + [e])[1..] == es[1..] + [e];
      TallySnoc(es[1..], e);
    }
  }

  lemma TryingStep(s: State, ec: ErrorCode)
    requires Inv(s) && s.coro.Trying?
    ensures var t := Step(s, Connect(ec));
      && (s.phase == Connecting || s.phase == Closed)
      && (ec == Success ==> t.phase == if s.phase == Connecting then Connected else Closed)
      && (Refusal(Connect(ec)) && s.phase == Connecting ==>
            if s.coro.left == 1 then t.phase == Closed && t.ec == ec
            else t.phase == Connecting && t.coro == Trying(s.coro.left - 1))
  {}

  /**
   What a completed async_connect comes to, in every run. A success brings the connection up
   unless it was closed meanwhile. A refusal closes it, for its own reason, exactly if by then
   as many endpoints have refused as the resolver offered; otherwise the next one is tried.
   */
  lemma ConnectOutcome(es: seq<Event>, i: nat)
    requires Run(Start(), es) && i < |es| && es[i].Connect?
    ensures Run(Start(), es[..i]) && Run(Start(), es[..i + 1])
    ensures var s, t := After(Start(), es[..i]), After(Start(), es[..i + 1]);
      && (s.phase == Connecting || s.phase == Closed)
      && (es[i].ec == Success ==> t.phase == if s.phase == Connecting then Connected else Closed)
      && (Refusal(es[i]) && s.phase == Connecting ==>
            var refused, offered := Refused(es[..i + 1]), AllOffered(es[..i + 1]);
            && (refused == offered ==> t.phase == Closed && t.ec == es[i].ec)
            && (refused != offered ==>
                  t.phase == Connecting && t.coro.Trying? && refused + t.coro.left == offered))
  {
    hide Run, After, Inv, Step;
    StartInv();
    Prefix(Start(), es, i);
    var s := After(Start(), es[..i]);
    RunInv(Start(), es[..i]);
    RunTally(Start(), es[..i]);
    TryingStep(s, es[i].ec);
    assert es[..i + 1] == es[..i] + [es[i]];
    TallySnoc(es[..i], es[i]);
    TryingLeft(s);
  }

  lemma TryingLeft(s: State)
    requires Inv(s) && s.coro.Trying?
    ensures s.coro.left > 0
  {}

  // ---------- nobody is left waiting ----------

  /** A waiter that has not been notified still has a notification coming. */
  lemma NoLostWakeup(es: seq<Event>, k: nat)
    requires Run(Start(), es) && k < |After(Start(), es).callers| && After(Start(), es).callers[k] == Waiting(false)
    ensures var s := After(Start(), es);
      || s.coro == Notifying
      || (s.phase == Connecting && (s.coro == Resolving || s.coro.Trying?))
      || (s.phase == Connecting && exists i :: 0 <= i < |s.callers| && s.callers[i].Starting?)
  {
    StartInv();
    RunInv(Start(), es);
    var s := After(Start(), es);
    assert CallerSound(s, s.callers[k]);
  }

  function Weight(c: Caller): nat {
    match c
    case Entering(depth) => if depth == 0 then 7 else 3
    case Starting(_) => 6
    case Waiting(notified) => if notified then 1 else 2
    case Returned(_) => 0
  }

  function Weights(cs: seq<Caller>): nat {
    if cs == [] then 0 else Weight(cs[0]) + Weights(cs[1..])
  }

  function CoroWeight(c: Coro): nat {
    match c
    case NotStarted => 0
    case Resolving => 2
    case Trying(left) => left + 1
    case Notifying => 1
    case Stopped => 0
  }

  /** The most steps still needed before every call has returned. */
  function Work(s: State): nat {
    Weights(s.callers) + CoroWeight(s.coro)
  }

  lemma {:induction false} WeightsUpdate(cs: seq<Caller>, k: nat, c: Caller)
    requires k < |cs|
    ensures Weights(cs[k := c]) + Weight(cs[k]) == Weights(cs) + Weight(c)
  {
    var ds := cs[k := c];
    if k == 0 {
      assert ds[1..] == cs[1..];
    } else {
      assert ds[1..] == cs[1..][k - 1 := c];
      WeightsUpdate(cs[1..], k - 1, c);
    }
  }

  lemma {:induction false} WeightsDrop(cs: seq<Caller>, ds: seq<Caller>)
    requires |cs| == |ds| && forall i :: 0 <= i < |cs| ==> Weight(ds[i]) <= Weight(cs[i])
    ensures Weights(ds) <= Weights(cs)
  {
    if cs != [] { WeightsDrop(cs[1..], ds[1..]); }
  }

  /** A step that will happen without anybody's timeout running out or a further call. */
  predicate Delivery(s: State, e: Event) {
    match e
    case CallConnect => false
    case CallClose(_) => false
    case Timeout(_) => false
    case Wake(k) => k < |s.callers| && s.callers[k] == Waiting(true)
    case _ => true
  }

  lemma CloseWork(s: State, ec: ErrorCode)
    ensures Weights(DoClose(s, ec).callers) <= Weights(s.callers) && DoClose(s, ec).coro == s.coro
    ensures |DoClose(s, ec).callers| == |s.callers|
    ensures forall i :: 0 <= i < |s.callers| ==> Weight(DoClose(s, ec).callers[i]) <= Weight(s.callers[i])
  {
    WeightsDrop(s.callers, DoClose(s, ec).callers);
  }

  lemma MoveWork(s: State, k: nat, c: Caller)
    requires k < |s.callers|
    ensures Weights(s.callers[k := c]) == Weights(s.callers) - Weight(s.callers[k]) + Weight(c)
  {
    WeightsUpdate(s.callers, k, c);
  }

  lemma CallerWorks(s: State, e: Event)
    requires Inv(s) && Enabled(s, e) && (e.Enter? || e.RunCoroutine? || e.Wake?)
    ensures Work(Step(s, e)) <= Work(s) && (Delivery(s, e) ==> Work(Step(s, e)) < Work(s))
  {
    var c := s.callers[e.k];
    assert CallerSound(s, c);
    MoveWork(s, e.k, Waiting(false));
    MoveWork(s, e.k, Returned(Success));
    MoveWork(s, e.k, Returned(s.ec));
    if c.Entering? { MoveWork(s, e.k, Starting(c.depth)); }
    if c.Starting? { MoveWork(s, e.k, Entering(c.depth + 1)); }
  }

  lemma TimeoutWorks(s: State, k: nat)
    requires Inv(s) && Enabled(s, Timeout(k))
    ensures Work(WaitExpired(s, k)) < Work(s)
  {
    hide DoClose, Inv;
    CloseWork(s, TimedOut);
    MoveWork(s, k, Returned(Success));
    MoveWork(s, k, Returned(s.ec));
    CloseReturnWork(s, k);
  }

  lemma CloseReturnWork(s: State, k: nat)
    requires k < |s.callers| && s.callers[k].Waiting?
    ensures Weights(DoClose(s, TimedOut).callers[k := Returned(DoClose(s, TimedOut).ec)]) < Weights(s.callers)
  {
    var t := DoClose(s, TimedOut);
    assert t.callers[k].Waiting?;
    CloseWork(s, TimedOut);
    MoveWork(t, k, Returned(t.ec));
  }

  lemma OtherWorks(s: State, e: Event)
    requires Inv(s) && Enabled(s, e) && (e.CallClose? || e.Resolve? || e.Connect? || e.Notify?)
    ensures Work(Step(s, e)) <= Work(s) + Offered(e) && (Delivery(s, e) ==> Work(Step(s, e)) < Work(s) + Offered(e))
  {
    hide DoClose;
    if !e.Notify? {
      CloseWork(s, ReasonOf(e));
    } else {
      WeightsDrop(s.callers, NotifyAll(s).callers);
    }
  }

  function Deliveries(s: State, es: seq<Event>): nat
    requires Run(s, es)
    decreases |es|
  {
    if es == [] then 0 else (if Delivery(s, es[0]) then 1 else 0) + Deliveries(Step(s, es[0]), es[1..])
  }

  predicate NoCalls(es: seq<Event>) {
    forall i :: 0 <= i < |es| ==> !es[i].CallConnect?
  }

  lemma {:induction false} BoundedFrom(s: State, es: seq<Event>)
    requires Inv(s) && Run(s, es) && NoCalls(es)
    ensures Deliveries(s, es) + Work(After(s, es)) <= Work(s) + AllOffered(es)
    decreases |es|
  {
    if es != [] {
      hide Inv, Work;
      var e := es[0];
      StepInv(s, e);
      if e.Enter? || e.RunCoroutine? || e.Wake? {
        CallerWorks(s, e);
      } else if e.Timeout? {
        TimeoutWorks(s, e.k);
      } else {
        OtherWorks(s, e);
      }
      BoundedFrom(Step(s, e), es[1..]);
    }
  }

  ghost predicate Quiet(s: State) {
    forall e :: Delivery(s, e) ==> !Enabled(s, e)
  }

  /**
   No connect() hangs, even if no timeout ever runs out. Once no more calls are made, only as
   many deliveries are possible as there was work plus endpoints offered by the resolver, and
   when none is possible any more every call has returned.
   */
  lemma NoHungConnects(before: seq<Event>, rest: seq<Event>)
    requires Run(Start(), before) && Run(After(Start(), before), rest) && NoCalls(rest)
    ensures var s := After(Start(), before);
      var t := After(s, rest);
      && Deliveries(s, rest) <= Work(s) + AllOffered(rest)
      && (Quiet(t) ==> forall k :: 0 <= k < |t.callers| ==> t.callers[k].Returned?)
  {
    StartInv();
    RunInv(Start(), before);
    var s := After(Start(), before);
    BoundedFrom(s, rest);
    RunInv(s, rest);
    var t := After(s, rest);
    if Quiet(t) { QuietReturned(t); }
  }

  lemma QuietReturned(t: State)
    requires Inv(t) && Quiet(t)
    ensures forall k :: 0 <= k < |t.callers| ==> t.callers[k].Returned?
  {
    assert !Enabled(t, Resolve(Success, 0)) && !Enabled(t, Connect(Success)) && !Enabled(t, Notify);
    forall k | 0 <= k < |t.callers| ensures t.callers[k].Returned? {
      assert CallerSound(t, t.callers[k]);
      assert !Enabled(t, Enter(k)) && !Enabled(t, RunCoroutine(k));
      assert Delivery(t, Wake(k)) ==> !Enabled(t, Wake(k));
      if t.callers[k] == Waiting(false) {
        var i :| 0 <= i < |t.callers| && t.callers[i].Starting?;
        assert Enabled(t, RunCoroutine(i));
        assert false;
      }
    }
  }

  // ---------- what the RPC queues see of it ----------

  function Seen(p: Phase): RpcModel.Conn {
    match p
    case Init => RpcModel.Idle
    case Connecting => RpcModel.Idle
    case Connected => RpcModel.Up
    case Closed => RpcModel.Closed
  }

  /** Each step of the connection is, for the queues, nothing, the connection coming up or a close. */
  lemma SeenByQueues(s: State, e: Event, q: RpcModel.State)
    requires Inv(s) && Enabled(s, e) && q.conn == Seen(s.phase) && q.mishap.None?
    ensures var now := q.(conn := Seen(Step(s, e).phase));
      || now == q
      || (RpcModel.Enabled(q, RpcModel.Connect) && now == RpcModel.Step(q, RpcModel.Connect))
      || now == RpcModel.Step(q, RpcModel.Close)
  {}

  /** To the queues, any run of the connection is a run of comings up and closes. */
  lemma {:induction false} RunSeenByQueues(
      s: State, es: seq<Event>, q: RpcModel.State) returns (fs: seq<RpcModel.Event>)
    requires Inv(s) && Run(s, es) && q.conn == Seen(s.phase) && q.mishap.None?
    ensures RpcModel.Run(q, fs) && RpcModel.After(q, fs) == q.(conn := Seen(After(s, es).phase))
    ensures forall i :: 0 <= i < |fs| ==> fs[i] == RpcModel.Connect || fs[i] == RpcModel.Close
    decreases |es|
  {
    if es == [] {
      fs := [];
    } else {
      var t := Step(s, es[0]);
      var now := q.(conn := Seen(t.phase));
      StepInv(s, es[0]);
      SeenByQueues(s, es[0], q);
      hide Inv, Enabled, Step;
      var rest := RunSeenByQueues(t, es[1..], now);
      if now == q {
        fs := rest;
      } else if RpcModel.Enabled(q, RpcModel.Connect) && now == RpcModel.Step(q, RpcModel.Connect) {
        fs := [RpcModel.Connect] + rest;
        assert fs[1..] == rest;
      } else {
        fs := [RpcModel.Close] + rest;
        assert fs[1..] == rest;
      }
    }
  }
}
