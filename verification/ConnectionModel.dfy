/**
 The connection state machine. Any number of threads call connect() and close(), racing with
 wait timeouts and the completions of the connect coroutine. Every step below is one critical
 section of mu_, or one step taken without it.
 */
module ConnectionModel {

  datatype Phase = Init | Connecting | Connected | Closed

  datatype ErrorCode = Success | ConnectionAborted | TimedOut | OperationAborted | Other(code: nat)

  /** One call of connect(), from its entry to its return. */
  datatype Caller =
    | Entering(depth: nat)       // about to take mu_; depth counts recursive calls
    | Starting(depth: nat)       // has left mu_ in STATE_CONNECTING, about to run the coroutine
    | Waiting(notified: bool)    // on the condition variable
    | Returned(result: ErrorCode)

  datatype Coro =
    | NotStarted
    | Resolving
    | Trying(left: nat)          // an async_connect is in flight, with this many endpoints left including its own
    | Notifying                  // STATE_CONNECTED is set, notify_all is still to come
    | Stopped

  datatype State = State(
    phase: Phase,
    ec: ErrorCode,
    callers: seq<Caller>,
    coro: Coro,
    starts: nat,                 // times the coroutine was started
    closes: seq<ErrorCode>)      // what close() returned

  function Start(): State {
    State(Init, Success, [], NotStarted, 0, [])
  }

  // ---------- impl::close ----------

  function Notified(c: Caller): Caller {
    if c.Waiting? then Waiting(true) else c
  }

  function NotifyAll(s: State): State {
    s.(callers := seq(|s.callers|, i requires 0 <= i < |s.callers| => Notified(s.callers[i])))
  }

  /** The reason recorded: success would look like a good connection to waiters. */
  function Recorded(ec: ErrorCode): ErrorCode {
    if ec == Success then ConnectionAborted else ec
  }

  function DoClose(s: State, ec: ErrorCode): State {
    if s.phase == Closed then s
    else
      var t := s.(phase := Closed, ec := Recorded(ec));
      if s.phase == Init then t else NotifyAll(t)
  }

  // ---------- connect ----------

  function Return(s: State, k: nat, r: ErrorCode): State
    requires k < |s.callers|
  {
    s.(callers := s.callers[k := Returned(r)])
  }

  function EnterConnect(s: State, k: nat): State
    requires k < |s.callers| && s.callers[k].Entering?
  {
    match s.phase
    case Connected => Return(s, k, Success)
    case Closed => Return(s, k, s.ec)
    case Connecting => s.(callers := s.callers[k := Waiting(false)])
    case Init => s.(phase := Connecting, callers := s.callers[k := Starting(s.callers[k].depth)])
  }

  function Launch(s: State, k: nat): State
    requires k < |s.callers| && s.callers[k].Starting?
  {
    s.(coro := Resolving, starts := s.starts + 1, callers := s.callers[k := Entering(s.callers[k].depth + 1)])
  }

  /** A waiter has mu_ again, notified or not. */
  function WakeUp(s: State, k: nat): State
    requires k < |s.callers|
  {
    match s.phase
    case Connecting => s.(callers := s.callers[k := Waiting(false)])
    case Connected => Return(s, k, Success)
    case _ => Return(s, k, s.ec)
  }

  /** The wait ran out; its predicate is tried once more before that counts. */
  function WaitExpired(s: State, k: nat): State
    requires k < |s.callers|
  {
    if s.phase == Connecting then
      var t := DoClose(s, TimedOut);
      if k < |t.callers| then Return(t, k, t.ec) else t
    else WakeUp(s, k)
  }

  // ---------- the coroutine ----------

  function ResolveDone(s: State, ec: ErrorCode, endpoints: nat): State {
    if ec != Success then DoClose(s, ec).(coro := Stopped)
    else if endpoints == 0 then DoClose(s, ec).(coro := Stopped)
    else s.(coro := Trying(endpoints))
  }

  function ConnectDone(s: State, ec: ErrorCode): State
    requires s.coro.Trying?
  {
    if ec == OperationAborted then DoClose(s, ec).(coro := Stopped)
    else if ec != Success then
      if s.coro.left > 1 then s.(coro := Trying(s.coro.left - 1)) else DoClose(s, ec).(coro := Stopped)
    else if s.phase != Connecting then s.(coro := Stopped)
    else s.(phase := Connected, coro := Notifying)
  }

  // ---------- runs ----------

  datatype Event =
    | CallConnect
    | Enter(k: nat)
    | RunCoroutine(k: nat)
    | Wake(k: nat)                                  // also spuriously
    | Timeout(k: nat)
    | CallClose(ec: ErrorCode)
    | Resolve(ec: ErrorCode, endpoints: nat)
    | Connect(ec: ErrorCode)
    | Notify

  predicate Enabled(s: State, e: Event) {
    match e
    case CallConnect => true
    case Enter(k) => k < |s.callers| && s.callers[k].Entering?
    case RunCoroutine(k) => k < |s.callers| && s.callers[k].Starting?
    case Wake(k) => k < |s.callers| && s.callers[k].Waiting?
    case Timeout(k) => k < |s.callers| && s.callers[k].Waiting?
    case CallClose(_) => true
    case Resolve(_, _) => s.coro == Resolving
    case Connect(_) => s.coro.Trying?
    case Notify => s.coro == Notifying
  }

  function Step(s: State, e: Event): State
    requires Enabled(s, e)
  {
    match e
    case CallConnect => s.(callers := s.callers + [Entering(0)])
    case Enter(k) => EnterConnect(s, k)
    case RunCoroutine(k) => Launch(s, k)
    case Wake(k) => WakeUp(s, k)
    case Timeout(k) => WaitExpired(s, k)
    case CallClose(ec) => var t := DoClose(s, ec); t.(closes := t.closes + [t.ec])
    case Resolve(ec, endpoints) => ResolveDone(s, ec, endpoints)
    case Connect(ec) => ConnectDone(s, ec)
    case Notify => NotifyAll(s).(coro := Stopped)
  }

  predicate Run(s: State, es: seq<Event>)
    decreases |es|
  {
    es == [] || (Enabled(s, es[0]) && Run(Step(s, es[0]), es[1..]))
  }

  function After(s: State, es: seq<Event>): State
    requires Run(s, es)
    decreases |es|
  {
    if es == [] then s else After(Step(s, es[0]), es[1..])
  }

  // ---------- what every reachable state keeps ----------

  predicate CallerSound(s: State, c: Caller) {
    match c
    case Entering(d) => d <= 1 && (d == 1 ==> s.phase != Init)
    case Starting(d) => d == 0 && s.phase != Init && s.coro == NotStarted
    case Waiting(notified) =>
      if notified then s.phase == Connected || s.phase == Closed else s.phase == Connecting || s.coro == Notifying
    case Returned(r) =>
      if r == Success then s.phase == Connected || s.phase == Closed else s.phase == Closed && r == s.ec
  }

  ghost predicate CallersSound(s: State) {
    forall i :: 0 <= i < |s.callers| ==> CallerSound(s, s.callers[i])
  }

  /** At most one call ever starts the coroutine. */
  ghost predicate OneStarter(s: State) {
    forall i, j :: 0 <= i < j < |s.callers| ==> !(s.callers[i].Starting? && s.callers[j].Starting?)
  }

  /** While connecting, the coroutine runs or somebody is about to run it. */
  ghost predicate SomebodyConnects(s: State) {
    s.phase == Connecting ==>
      s.coro == Resolving || s.coro.Trying? || exists i :: 0 <= i < |s.callers| && s.callers[i].Starting?
  }

  predicate FieldsSound(s: State) {
    && (s.phase == Closed <==> s.ec != Success)
    && (s.phase == Init ==> s.coro == NotStarted)
    && (s.coro == Notifying ==> s.phase == Connected || s.phase == Closed)
    && (s.coro.Trying? ==> s.coro.left > 0)
    && s.starts == (if s.coro == NotStarted then 0 else 1)
    && (s.phase == Connected ==> s.coro == Notifying || s.coro == Stopped)
  }

  /** close() always returns the reason of the first close. */
  predicate ClosesSound(s: State) {
    (s.closes != [] ==> s.phase == Closed) && forall r :: r in s.closes ==> r == s.ec
  }

  ghost predicate Inv(s: State) {
    FieldsSound(s) && ClosesSound(s) && CallersSound(s) && OneStarter(s) && SomebodyConnects(s)
  }

  /** One caller moves while the phase and the coroutine stay. */
  lemma MoveCaller(s: State, k: nat, c: Caller)
    requires Inv(s) && k < |s.callers| && !s.callers[k].Starting? && !c.Starting? && CallerSound(s, c)
    ensures Inv(s.(callers := s.callers[k := c]))
  {
    var t := s.(callers := s.callers[k := c]);
    assert forall i :: 0 <= i < |t.callers| ==> t.callers[i] == if i == k then c else s.callers[i];
    if s.phase == Connecting && s.coro != Resolving && !s.coro.Trying? {
      var i :| 0 <= i < |s.callers| && s.callers[i].Starting?;
      assert t.callers[i].Starting?;
    }
  }

  lemma CloseInv(s: State, ec: ErrorCode)
    requires Inv(s)
    ensures Inv(DoClose(s, ec)) && |DoClose(s, ec).callers| == |s.callers|
    ensures DoClose(s, ec).phase == Closed && DoClose(s, ec).coro == s.coro && DoClose(s, ec).closes == s.closes
    ensures s.phase == Closed ==> DoClose(s, ec).ec == s.ec
    ensures forall i :: 0 <= i < |s.callers| && s.callers[i].Waiting? ==> DoClose(s, ec).callers[i].Waiting?
  {}

  lemma TimeoutInv(s: State, k: nat)
    requires Inv(s) && k < |s.callers| && s.callers[k].Waiting?
    ensures Inv(WaitExpired(s, k))
  {
    hide Inv, DoClose;
    if s.phase == Connecting {
      CloseInv(s, TimedOut);
      var t := DoClose(s, TimedOut);
      MoveSound(t);
      MoveCaller(t, k, Returned(t.ec));
    } else {
      WakeInv(s, k);
    }
  }

  lemma MoveSound(s: State)
    requires Inv(s) && s.phase == Closed
    ensures s.ec != Success && CallerSound(s, Returned(s.ec))
  {}

  lemma WakeInv(s: State, k: nat)
    requires Inv(s) && k < |s.callers| && s.callers[k].Waiting?
    ensures Inv(WakeUp(s, k))
  {
    match s.phase
    case Connecting => MoveCaller(s, k, Waiting(false));
    case Connected => MoveCaller(s, k, Returned(Success));
    case _ => MoveCaller(s, k, Returned(s.ec));
  }

  lemma EnterInv(s: State, k: nat)
    requires Inv(s) && k < |s.callers| && s.callers[k].Entering?
    ensures Inv(EnterConnect(s, k))
  {
    match s.phase
    case Connecting => MoveCaller(s, k, Waiting(false));
    case Connected => MoveCaller(s, k, Returned(Success));
    case Closed => MoveCaller(s, k, Returned(s.ec));
    case Init =>
      var t := EnterConnect(s, k);
      assert forall i :: 0 <= i < |s.callers| && i != k ==> t.callers[i] == s.callers[i];
      assert t.callers[k].Starting?;
  }

  lemma LaunchInv(s: State, k: nat)
    requires Inv(s) && k < |s.callers| && s.callers[k].Starting?
    ensures Inv(Launch(s, k))
  {}

  lemma ConnectInv(s: State, ec: ErrorCode)
    requires Inv(s) && s.coro.Trying?
    ensures Inv(ConnectDone(s, ec))
  {}

  lemma StepInv(s: State, e: Event)
    requires Inv(s) && Enabled(s, e)
    ensures Inv(Step(s, e))
  {
    hide Inv, DoClose, EnterConnect, Launch, WakeUp, WaitExpired, ConnectDone;
    match e
    case CallConnect => CallInv(s);
    case Enter(k) => EnterInv(s, k);
    case RunCoroutine(k) => LaunchInv(s, k);
    case Wake(k) => WakeInv(s, k);
    case Timeout(k) => TimeoutInv(s, k);
    case CallClose(ec) => CallCloseInv(s, ec);
    case Resolve(ec, endpoints) => ResolveInv(s, ec, endpoints);
    case Connect(ec) => ConnectInv(s, ec);
    case Notify => NotifyInv(s);
  }

  lemma CallInv(s: State)
    requires Inv(s)
    ensures Inv(Step(s, CallConnect))
  {
    var t := Step(s, CallConnect);
    forall i | 0 <= i < |t.callers| ensures CallerSound(t, t.callers[i]) {
      assert i < |s.callers| ==> CallerSound(s, s.callers[i]);
    }
    forall i, j | 0 <= i < j < |t.callers| ensures !(t.callers[i].Starting? && t.callers[j].Starting?) {
      if j < |s.callers| { assert !(s.callers[i].Starting? && s.callers[j].Starting?); }
    }
    if s.phase == Connecting && s.coro != Resolving && !s.coro.Trying? {
      var i :| 0 <= i < |s.callers| && s.callers[i].Starting?;
      assert t.callers[i].Starting?;
    }
  }

  lemma CallCloseInv(s: State, ec: ErrorCode)
    requires Inv(s)
    ensures Inv(Step(s, CallClose(ec)))
  {
    CloseInv(s, ec);
    hide DoClose;
  }

  lemma ResolveInv(s: State, ec: ErrorCode, endpoints: nat)
    requires Inv(s) && s.coro == Resolving
    ensures Inv(ResolveDone(s, ec, endpoints))
  {}

  lemma NotifyInv(s: State)
    requires Inv(s) && s.coro == Notifying
    ensures Inv(Step(s, Notify))
  {}

  lemma {:induction false} RunInv(s: State, es: seq<Event>)
    requires Inv(s) && Run(s, es)
    ensures Inv(After(s, es))
    decreases |es|
  {
    hide Inv;
    if es != [] {
      StepInv(s, es[0]);
      RunInv(Step(s, es[0]), es[1..]);
    }
  }

  lemma StartInv()
    ensures Inv(Start())
  {}
}
