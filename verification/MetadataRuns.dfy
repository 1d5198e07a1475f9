/**
 Any number of threads in produce(), each looking up its partition, refreshing the metadata
 when it is not known, and closing or forgetting what failed. mu_ and meta_fetch_mu_ are
 explicit: a step that needs a lock is enabled only for the thread that holds it.
 */
module MetadataRuns {
  import opened Bytes
  import opened Protocol
  import opened MetadataModel

  const NO_ERROR := 0
  const UNKNOWN_PARTITION := 3

  /** Where a call of produce() stands. */
  datatype Pc =
    | Looking(refresh: bool)                          // get_broker_for_partition, under mu_
    | Asking(attempt: nat)                            // refresh_meta, before reading the clock
    | Queued(attempt: nat, requestedAt: nat)          // waits for meta_fetch_mu_
    | Checking(attempt: nat, requestedAt: nat)        // has it, compares with last_meta_fetch_
    | Picking(attempt: nat)                           // chooses or makes a connection, under mu_
    | Fetching(attempt: nat, broker: nat)             // the metadata request is in flight
    | Closing(attempt: nat, broker: nat, err: int)    // close_broker, under mu_
    | Recording(attempt: nat, err: int)               // last_meta_error_, under mu_
    | Applying(response: MetadataResponse)            // under mu_
    | Stamping                                        // last_meta_fetch_, then leaves
    | Leaving(again: Option<nat>)                     // gives meta_fetch_mu_ up, to retry or not
    | Reporting                                       // no broker found
    | Connecting(broker: nat)
    | Calling(broker: nat)                            // the produce request is in flight
    | Dropping(broker: nat, err: int)                 // close_broker, under mu_
    | Forgetting(err: int)                            // erases its partition, under mu_
    | Finished(result: int)
    | Thrown                                          // the branch that "can't happen"

  /** A call of produce(), with how often it fetched and when it last asked for a refresh. */
  datatype Thread = Thread(partition: Key, pc: Pc, fetches: nat, since: nat)

  /** A successful fetch: when its response was asked for and when it was stamped. */
  datatype Fetched = Fetched(askedAt: nat, doneAt: nat)

  datatype State = State(
    retries: int,                  // retry_attempts_
    configs: seq<Broker>,          // broker_configs_
    cache: Cache,
    threads: seq<Thread>,
    mu: Option<nat>,
    metaMu: Option<nat>,
    now: nat,
    lastFetch: nat,
    lastError: int,
    askedAt: nat,                  // when the latest fetch was started
    log: seq<Fetched>)             // the successful fetches

  function Start(retries: int, configs: seq<Broker>): State {
    State(retries, configs, Cache(map[], map[], [], {}, false), [], None, None, 1, 0, NO_ERROR, 0, [])
  }

  predicate NeedsMu(pc: Pc) {
    pc.Looking? || pc.Picking? || pc.Closing? || pc.Recording? || pc.Applying? || pc.Dropping? || pc.Forgetting?
  }

  predicate InMeta(pc: Pc) {
    pc.Checking? || pc.Picking? || pc.Fetching? || pc.Closing? || pc.Recording? || pc.Applying? || pc.Stamping?
      || pc.Leaving?
  }

  predicate Ended(pc: Pc) {
    pc.Finished? || pc.Thrown?
  }

  /** What the network decides for a step. */
  datatype Input =
    | Nothing
    | Result(code: int)                               // of a connect or a call; NO_ERROR is success
    | Acked(code: int)                                // a produce response arrived with this code
    | Response(r: MetadataResponse)
    | Choice(id: Option<int>, failures: nat, err: int, up: bool)   // see Picked

  /**
   The first live connection in node order will do. Without one the configured addresses are dialled in order:
   so many fail, and the next, if there is one, connects.
   */
  ghost predicate GoodChoice(s: State, i: Input) {
    && i.Choice?
    && (i.id.Some? ==> Least(s.cache, i.id.value))
    && (i.id.None? ==> i.failures <= |s.configs| && i.err != NO_ERROR)
    && (i.id.None? ==> forall id :: id in s.cache.brokers ==> !Live(s.cache, id))
  }

  ghost predicate Accepts(s: State, pc: Pc, i: Input) {
    match pc
    case Picking(_) => GoodChoice(s, i)
    case Fetching(_, _) => i.Response? || (i.Result? && i.code != NO_ERROR)
    case Connecting(_) => i.Result?
    case Calling(_) => i.Acked? || (i.Result? && i.code != NO_ERROR)
    case _ => i.Nothing? && !pc.Queued? && !Ended(pc)
  }

  /** The codes that say the metadata is out of date. */
  predicate Stale(code: int) {
    code == 3 || code == 5 || code == 6 || code == 9
  }

  // ---------- one step of one thread ----------

  function NewCache(s: State, k: nat, i: Input): Cache
    requires k < |s.threads|
  {
    var c := s.cache;
    match s.threads[k].pc
    case Looking(_) => Lookup(c, s.threads[k].partition).0
    case Picking(_) =>
      if !i.Choice? then c
      else if i.id.Some? then
        if Live(c, i.id.value) && !i.up then c.(closed := c.closed + {c.brokers[i.id.value].broker.value}) else c
      else if i.failures > |s.configs| then c
      else
        var d := Dial(c, s.configs, i.failures);
        if i.failures < |s.configs| && !i.up then d.(closed := d.closed + {|c.made| + i.failures}) else d
    case Closing(_, b, _) => if b < |c.made| then CloseBroker(c, b) else c
    case Applying(r) => Apply(c, r)
    case Dropping(b, _) => if b < |c.made| then CloseBroker(c, b) else c
    case Forgetting(_) => Forget(c, s.threads[k].partition)
    case _ => c
  }

  function NewPc(s: State, k: nat, i: Input): Pc
    requires k < |s.threads|
  {
    var c := s.cache;
    match s.threads[k].pc
    case Looking(refresh) =>
      var a := Lookup(c, s.threads[k].partition).1;
      if a.Found? then Connecting(a.broker)
      else if a.Impossible? then Thrown
      else if refresh then Asking(0)
      else Reporting
    case Asking(n) => Queued(n, s.now)
    case Queued(n, at) => Checking(n, at)
    case Checking(n, at) => if s.lastFetch >= at then Looking(false) else Picking(n)
    case Picking(n) =>
      if !i.Choice? || !i.up then Leaving(None)
      else if i.id.Some? then
        if Live(c, i.id.value) then Fetching(n, c.brokers[i.id.value].broker.value) else Leaving(None)
      else if i.failures < |s.configs| then Fetching(n, |c.made| + i.failures)
      else Leaving(None)
    case Fetching(n, b) =>
      if i.Response? then Applying(i.r) else if i.Result? then Closing(n, b, i.code) else s.threads[k].pc
    case Closing(n, _, err) => Recording(n, err)
    case Recording(n, _) => Leaving(if n < s.retries then Some(n + 1) else None)
    case Applying(_) => Stamping
    case Stamping => Looking(false)
    case Leaving(again) => if again.Some? then Asking(again.value) else Looking(false)
    case Reporting => Finished(if s.lastError != NO_ERROR then s.lastError else UNKNOWN_PARTITION)
    case Connecting(b) =>
      if i == Result(NO_ERROR) then Calling(b) else if i.Result? then Dropping(b, i.code) else s.threads[k].pc
    case Calling(b) =>
      if i.Result? then Dropping(b, i.code)
      else if i.Acked? then if Stale(i.code) then Forgetting(i.code) else Finished(i.code)
      else s.threads[k].pc
    case Dropping(_, err) => Finished(err)
    case Forgetting(err) => Finished(err)
    case pc => pc
  }

  function NewError(s: State, k: nat, i: Input): int
    requires k < |s.threads|
  {
    match s.threads[k].pc
    case Picking(_) =>
      if !i.Choice? || i.id.Some? then s.lastError
      else if i.failures < |s.configs| then NO_ERROR
      else if |s.configs| > 0 then i.err else s.lastError
    case Recording(_, err) => err
    case Applying(_) => NO_ERROR
    case _ => s.lastError
  }

  function Advance(s: State, k: nat, i: Input): State
    requires k < |s.threads|
  {
    var t := s.threads[k];
    var pc := NewPc(s, k, i);
    s.(cache := NewCache(s, k, i),
       threads := s.threads[k := Thread(t.partition, pc, if pc.Fetching? then t.fetches + 1 else t.fetches,
                                        if t.pc.Asking? then s.now else t.since)],
       mu := if NeedsMu(t.pc) then None else s.mu,
       metaMu := if InMeta(t.pc) && !InMeta(pc) then None else s.metaMu,
       lastError := NewError(s, k, i),
       lastFetch := if t.pc.Stamping? then s.now else s.lastFetch,
       askedAt := if pc.Fetching? then s.now else s.askedAt,
       log := if t.pc.Stamping? then s.log + [Fetched(s.askedAt, s.now)] else s.log)
  }

  // ---------- runs ----------

  datatype Event =
    | Begin(partition: Key)         // a new call of produce()
    | Tick                          // the clock never goes back
    | Lost(broker: nat)             // a connection closes by itself
    | LockMu(k: nat)
    | LockMeta(k: nat)
    | Run(k: nat, input: Input)

  ghost predicate Enabled(s: State, e: Event) {
    !s.cache.fault &&
    match e
    case Begin(_) => true
    case Tick => true
    case Lost(b) => b < |s.cache.made|
    case LockMu(k) => k < |s.threads| && NeedsMu(s.threads[k].pc) && s.mu.None?
    case LockMeta(k) => k < |s.threads| && s.threads[k].pc.Queued? && s.metaMu.None?
    case Run(k, i) =>
      && k < |s.threads| && Accepts(s, s.threads[k].pc, i)
      && (NeedsMu(s.threads[k].pc) ==> s.mu == Some(k))
  }

  function Step(s: State, e: Event): State {
    match e
    case Begin(p) => s.(threads := s.threads + [Thread(p, Looking(true), 0, 0)])
    case Tick => s.(now := s.now + 1)
    case Lost(b) => s.(cache := s.cache.(closed := s.cache.closed + {b}))
    case LockMu(k) => s.(mu := Some(k))
    case LockMeta(k) => if k < |s.threads| then Advance(s, k, Nothing).(metaMu := Some(k)) else s
    case Run(k, i) => if k < |s.threads| then Advance(s, k, i) else s
  }

  ghost predicate RunOf(s: State, es: seq<Event>)
    decreases |es|
  {
    es == [] || (Enabled(s, es[0]) && RunOf(Step(s, es[0]), es[1..]))
  }

  function After(s: State, es: seq<Event>): State
    decreases |es|
  {
    if es == [] then s else After(Step(s, es[0]), es[1..])
  }

  lemma RunOne(s: State, e: Event)
    requires Enabled(s, e)
    ensures RunOf(s, [e]) && After(s, [e]) == Step(s, e)
  {
    hide Enabled, Step;
    assert [e][1..] == [];
  }

  lemma {:induction false} RunAppend(s: State, es: seq<Event>, fs: seq<Event>)
    requires RunOf(s, es) && RunOf(After(s, es), fs)
    ensures RunOf(s, es + fs) && After(s, es + fs) == After(After(s, es), fs)
    decreases |es|
  {
    hide Enabled, Step;
    if es == [] {
      assert es + fs == fs;
    } else {
      assert (es + fs)[1..] == es[1..] + fs;
      RunAppend(Step(s, es[0]), es[1..], fs);
    }
  }

  lemma RunSnoc(s: State, es: seq<Event>, e: Event)
    requires RunOf(s, es) && Enabled(After(s, es), e)
    ensures RunOf(s, es + [e]) && After(s, es + [e]) == Step(After(s, es), e)
  {
    hide Enabled, Step;
    RunOne(After(s, es), e);
    RunAppend(s, es, [e]);
  }

  // ---------- what every reachable state keeps ----------

  function Bound(s: State): nat {
    if s.retries < 0 then 0 else s.retries
  }

  /** mu_ is held by a thread in a section that needs it, meta_fetch_mu_ exactly by the one thread refreshing. */
  ghost predicate LocksSound(s: State) {
    && (s.mu.Some? ==> s.mu.value < |s.threads| && NeedsMu(s.threads[s.mu.value].pc))
    && (s.metaMu.Some? ==> s.metaMu.value < |s.threads| && InMeta(s.threads[s.metaMu.value].pc))
    && (forall k :: 0 <= k < |s.threads| && InMeta(s.threads[k].pc) ==> s.metaMu == Some(k))
  }

  /** No fetch beyond the allowed attempts. */
  predicate Frugal(bound: nat, t: Thread) {
    match t.pc
    case Looking(refresh) => t.fetches <= if refresh then 0 else bound + 1
    case Asking(n) => n <= bound && t.fetches <= n
    case Queued(n, _) => n <= bound && t.fetches <= n
    case Checking(n, _) => n <= bound && t.fetches <= n
    case Picking(n) => n <= bound && t.fetches <= n
    case Fetching(n, _) => n <= bound && t.fetches <= n + 1
    case Closing(n, _, _) => n <= bound && t.fetches <= n + 1
    case Recording(n, _) => n <= bound && t.fetches <= n + 1
    case Leaving(again) =>
      if again.Some? then again.value <= bound && t.fetches <= again.value else t.fetches <= bound + 1
    case _ => t.fetches <= bound + 1
  }

  /** Connections in use were made, requests are no younger than the clock, and what is reported as an error is one. */
  predicate InBounds(made: nat, now: nat, pc: Pc) {
    match pc
    case Queued(_, at) => 0 < at <= now
    case Checking(_, at) => 0 < at <= now
    case Fetching(_, b) => b < made
    case Closing(_, b, err) => b < made && err != NO_ERROR
    case Recording(_, err) => err != NO_ERROR
    case Connecting(b) => b < made
    case Calling(b) => b < made
    case Dropping(b, err) => b < made && err != NO_ERROR
    case Forgetting(err) => err != NO_ERROR
    case _ => true
  }

  ghost predicate ThreadsSound(s: State) {
    forall k :: 0 <= k < |s.threads| ==>
      Frugal(Bound(s), s.threads[k]) && InBounds(|s.cache.made|, s.now, s.threads[k].pc)
  }

  /** last_meta_fetch_ is when the latest successful fetch was completed, and the clock is not behind it. */
  predicate ClockSound(s: State) {
    && s.now > 0 && s.lastFetch <= s.now
    && s.lastFetch == (if s.log == [] then 0 else s.log[|s.log| - 1].doneAt)
    && (forall i :: 0 <= i < |s.log| ==> s.log[i].doneAt <= s.lastFetch)
  }

  ghost predicate Inv(s: State) {
    LocksSound(s) && ThreadsSound(s) && ClockSound(s) && WellFormed(s.cache)
  }

  lemma CacheSound(s: State, k: nat, i: Input)
    requires Inv(s) && k < |s.threads| && Accepts(s, s.threads[k].pc, i)
    ensures WellFormed(NewCache(s, k, i)) && s.cache.made <= NewCache(s, k, i).made
  {
    hide Apply, CloseBroker, Lookup, Forget, Dial;
    var c := s.cache;
    assert InBounds(|c.made|, s.now, s.threads[k].pc);
    match s.threads[k].pc
    case Looking(_) => LookupFound(c, s.threads[k].partition);
    case Picking(_) => if i.id.None? { DialWellFormed(c, s.configs, i.failures); }
    case Closing(_, b, _) => CloseKeeps(c, b);
    case Dropping(b, _) => CloseKeeps(c, b);
    case Applying(r) => ApplyWellFormed(c, r);
    case Forgetting(_) => ForgetKeeps(c, s.threads[k].partition);
    case _ =>
  }

  lemma CloseKeeps(c: Cache, b: nat)
    requires WellFormed(c) && b < |c.made|
    ensures WellFormed(CloseBroker(c, b)) && CloseBroker(c, b).made == c.made
  {}

  lemma ForgetKeeps(c: Cache, p: Key)
    requires WellFormed(c)
    ensures WellFormed(Forget(c, p)) && Forget(c, p).made == c.made
  {}

  lemma PcFrugal(s: State, k: nat, i: Input)
    requires k < |s.threads| && Frugal(Bound(s), s.threads[k])
    requires Accepts(s, s.threads[k].pc, i) || s.threads[k].pc.Queued?
    ensures Frugal(Bound(s), Advance(s, k, i).threads[k])
  {
    hide NewCache, NewError, Lookup, GoodChoice;
  }

  lemma PcInBounds(s: State, k: nat, i: Input)
    requires Inv(s) && k < |s.threads|
    requires Accepts(s, s.threads[k].pc, i) || s.threads[k].pc.Queued?
    ensures InBounds(|NewCache(s, k, i).made|, s.now, NewPc(s, k, i))
  {
    hide Apply, CloseBroker, Lookup, Forget, Dial, Frugal, LocksSound;
    var pc := s.threads[k].pc;
    assert InBounds(|s.cache.made|, s.now, pc);
    if pc.Looking? { LookupFound(s.cache, s.threads[k].partition); }
    if pc.Picking? && i.id.None? { DialWellFormed(s.cache, s.configs, i.failures); }
    if !pc.Queued? { CacheSound(s, k, i); }
  }

  lemma AdvanceThreads(s: State, k: nat, i: Input)
    requires Inv(s) && k < |s.threads|
    requires Accepts(s, s.threads[k].pc, i) || s.threads[k].pc.Queued?
    ensures ThreadsSound(Advance(s, k, i))
  {
    hide NewPc, NewCache, WellFormed, Accepts;
    PcFrugal(s, k, i);
    PcInBounds(s, k, i);
    var t := Advance(s, k, i);
    if s.threads[k].pc.Queued? { QueuedCache(s, k, i); } else { CacheSound(s, k, i); }
    forall j | 0 <= j < |t.threads|
      ensures Frugal(Bound(t), t.threads[j]) && InBounds(|t.cache.made|, t.now, t.threads[j].pc)
    {
      if j != k { assert Frugal(Bound(s), s.threads[j]) && InBounds(|s.cache.made|, s.now, s.threads[j].pc); }
    }
  }

  lemma QueuedCache(s: State, k: nat, i: Input)
    requires k < |s.threads| && s.threads[k].pc.Queued?
    ensures NewCache(s, k, i) == s.cache
  {}

  lemma AdvanceLocks(s: State, k: nat, i: Input)
    requires LocksSound(s) && k < |s.threads| && !Ended(s.threads[k].pc)
    requires !s.threads[k].pc.Queued? && (NeedsMu(s.threads[k].pc) ==> s.mu == Some(k))
    ensures LocksSound(Advance(s, k, i))
  {
    EntersMeta(s, k, i);
    hide NewPc, NewCache, NewError;
  }

  /** meta_fetch_mu_ is entered only by locking it. */
  lemma EntersMeta(s: State, k: nat, i: Input)
    requires k < |s.threads| && !s.threads[k].pc.Queued?
    ensures InMeta(NewPc(s, k, i)) ==> InMeta(s.threads[k].pc)
  {}

  lemma StepInv(s: State, e: Event)
    requires Inv(s) && Enabled(s, e)
    ensures Inv(Step(s, e))
  {
    hide NewPc, NewCache, NewError, GoodChoice, WellFormed, Frugal;
    match e
    case Begin(p) => BeginInv(s, p);
    case Tick => TickInv(s);
    case Lost(b) => LostInv(s, b);
    case LockMu(k) =>
    case LockMeta(k) => LockMetaInv(s, k);
    case Run(k, i) =>
      CacheSound(s, k, i);
      AdvanceThreads(s, k, i);
      AdvanceLocks(s, k, i);
  }

  lemma BeginInv(s: State, p: Key)
    requires Inv(s)
    ensures Inv(Step(s, Begin(p)))
  {}

  lemma TickInv(s: State)
    requires Inv(s)
    ensures Inv(Step(s, Tick))
  {}

  lemma LostInv(s: State, b: nat)
    requires Inv(s) && b < |s.cache.made|
    ensures Inv(Step(s, Lost(b)))
  {}

  lemma LockMetaInv(s: State, k: nat)
    requires Inv(s) && Enabled(s, LockMeta(k))
    ensures Inv(Step(s, LockMeta(k)))
  {
    AdvanceThreads(s, k, Nothing);
    QueuedCache(s, k, Nothing);
    hide NewCache, WellFormed, Frugal, InBounds;
    var t := Step(s, LockMeta(k));
    assert t.threads[k].pc.Checking?;
    assert forall j :: 0 <= j < |s.threads| && j != k ==> t.threads[j] == s.threads[j];
  }

  lemma StartInv(retries: int, configs: seq<Broker>)
    ensures Inv(Start(retries, configs))
  {}

  lemma {:induction false} RunInv(s: State, es: seq<Event>)
    requires Inv(s) && RunOf(s, es)
    ensures Inv(After(s, es)) && After(s, es).retries == s.retries
    decreases |es|
  {
    if es != [] {
      hide Inv, Enabled, NewPc, NewCache, NewError;
      StepInv(s, es[0]);
      RunInv(Step(s, es[0]), es[1..]);
    }
  }
}
