/** The metadata cache over whole runs: one fetcher, bounded fetches, no deadlock, no unknown leader. */
module MetadataProperties {
  import opened Bytes
  import opened Protocol
  import opened MetadataModel
  import opened MetadataRuns

  // ---------- fetching ----------

  /**
   In every run at most one thread is refreshing, a call of produce() makes at most
   max(retries, 0) + 1 fetches, a thread about to wait for meta_fetch_mu_ does not hold mu_, and
   a thread skips its fetch exactly when one was completed at or after its request.
   */
  lemma FetchesCoalesce(retries: int, configs: seq<Broker>, es: seq<Event>)
    requires RunOf(Start(retries, configs), es)
    ensures var s := After(Start(retries, configs), es);
      && (forall j, k :: 0 <= j < k < |s.threads| ==> !(InMeta(s.threads[j].pc) && InMeta(s.threads[k].pc)))
      && (forall k :: 0 <= k < |s.threads| ==> s.threads[k].fetches <= 1 + if retries < 0 then 0 else retries)
      && (forall k :: 0 <= k < |s.threads| && s.threads[k].pc.Queued? ==> s.mu != Some(k) && s.metaMu != Some(k))
      && (forall k :: 0 <= k < |s.threads| && s.threads[k].pc.Checking? ==>
            (NewPc(s, k, Nothing) == Looking(false) <==>
               exists i :: 0 <= i < |s.log| && s.log[i].doneAt >= s.threads[k].pc.requestedAt))
  {
    StartInv(retries, configs);
    RunInv(Start(retries, configs), es);
    var s := After(Start(retries, configs), es);
    hide RunOf, After, WellFormed, Accepts;
    forall k | 0 <= k < |s.threads| ensures s.threads[k].fetches <= 1 + if retries < 0 then 0 else retries {
      assert Frugal(Bound(s), s.threads[k]);
    }
    forall k | 0 <= k < |s.threads| && s.threads[k].pc.Checking?
      ensures NewPc(s, k, Nothing) == Looking(false) <==>
        exists i :: 0 <= i < |s.log| && s.log[i].doneAt >= s.threads[k].pc.requestedAt
    {
      assert InBounds(|s.cache.made|, s.now, s.threads[k].pc);
    }
  }

  /** Something a thread does: taking a lock or a step. */
  predicate Working(e: Event) {
    e.LockMu? || e.LockMeta? || e.Run?
  }

  /** What to feed a thread that is not waiting for a lock. */
  lemma SomeInput(s: State, k: nat) returns (i: Input)
    requires k < |s.threads| && !s.threads[k].pc.Queued? && !Ended(s.threads[k].pc)
    ensures Accepts(s, s.threads[k].pc, i)
  {
    match s.threads[k].pc
    case Picking(_) =>
      if live :| live in s.cache.brokers && Live(s.cache, live) {
        var least := LeastLive(s.cache, live);
        i := Choice(Some(least), 0, 1, true);
      } else {
        i := Choice(None, 0, 1, true);
      }
    case Fetching(_, _) => i := Result(1);
    case Connecting(_) => i := Result(1);
    case Calling(_) => i := Result(1);
    case _ => i := Nothing;
  }

  lemma Movable(s: State, k: nat) returns (e: Event)
    requires Inv(s) && !s.cache.fault && k < |s.threads| && !Ended(s.threads[k].pc) && !s.threads[k].pc.Queued?
    ensures Working(e) && Enabled(s, e)
  {
    hide WellFormed, ThreadsSound;
    if s.mu.Some? {
      var i := SomeInput(s, s.mu.value);
      e := Run(s.mu.value, i);
    } else if NeedsMu(s.threads[k].pc) {
      e := LockMu(k);
    } else {
      var i := SomeInput(s, k);
      e := Run(k, i);
    }
  }

  /** The two locks cannot deadlock: while any call is unfinished, some thread can take a lock or a step. */
  lemma NoDeadlock(retries: int, configs: seq<Broker>, es: seq<Event>, k: nat)
    requires RunOf(Start(retries, configs), es)
    requires var s := After(Start(retries, configs), es); !s.cache.fault && k < |s.threads| && !Ended(s.threads[k].pc)
    ensures exists e :: Working(e) && Enabled(After(Start(retries, configs), es), e)
  {
    StartInv(retries, configs);
    RunInv(Start(retries, configs), es);
    var s := After(Start(retries, configs), es);
    hide RunOf, After, WellFormed, ThreadsSound;
    if !s.threads[k].pc.Queued? {
      var e := Movable(s, k);
    } else if s.metaMu.None? {
      assert Enabled(s, LockMeta(k));
    } else {
      var e := Movable(s, s.metaMu.value);
    }
  }

  // ---------- every call ends ----------

  /** More than the number of steps a thread has before it, for this many retries. */
  function Rank(bound: nat, pc: Pc): int {
    match pc
    case Looking(refresh) => if refresh then 10 * bound + 16 else 4
    case Asking(n) => 10 * (bound - n) + 15
    case Queued(n, _) => 10 * (bound - n) + 14
    case Checking(n, _) => 10 * (bound - n) + 13
    case Picking(n) => 10 * (bound - n) + 12
    case Fetching(n, _) => 10 * (bound - n) + 11
    case Closing(n, _, _) => 10 * (bound - n) + 10
    case Recording(n, _) => 10 * (bound - n) + 9
    case Applying(_) => 6
    case Stamping => 5
    case Leaving(again) => if again.Some? then 10 * (bound - again.value) + 16 else 5
    case Connecting(_) => 3
    case Calling(_) => 2
    case Reporting => 1
    case Dropping(_, _) => 1
    case Forgetting(_) => 1
    case Finished(_) => 0
    case Thrown => 0
  }

  function Ranks(bound: nat, ts: seq<Thread>): int {
    if ts == [] then 0 else 2 * Rank(bound, ts[0].pc) + Ranks(bound, ts[1..])
  }

  /** Twice the steps left, less the lock that is already held. */
  function Work(s: State): int {
    Ranks(Bound(s), s.threads) - if s.mu.Some? then 1 else 0
  }

  lemma {:induction false} RanksUpdate(bound: nat, ts: seq<Thread>, k: nat, t: Thread)
    requires k < |ts|
    ensures Ranks(bound, ts[k := t]) == Ranks(bound, ts) - 2 * Rank(bound, ts[k].pc) + 2 * Rank(bound, t.pc)
  {
    var us := ts[k := t];
    if k == 0 {
      assert us[1..] == ts[1..];
    } else {
      assert us[1..] == ts[1..][k - 1 := t];
      RanksUpdate(bound, ts[1..], k - 1, t);
    }
  }

  lemma {:induction false} RanksSnoc(bound: nat, ts: seq<Thread>, t: Thread)
    ensures Ranks(bound, ts + [t]) == Ranks(bound, ts) + 2 * Rank(bound, t.pc)
  {
    if ts == [] {
      assert ts + [t] == [t] && [t][1..] == [];
    } else {
      assert (ts + [t])[1..] == ts[1..] + [t];
      RanksSnoc(bound, ts[1..], t);
    }
  }

  lemma {:induction false} RanksPositive(bound: nat, ts: seq<Thread>)
    requires forall k :: 0 <= k < |ts| ==> Frugal(bound, ts[k])
    ensures Ranks(bound, ts) >= 0
    ensures forall k :: 0 <= k < |ts| && !Ended(ts[k].pc) ==> Ranks(bound, ts) >= 2
  {
    if ts != [] {
      assert Frugal(bound, ts[0]);
      RanksPositive(bound, ts[1..]);
      forall k | 0 <= k < |ts| && !Ended(ts[k].pc) ensures Ranks(bound, ts) >= 2 {
        if k > 0 { assert ts[1..][k - 1] == ts[k]; }
      }
    }
  }

  /** Every step of a thread brings it nearer to its end. */
  lemma RankDrops(s: State, k: nat, i: Input)
    requires Inv(s) && k < |s.threads|
    requires Accepts(s, s.threads[k].pc, i) || s.threads[k].pc.Queued?
    ensures Rank(Bound(s), NewPc(s, k, i)) < Rank(Bound(s), s.threads[k].pc)
  {
    hide WellFormed, LocksSound, GoodChoice, Lookup;
    assert Frugal(Bound(s), s.threads[k]);
  }

  lemma StepWorks(s: State, e: Event)
    requires Inv(s) && Enabled(s, e)
    ensures Working(e) ==> Work(Step(s, e)) < Work(s)
    ensures !Working(e) ==> Work(Step(s, e)) == Work(s) + if e.Begin? then 20 * Bound(s) + 32 else 0
  {
    hide WellFormed, ThreadsSound, NewCache, NewError, NewPc, Accepts, Rank;
    match e
    case Begin(p) =>
      RanksSnoc(Bound(s), s.threads, Thread(p, Looking(true), 0, 0));
      assert Rank(Bound(s), Looking(true)) == 10 * Bound(s) + 16 by { LookingRank(Bound(s)); }
    case LockMeta(k) => AdvanceWorks(s, k, Nothing);
    case Run(k, i) =>
      AcceptsNotQueued(s, k, i);
      AdvanceWorks(s, k, i);
    case _ =>
  }

  lemma LookingRank(bound: nat)
    ensures Rank(bound, Looking(true)) == 10 * bound + 16
  {}

  lemma AcceptsNotQueued(s: State, k: nat, i: Input)
    requires k < |s.threads| && Accepts(s, s.threads[k].pc, i)
    ensures !s.threads[k].pc.Queued?
  {}

  lemma AdvanceWorks(s: State, k: nat, i: Input)
    requires Inv(s) && k < |s.threads|
    requires Accepts(s, s.threads[k].pc, i) || s.threads[k].pc.Queued?
    ensures Ranks(Bound(s), Advance(s, k, i).threads) <= Ranks(Bound(s), s.threads) - 2
  {
    RankDrops(s, k, i);
    hide WellFormed, ThreadsSound, LocksSound, NewCache, NewError, NewPc, Accepts, Rank;
    var t := Advance(s, k, i);
    RanksUpdate(Bound(s), s.threads, k, t.threads[k]);
  }

  function Steps(es: seq<Event>): nat
    decreases |es|
  {
    if es == [] then 0 else (if Working(es[0]) then 1 else 0) + Steps(es[1..])
  }

  function Begins(es: seq<Event>): nat
    decreases |es|
  {
    if es == [] then 0 else (if es[0].Begin? then 1 else 0) + Begins(es[1..])
  }

  /** So much for each call made. */
  function Budget(cost: nat, es: seq<Event>): nat
    decreases |es|
  {
    if es == [] then 0 else (if es[0].Begin? then cost else 0) + Budget(cost, es[1..])
  }

  lemma {:induction false} BudgetIs(cost: nat, es: seq<Event>)
    ensures Budget(cost, es) == cost * Begins(es)
    decreases |es|
  {
    if es != [] { BudgetIs(cost, es[1..]); }
  }

  lemma {:induction false} RunWorks(s: State, cost: nat, es: seq<Event>)
    requires Inv(s) && RunOf(s, es) && cost == 20 * Bound(s) + 32
    ensures Steps(es) + Work(After(s, es)) <= Work(s) + Budget(cost, es)
    decreases |es|
  {
    if es != [] {
      StepInv(s, es[0]);
      StepWorks(s, es[0]);
      var t := Step(s, es[0]);
      hide Inv, Enabled, NewPc, NewCache, NewError, Work;
      RunWorks(t, cost, es[1..]);
    }
  }

  /**
   Every produce() ends: in any run its threads together take at most 20 * max(retries, 0) + 32
   steps for each call made, locks included, and by NoDeadlock one can be taken until all have ended.
   */
  lemma EveryCallEnds(retries: int, configs: seq<Broker>, es: seq<Event>)
    requires RunOf(Start(retries, configs), es)
    ensures Steps(es) <= (20 * (if retries < 0 then 0 else retries) + 32) * Begins(es)
  {
    var s := Start(retries, configs);
    StartInv(retries, configs);
    RunWorks(s, 20 * Bound(s) + 32, es);
    BudgetIs(20 * Bound(s) + 32, es);
    RunInv(s, es);
    var t := After(s, es);
    hide RunOf, After, WellFormed;
    RanksPositive(Bound(t), t.threads);
    if t.mu.Some? { assert !Ended(t.threads[t.mu.value].pc); }
  }

  // ---------- the branch that can't happen ----------

  /** The responses of a run all list their leaders. */
  ghost predicate Trusted(es: seq<Event>) {
    forall i :: 0 <= i < |es| && es[i].Run? && es[i].input.Response? ==> LeadersListed(es[i].input.r)
  }

  /** Every cached leader is known, what is about to be applied lists its leaders, and nobody has thrown. */
  ghost predicate Safe(s: State) {
    && (!s.cache.fault ==> Covered(s.cache))
    && (forall k :: 0 <= k < |s.threads| ==> !s.threads[k].pc.Thrown?)
    && (forall k :: 0 <= k < |s.threads| && s.threads[k].pc.Applying? ==> LeadersListed(s.threads[k].pc.response))
  }

  lemma CacheCovered(s: State, k: nat, i: Input)
    requires Inv(s) && Safe(s) && !s.cache.fault && k < |s.threads|
    ensures !NewCache(s, k, i).fault ==> Covered(NewCache(s, k, i))
  {
    hide LocksSound, ThreadsSound, ClockSound, Apply, LeadersListed;
    var c := s.cache;
    match s.threads[k].pc
    case Looking(_) => LookupFound(c, s.threads[k].partition);
    case Applying(r) => if !Apply(c, r).fault { CoveredIffListed(c, r); }
    case _ =>
  }

  lemma PcSafe(s: State, k: nat, i: Input)
    requires Safe(s) && WellFormed(s.cache) && !s.cache.fault && k < |s.threads|
    requires i.Response? ==> LeadersListed(i.r)
    ensures var pc := NewPc(s, k, i); !pc.Thrown? && (pc.Applying? ==> LeadersListed(pc.response))
  {}

  lemma AdvanceSafe(s: State, k: nat, i: Input)
    requires Inv(s) && Safe(s) && !s.cache.fault && k < |s.threads|
    requires i.Response? ==> LeadersListed(i.r)
    ensures Safe(Advance(s, k, i))
  {
    CacheCovered(s, k, i);
    PcSafe(s, k, i);
    hide NewCache, NewPc, NewError, Inv, Covered, LeadersListed;
    var t := Advance(s, k, i);
    assert forall j :: 0 <= j < |s.threads| && j != k ==> t.threads[j] == s.threads[j];
  }

  lemma StepSafe(s: State, e: Event)
    requires Inv(s) && Safe(s) && Enabled(s, e) && (e.Run? && e.input.Response? ==> LeadersListed(e.input.r))
    ensures Safe(Step(s, e))
  {
    hide NewCache, NewPc, NewError, Inv, LeadersListed;
    match e
    case LockMeta(k) => AdvanceSafe(s, k, Nothing); SafeLock(Advance(s, k, Nothing), k);
    case Run(k, i) => AdvanceSafe(s, k, i);
    case _ =>
  }

  lemma SafeLock(s: State, k: nat)
    requires Safe(s)
    ensures Safe(s.(metaMu := Some(k)))
  {}

  lemma {:induction false} RunSafe(s: State, es: seq<Event>)
    requires Inv(s) && Safe(s) && RunOf(s, es) && Trusted(es)
    ensures Safe(After(s, es))
    decreases |es|
  {
    if es != [] {
      hide Inv, Enabled, NewPc, NewCache, NewError, Safe, LeadersListed;
      StepInv(s, es[0]);
      StepSafe(s, es[0]);
      RunSafe(Step(s, es[0]), es[1..]);
    }
  }

  /** If every metadata response lists its leaders, no interleaving reaches the branch that throws. */
  lemma CannotHappen(retries: int, configs: seq<Broker>, es: seq<Event>)
    requires RunOf(Start(retries, configs), es) && Trusted(es)
    ensures var s := After(Start(retries, configs), es);
      && (forall p :: !s.cache.fault && p in s.cache.partitions && s.cache.partitions[p] >= 0 ==>
            s.cache.partitions[p] in s.cache.brokers)
      && (forall k :: 0 <= k < |s.threads| ==> !s.threads[k].pc.Thrown?)
  {
    StartInv(retries, configs);
    RunSafe(Start(retries, configs), es);
  }

  /** The condition is exact: after a refresh, some lookup throws precisely when the response left a leader out. */
  lemma ThrowsIffUnlisted(c: Cache, r: MetadataResponse)
    requires WellFormed(c) && !c.fault && !Apply(c, r).fault
    ensures (exists p :: Lookup(Apply(c, r), p).1 == Impossible) <==> !LeadersListed(r)
  {
    CoveredIffListed(c, r);
    ApplyWellFormed(c, r);
    var d := Apply(c, r);
    hide Apply, LeadersListed;
    forall p
      ensures Lookup(d, p).1 == Impossible <==>
        p in d.partitions && d.partitions[p] >= 0 && d.partitions[p] !in d.brokers
    {
      LookupFound(d, p);
    }
    if !Covered(d) {
      var p :| p in d.partitions && d.partitions[p] >= 0 && d.partitions[p] !in d.brokers;
      assert Lookup(d, p).1 == Impossible;
    }
  }

  // ---------- the error of the last refresh ----------

  /** last_meta_error_ is clear when a refresh has succeeded and set when one is about to be tried again. */
  ghost predicate Told(s: State) {
    forall k :: 0 <= k < |s.threads| ==>
      (s.threads[k].pc.Stamping? ==> s.lastError == NO_ERROR)
        && (s.threads[k].pc.Leaving? && s.threads[k].pc.again.Some? ==> s.lastError != NO_ERROR)
  }

  /** Only the thread that holds meta_fetch_mu_ touches the error. */
  lemma ErrorByHolder(s: State, k: nat, i: Input)
    requires k < |s.threads| && !InMeta(s.threads[k].pc)
    ensures NewError(s, k, i) == s.lastError
    ensures !s.threads[k].pc.Queued? ==> !NewPc(s, k, i).Stamping? && !NewPc(s, k, i).Leaving?
  {
    hide Lookup;
  }

  lemma HolderTold(s: State, k: nat, i: Input)
    requires Inv(s) && Told(s) && k < |s.threads| && Accepts(s, s.threads[k].pc, i) && InMeta(s.threads[k].pc)
    ensures var pc := NewPc(s, k, i);
      && (pc.Stamping? ==> NewError(s, k, i) == NO_ERROR)
      && (pc.Leaving? && pc.again.Some? ==> NewError(s, k, i) != NO_ERROR)
  {
    hide WellFormed, LocksSound, GoodChoice;
    assert InBounds(|s.cache.made|, s.now, s.threads[k].pc);
  }

  lemma RunTold(s: State, k: nat, i: Input)
    requires Inv(s) && Told(s) && Enabled(s, Run(k, i))
    ensures Told(Advance(s, k, i))
  {
    var t := Advance(s, k, i);
    if InMeta(s.threads[k].pc) {
      HolderTold(s, k, i);
      assert forall j :: 0 <= j < |s.threads| && j != k ==> !InMeta(s.threads[j].pc);
    } else {
      AcceptsNotQueued(s, k, i);
      ErrorByHolder(s, k, i);
    }
    hide NewPc, NewCache, NewError, Inv, Accepts;
    assert forall j :: 0 <= j < |s.threads| && j != k ==> t.threads[j] == s.threads[j];
  }

  lemma StepTold(s: State, e: Event)
    requires Inv(s) && Told(s) && Enabled(s, e)
    ensures Told(Step(s, e))
  {
    hide NewCache, NewError, Inv, Accepts;
    match e
    case LockMeta(k) =>
      ErrorByHolder(s, k, Nothing);
      var t := Step(s, e);
      assert forall j :: 0 <= j < |s.threads| && j != k ==> t.threads[j] == s.threads[j];
    case Run(k, i) => RunTold(s, k, i);
    case _ => hide NewPc;
  }

  lemma {:induction false} RunToldFrom(s: State, es: seq<Event>)
    requires Inv(s) && Told(s) && RunOf(s, es)
    ensures Told(After(s, es))
    decreases |es|
  {
    if es != [] {
      StepInv(s, es[0]);
      StepTold(s, es[0]);
      hide Inv, Enabled, NewPc, NewCache, NewError, Told;
      RunToldFrom(Step(s, es[0]), es[1..]);
    }
  }

  /**
   In every run: no error is reported for a refresh that succeeded, and one that is tried again
   left its error behind.
   */
  lemma ErrorsTold(retries: int, configs: seq<Broker>, es: seq<Event>, k: nat)
    requires RunOf(Start(retries, configs), es) && k < |After(Start(retries, configs), es).threads|
    ensures var s := After(Start(retries, configs), es);
      && (s.threads[k].pc.Stamping? ==> s.lastError == NO_ERROR)
      && (s.threads[k].pc.Leaving? && s.threads[k].pc.again.Some? ==> s.lastError != NO_ERROR)
  {
    StartInv(retries, configs);
    RunToldFrom(Start(retries, configs), es);
  }
}
