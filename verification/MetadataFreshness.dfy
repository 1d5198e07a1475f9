/** How fresh the metadata is that a thread relies on, and how long what failed stays away. */
module MetadataFreshness {
  import opened Bytes
  import opened Protocol
  import opened MetadataModel
  import opened MetadataRuns

  // ---------- when a response was asked for ----------

  /** Between asking for a response and stamping or giving up. */
  predicate InFetch(pc: Pc) {
    pc.Fetching? || pc.Closing? || pc.Recording? || pc.Applying? || pc.Stamping?
  }

  /** A thread asked in the past, and a fetch of its own was started after that and after every fetch before it. */
  predicate TimedThread(s: State, t: Thread) {
    && t.since <= s.now
    && (InFetch(t.pc) ==> s.lastFetch <= s.askedAt && t.since <= s.askedAt)
    && (t.pc.Queued? ==> t.pc.requestedAt == t.since)
    && (t.pc.Checking? ==> t.pc.requestedAt == t.since)
  }

  ghost predicate TimedThreads(s: State) {
    forall k :: 0 <= k < |s.threads| ==> TimedThread(s, s.threads[k])
  }

  /** Fetches follow one another. */
  predicate TimedLog(log: seq<Fetched>) {
    && (forall i :: 0 <= i < |log| ==> log[i].askedAt <= log[i].doneAt)
    && (forall i, j :: 0 <= i < j < |log| ==> log[i].doneAt <= log[j].askedAt)
  }

  ghost predicate Timed(s: State) {
    s.askedAt <= s.now && TimedThreads(s) && TimedLog(s.log)
  }

  /** The thread that moves. */
  lemma MoverTimed(s: State, k: nat, i: Input)
    requires Inv(s) && Timed(s) && k < |s.threads|
    requires Accepts(s, s.threads[k].pc, i) || s.threads[k].pc.Queued?
    ensures var t := Advance(s, k, i); t.askedAt <= t.now && TimedThread(t, t.threads[k])
  {
    hide WellFormed, LocksSound, ThreadsSound, NewCache, NewError, GoodChoice, Lookup;
    assert TimedThread(s, s.threads[k]);
  }

  /** The clock of the fetches moves only with meta_fetch_mu_, which nobody else holds then. */
  lemma ClockByHolder(s: State, k: nat, i: Input)
    requires k < |s.threads| && !s.threads[k].pc.Queued? && !InMeta(s.threads[k].pc)
    ensures var t := Advance(s, k, i); t.askedAt == s.askedAt && t.lastFetch == s.lastFetch && t.log == s.log
  {
    hide Lookup, NewCache, NewError;
  }

  lemma OthersTimed(s: State, k: nat, i: Input)
    requires Inv(s) && Timed(s) && k < |s.threads| && Accepts(s, s.threads[k].pc, i) && !s.threads[k].pc.Queued?
    ensures forall j :: 0 <= j < |s.threads| && j != k ==> TimedThread(Advance(s, k, i), s.threads[j])
  {
    if !InMeta(s.threads[k].pc) { ClockByHolder(s, k, i); }
    hide NewPc, NewCache, NewError, WellFormed, Accepts;
    forall j | 0 <= j < |s.threads| && j != k ensures TimedThread(Advance(s, k, i), s.threads[j]) {
      assert TimedThread(s, s.threads[j]);
    }
  }

  lemma LogTimed(s: State, k: nat, i: Input)
    requires Inv(s) && Timed(s) && k < |s.threads|
    ensures TimedLog(Advance(s, k, i).log)
  {
    hide NewPc, NewCache, NewError, WellFormed, LocksSound, ThreadsSound;
    assert TimedThread(s, s.threads[k]);
  }

  lemma RunTimed(s: State, k: nat, i: Input)
    requires Inv(s) && Timed(s) && Enabled(s, Run(k, i))
    ensures Timed(Advance(s, k, i))
  {
    MoverTimed(s, k, i);
    NotQueued(s, k, i);
    OthersTimed(s, k, i);
    LogTimed(s, k, i);
    hide NewPc, NewCache, NewError, Inv, Accepts, TimedThread;
  }

  lemma NotQueued(s: State, k: nat, i: Input)
    requires k < |s.threads| && Accepts(s, s.threads[k].pc, i)
    ensures !s.threads[k].pc.Queued?
  {}

  lemma LockTimed(s: State, k: nat)
    requires Inv(s) && Timed(s) && Enabled(s, LockMeta(k))
    ensures Timed(Step(s, LockMeta(k)))
  {
    MoverTimed(s, k, Nothing);
    hide NewCache, NewError, Inv;
    var t := Step(s, LockMeta(k));
    forall j | 0 <= j < |t.threads| ensures TimedThread(t, t.threads[j]) {
      if j != k { assert TimedThread(s, s.threads[j]); }
    }
  }

  lemma StepTimed(s: State, e: Event)
    requires Inv(s) && Timed(s) && Enabled(s, e)
    ensures Timed(Step(s, e))
  {
    match e
    case LockMeta(k) => LockTimed(s, k);
    case Run(k, i) => RunTimed(s, k, i);
    case _ =>
      hide Inv, NewPc, NewCache, NewError, Accepts;
      var t := Step(s, e);
      forall j | 0 <= j < |t.threads| ensures TimedThread(t, t.threads[j]) {
        if j < |s.threads| { assert TimedThread(s, s.threads[j]); }
      }
  }

  lemma {:induction false} RunTimedFrom(s: State, es: seq<Event>)
    requires Inv(s) && Timed(s) && RunOf(s, es)
    ensures Inv(After(s, es)) && Timed(After(s, es))
    decreases |es|
  {
    if es != [] {
      StepInv(s, es[0]);
      StepTimed(s, es[0]);
      hide Inv, Enabled, Step, Timed;
      RunTimedFrom(Step(s, es[0]), es[1..]);
    }
  }

  /** Some successful fetch was asked for at or after this time. */
  ghost predicate Fresh(s: State, at: nat) {
    exists i :: 0 <= i < |s.log| && s.log[i].askedAt >= at
  }

  /** Fetches do not overlap, so the last one is the freshest. */
  lemma FreshIsLast(s: State, at: nat)
    requires Timed(s)
    ensures Fresh(s, at) <==> s.log != [] && s.log[|s.log| - 1].askedAt >= at
  {
    if Fresh(s, at) {
      var i :| 0 <= i < |s.log| && s.log[i].askedAt >= at;
      assert s.log[i].askedAt <= s.log[i].doneAt;
      assert i < |s.log| - 1 ==> s.log[i].doneAt <= s.log[|s.log| - 1].askedAt;
    }
  }

  /**
   In every run: a thread that fetches gets a response asked for after its own request. One
   that skips its fetch does so whenever there is such a response; but it also skips, without
   one, exactly if the last fetch was in flight when it asked.
   */
  lemma FreshExact(retries: int, configs: seq<Broker>, es: seq<Event>, k: nat)
    requires RunOf(Start(retries, configs), es) && k < |After(Start(retries, configs), es).threads|
    ensures var s := After(Start(retries, configs), es);
      var pc := s.threads[k].pc;
      && (pc.Stamping? ==> s.askedAt >= s.threads[k].since)
      && (pc.Checking? ==>
            var skips, at, last := NewPc(s, k, Nothing) == Looking(false), pc.requestedAt, |s.log| - 1;
            && (Fresh(s, at) <==> s.log != [] && s.log[last].askedAt >= at)
            && (Fresh(s, at) ==> skips)
            && (skips && !Fresh(s, at) <==> s.log != [] && s.log[last].askedAt < at <= s.log[last].doneAt))
  {
    StartInv(retries, configs);
    RunTimedFrom(Start(retries, configs), es);
    var s := After(Start(retries, configs), es);
    hide RunOf, After, WellFormed, LocksSound, Start;
    var t := s.threads[k];
    assert TimedThread(s, t) && InBounds(|s.cache.made|, s.now, t.pc);
    if t.pc.Checking? { FreshIsLast(s, t.pc.requestedAt); }
  }

  // ---------- what stays away ----------

  /** A closed connection stays closed. */
  lemma StaysClosed(s: State, k: nat, i: Input, b: nat)
    requires k < |s.threads| && b in s.cache.closed
    ensures b in NewCache(s, k, i).closed
  {
    var c := s.cache;
    match s.threads[k].pc
    case Applying(r) =>
      ListKeeps(c, r.brokers);
      hide ListBrokers, Leaders;
    case _ =>
  }

  /** A closed connection is not handed out. */
  lemma NotHandedOut(s: State, k: nat, i: Input, b: nat)
    requires Inv(s) && Enabled(s, Run(k, i)) && b in s.cache.closed
    ensures NewPc(s, k, i) != Connecting(b)
  {
    if s.threads[k].pc.Looking? { LookupFound(s.cache, s.threads[k].partition); }
    hide WellFormed, LocksSound, ThreadsSound, GoodChoice, Lookup;
  }

  lemma ClosedStep(s: State, e: Event, b: nat)
    requires Inv(s) && Enabled(s, e) && b in s.cache.closed
    ensures var t := Step(s, e);
      && b in t.cache.closed
      && forall k :: 0 <= k < |t.threads| && t.threads[k].pc == Connecting(b) ==>
           k < |s.threads| && s.threads[k].pc == Connecting(b)
  {
    hide Inv, NewCache, NewError, Accepts;
    match e
    case Run(k, i) =>
      StaysClosed(s, k, i, b);
      NotHandedOut(s, k, i, b);
      hide NewPc;
    case LockMeta(k) => StaysClosed(s, k, Nothing, b);
    case _ => hide NewPc;
  }

  lemma {:induction false} ClosedFrom(s: State, es: seq<Event>, b: nat)
    requires Inv(s) && RunOf(s, es) && b in s.cache.closed
    ensures var t := After(s, es);
      && b in t.cache.closed
      && forall k :: 0 <= k < |t.threads| && t.threads[k].pc == Connecting(b) ==>
           k < |s.threads| && s.threads[k].pc == Connecting(b)
    decreases |es|
  {
    if es != [] {
      StepInv(s, es[0]);
      ClosedStep(s, es[0], b);
      hide Inv, Enabled, Step;
      ClosedFrom(Step(s, es[0]), es[1..], b);
    }
  }

  /**
   In every run, a connection that is closed, by whomever, stays closed and is handed to no
   further call: whoever is about to use it later was about to use it already.
   */
  lemma ClosedNeverReused(retries: int, configs: seq<Broker>, before: seq<Event>, rest: seq<Event>, b: nat, k: nat)
    requires RunOf(Start(retries, configs), before) && RunOf(After(Start(retries, configs), before), rest)
    requires b in After(Start(retries, configs), before).cache.closed
    requires var t := After(After(Start(retries, configs), before), rest);
      k < |t.threads| && t.threads[k].pc == Connecting(b)
    ensures var s := After(Start(retries, configs), before);
      && b in After(s, rest).cache.closed
      && k < |s.threads| && s.threads[k].pc == Connecting(b)
  {
    StartInv(retries, configs);
    RunInv(Start(retries, configs), before);
    ClosedFrom(After(Start(retries, configs), before), rest, b);
  }

  /** No step of this run applies a metadata response. */
  ghost predicate NoRefresh(s: State, es: seq<Event>)
    decreases |es|
  {
    es == [] ||
    (!(es[0].Run? && es[0].k < |s.threads| && s.threads[es[0].k].pc.Applying?) && NoRefresh(Step(s, es[0]), es[1..]))
  }

  lemma UnknownStep(s: State, e: Event, p: Key)
    requires Enabled(s, e) && NoRefresh(s, [e]) && p !in s.cache.partitions
    ensures p !in Step(s, e).cache.partitions
  {
    hide Accepts, NewPc, NewError;
  }

  lemma {:induction false} UnknownFrom(s: State, es: seq<Event>, p: Key)
    requires RunOf(s, es) && NoRefresh(s, es) && p !in s.cache.partitions
    ensures p !in After(s, es).cache.partitions
    decreases |es|
  {
    if es != [] {
      assert NoRefresh(s, [es[0]]) by { assert [es[0]][1..] == []; }
      UnknownStep(s, es[0], p);
      hide Enabled, Step;
      UnknownFrom(Step(s, es[0]), es[1..], p);
    }
  }

  /**
   In every run, once a call of produce() has failed for its connection or for stale metadata
   and cleaned up, its partition stays unknown, whatever other calls do, until a refresh is
   applied; so the next call for it refreshes.
   */
  lemma UnknownUntilRefresh(retries: int, configs: seq<Broker>, before: seq<Event>, k: nat, rest: seq<Event>)
    requires RunOf(Start(retries, configs), before)
    requires var s := After(Start(retries, configs), before);
      && k < |s.threads| && (s.threads[k].pc.Dropping? || s.threads[k].pc.Forgetting?) && Enabled(s, Run(k, Nothing))
      && RunOf(Step(s, Run(k, Nothing)), rest) && NoRefresh(Step(s, Run(k, Nothing)), rest)
    ensures var s := After(Start(retries, configs), before);
      Lookup(After(Step(s, Run(k, Nothing)), rest).cache, s.threads[k].partition).1 == Unknown
  {
    StartInv(retries, configs);
    RunInv(Start(retries, configs), before);
    var s := After(Start(retries, configs), before);
    Cleaned(s, k);
    UnknownFrom(Step(s, Run(k, Nothing)), rest, s.threads[k].partition);
    hide RunOf, After, Step, Enabled, Inv;
  }

  lemma Cleaned(s: State, k: nat)
    requires Inv(s) && k < |s.threads| && (s.threads[k].pc.Dropping? || s.threads[k].pc.Forgetting?)
    ensures s.threads[k].partition !in Step(s, Run(k, Nothing)).cache.partitions
  {
    hide WellFormed, LocksSound, NewPc, NewError;
    assert InBounds(|s.cache.made|, s.now, s.threads[k].pc);
  }

  // ---------- what stays on record ----------

  /** The container of broker id holds connection b. */
  predicate OnRecord(c: Cache, id: int, b: nat) {
    id in c.brokers && c.brokers[id].broker == Some(b)
  }

  lemma RefreshKeeps(c: Cache, r: MetadataResponse, id: int, b: nat)
    requires WellFormed(c) && OnRecord(c, id, b)
    ensures OnRecord(Apply(c, r), id, b) || b in Apply(c, r).closed
  {
    var d := Apply(c, r);
    ListAllDrops(c, c, r.brokers);
    RemoveDrops(ListBrokers(c, r.brokers), Ids(r.brokers));
    ApplyWellFormed(c, r);
    assert b in Pointers(c.brokers);
    hide ListBrokers, Leaders, RemoveDead;
    if b in Pointers(d.brokers) {
      var j :| j in d.brokers && d.brokers[j].broker == Some(b);
      assert d.made[b].node == j && c.made[b].node == id;
    }
  }

  lemma CacheKeeps(s: State, k: nat, i: Input, id: int, b: nat)
    requires Inv(s) && k < |s.threads| && OnRecord(s.cache, id, b)
    ensures OnRecord(NewCache(s, k, i), id, b) || b in NewCache(s, k, i).closed
  {
    hide LocksSound, ThreadsSound, ClockSound;
    if s.threads[k].pc.Applying? { RefreshKeeps(s.cache, s.threads[k].pc.response, id, b); }
    hide Apply;
  }

  lemma {:induction false} KeptFrom(s: State, es: seq<Event>, id: int, b: nat)
    requires Inv(s) && RunOf(s, es) && (OnRecord(s.cache, id, b) || b in s.cache.closed)
    ensures OnRecord(After(s, es).cache, id, b) || b in After(s, es).cache.closed
    decreases |es|
  {
    if es != [] {
      StepInv(s, es[0]);
      KeptStep(s, es[0], id, b);
      hide Enabled, Step, Inv;
      KeptFrom(Step(s, es[0]), es[1..], id, b);
    }
  }

  lemma KeptStep(s: State, e: Event, id: int, b: nat)
    requires Inv(s) && Enabled(s, e) && (OnRecord(s.cache, id, b) || b in s.cache.closed)
    ensures OnRecord(Step(s, e).cache, id, b) || b in Step(s, e).cache.closed
  {
    hide Inv, NewCache, NewPc, NewError, Accepts;
    match e
    case Run(k, i) => if b in s.cache.closed { StaysClosed(s, k, i, b); } else { CacheKeeps(s, k, i, id, b); }
    case LockMeta(k) =>
      if b in s.cache.closed { StaysClosed(s, k, Nothing, b); } else { CacheKeeps(s, k, Nothing, id, b); }
    case _ =>
  }

  /**
   One connection for each leader: in every run, what a lookup hands out is handed out again,
   with nothing made, to every later lookup of a partition with the same leader, until it is
   closed; no connection is ever dropped open.
   */
  lemma ConnectionShared(
      retries: int, configs: seq<Broker>, before: seq<Event>, k: nat, b: nat, rest: seq<Event>, p: Key)
    requires RunOf(Start(retries, configs), before)
    requires var s := After(Start(retries, configs), before);
      && k < |s.threads| && s.threads[k].pc.Looking? && Lookup(s.cache, s.threads[k].partition).1 == Found(b)
      && Enabled(s, Run(k, Nothing)) && RunOf(Step(s, Run(k, Nothing)), rest)
      && var t := After(Step(s, Run(k, Nothing)), rest);
         && b !in t.cache.closed
         && p in t.cache.partitions && t.cache.partitions[p] == s.cache.partitions[s.threads[k].partition]
    ensures var s := After(Start(retries, configs), before);
      var t := After(Step(s, Run(k, Nothing)), rest);
      Lookup(t.cache, p) == (t.cache, Found(b))
  {
    StartInv(retries, configs);
    RunInv(Start(retries, configs), before);
    var s := After(Start(retries, configs), before);
    var u := Step(s, Run(k, Nothing));
    StepInv(s, Run(k, Nothing));
    LookupExact(s.cache, s.threads[k].partition);
    var id := s.cache.partitions[s.threads[k].partition];
    assert OnRecord(u.cache, id, b);
    hide Inv, Enabled, Step, RunOf, After;
    KeptFrom(u, rest, id, b);
  }
}
