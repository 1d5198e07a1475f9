/** Runs of the metadata cache that end where the code should not go, from the very start. */
module MetadataScenarios {
  import opened Bytes
  import opened Protocol
  import opened MetadataModel
  import opened MetadataRuns
  import opened MetadataProperties

  /** A state in which nobody holds a lock and thread k is at this place. */
  predicate At(s: State, k: nat, pc: Pc) {
    !s.cache.fault && s.mu.None? && k < |s.threads| && s.threads[k].pc == pc
  }

  function Moved(s: State, k: nat, pc: Pc): State
    requires k < |s.threads|
  {
    s.(threads := s.threads[k := s.threads[k].(pc := pc)])
  }

  // ---------- stretches of a run ----------

  /** A thread that needs mu_ takes it and runs its section. */
  lemma Section(s: State, k: nat, i: Input)
    requires !s.cache.fault && s.mu.None? && k < |s.threads| && NeedsMu(s.threads[k].pc)
      && Accepts(s, s.threads[k].pc, i)
    ensures RunOf(s, [LockMu(k), Run(k, i)])
    ensures After(s, [LockMu(k), Run(k, i)]) == Advance(s.(mu := Some(k)), k, i)
  {
    hide NewPc, NewCache, NewError;
    var t := s.(mu := Some(k));
    assert Step(s, LockMu(k)) == t;
    AcceptsSame(s, t, k, i);
    RunOne(s, LockMu(k));
    RunSnoc(s, [LockMu(k)], Run(k, i));
    assert [LockMu(k)] + [Run(k, i)] == [LockMu(k), Run(k, i)];
  }

  lemma AcceptsSame(s: State, t: State, k: nat, i: Input)
    requires k < |s.threads| && t == s.(mu := t.mu) && Accepts(s, s.threads[k].pc, i)
    ensures Accepts(t, t.threads[k].pc, i)
  {}

  function Call(k: nat, p: Key): seq<Event> {
    [Begin(p)] + [LockMu(k), Run(k, Nothing)]
  }

  /** A new call that does not know its partition goes to refresh. */
  lemma CallRuns(s: State, p: Key)
    requires !s.cache.fault && s.mu.None? && p !in s.cache.partitions
    ensures RunOf(s, Call(|s.threads|, p))
    ensures After(s, Call(|s.threads|, p)) == s.(threads := s.threads + [Thread(p, Asking(0), 0, 0)])
  {
    hide NewCache, NewError, NewPc;
    var k := |s.threads|;
    RunOne(s, Begin(p));
    var t := Step(s, Begin(p));
    Section(t, k, Nothing);
    RunAppend(s, [Begin(p)], [LockMu(k), Run(k, Nothing)]);
    var u := t.(mu := Some(k));
    LooksInVain(u, k);
    assert Advance(u, k, Nothing).threads == s.threads + [Thread(p, Asking(0), 0, 0)];
  }

  lemma LooksInVain(s: State, k: nat)
    requires k < |s.threads| && s.threads[k].pc.Looking? && s.threads[k].partition !in s.cache.partitions
    ensures NewCache(s, k, Nothing) == s.cache && NewError(s, k, Nothing) == s.lastError
    ensures NewPc(s, k, Nothing) == if s.threads[k].pc.refresh then Asking(0) else Reporting
  {}

  function Put(s: State, k: nat, t: Thread): State
    requires k < |s.threads|
  {
    s.(threads := s.threads[k := t])
  }

  /** refresh_meta reads the clock and queues for meta_fetch_mu_. */
  lemma AskRuns(s: State, k: nat)
    requires At(s, k, Asking(0))
    ensures RunOf(s, [Run(k, Nothing)])
    ensures After(s, [Run(k, Nothing)]) == Put(s, k, s.threads[k].(pc := Queued(0, s.now), since := s.now))
  {
    hide Lookup, Apply, CloseBroker, Dial, Forget, NewCache, NewError;
    AskStep(s, k);
    RunOne(s, Run(k, Nothing));
  }

  lemma AskStep(s: State, k: nat)
    requires At(s, k, Asking(0))
    ensures NewCache(s, k, Nothing) == s.cache && NewError(s, k, Nothing) == s.lastError
  {}

  function Enter(k: nat): seq<Event> {
    [LockMeta(k)] + [Run(k, Nothing)]
  }

  /** The thread gets meta_fetch_mu_, and goes on to fetch or skips. */
  lemma EnterRuns(s: State, k: nat, at: nat)
    requires At(s, k, Queued(0, at)) && s.metaMu.None?
    ensures RunOf(s, Enter(k))
    ensures After(s, Enter(k)) ==
      if s.lastFetch >= at then Moved(s, k, Looking(false)) else Moved(s, k, Picking(0)).(metaMu := Some(k))
  {
    WaitStep(s, k, at);
    RunOne(s, LockMeta(k));
    var b := Moved(s, k, Checking(0, at)).(metaMu := Some(k));
    CheckStep(b, k, at);
    RunSnoc(s, [LockMeta(k)], Run(k, Nothing));
    hide NewPc, NewCache, NewError;
    assert Moved(b, k, Picking(0)).threads == Moved(s, k, Picking(0)).threads;
    assert Moved(b, k, Looking(false)).threads == Moved(s, k, Looking(false)).threads;
  }

  lemma WaitStep(s: State, k: nat, at: nat)
    requires At(s, k, Queued(0, at)) && s.metaMu.None?
    ensures Enabled(s, LockMeta(k)) && Step(s, LockMeta(k)) == Moved(s, k, Checking(0, at)).(metaMu := Some(k))
  {}

  lemma CheckStep(s: State, k: nat, at: nat)
    requires At(s, k, Checking(0, at))
    ensures Enabled(s, Run(k, Nothing))
    ensures Step(s, Run(k, Nothing)) ==
      if s.lastFetch >= at then Moved(s, k, Looking(false)).(metaMu := None) else Moved(s, k, Picking(0))
  {}

  const Dialling: Input := Choice(None, 0, 1, true)

  function Dials(k: nat): seq<Event> {
    [LockMu(k), Run(k, Dialling)]
  }

  /** With no connection at hand the first configured address is asked. */
  lemma DialRuns(s: State, k: nat)
    requires At(s, k, Picking(0)) && s.configs != [] && forall id :: id in s.cache.brokers ==> !Live(s.cache, id)
    ensures RunOf(s, Dials(k)) && !Dial(s.cache, s.configs, 0).fault
    ensures var t := s.threads[k];
      After(s, Dials(k)) == Put(s, k, t.(pc := Fetching(0, |s.cache.made|), fetches := t.fetches + 1)).(
        cache := Dial(s.cache, s.configs, 0), lastError := NO_ERROR, askedAt := s.now)
  {
    Section(s, k, Dialling);
    hide Live;
  }

  function Uses(k: nat, id: int): seq<Event> {
    [LockMu(k), Run(k, Choice(Some(id), 0, 1, true))]
  }

  /** With a connection at hand, that of the smallest node id is asked. */
  lemma UseRuns(s: State, k: nat, id: int)
    requires At(s, k, Picking(0)) && Least(s.cache, id)
    ensures RunOf(s, Uses(k, id))
    ensures var t := s.threads[k];
      After(s, Uses(k, id)) ==
        Put(s, k, t.(pc := Fetching(0, s.cache.brokers[id].broker.value), fetches := t.fetches + 1)).(askedAt := s.now)
  {
    Section(s, k, Choice(Some(id), 0, 1, true));
  }

  function Answers(k: nat, r: MetadataResponse): seq<Event> {
    [Run(k, Response(r))] + [LockMu(k), Run(k, Nothing)]
  }

  /** The response arrives and is applied. */
  lemma AnswerRuns(s: State, k: nat, r: MetadataResponse)
    requires !s.cache.fault && s.mu.None? && k < |s.threads| && s.threads[k].pc.Fetching?
    ensures RunOf(s, Answers(k, r))
    ensures After(s, Answers(k, r)) == Moved(s, k, Stamping).(cache := Apply(s.cache, r), lastError := NO_ERROR)
  {
    hide Apply;
    AnswerStep(s, k, r);
    RunOne(s, Run(k, Response(r)));
    var b := Moved(s, k, Applying(r));
    Section(b, k, Nothing);
    ApplyStep(b, k, r);
    RunAppend(s, [Run(k, Response(r))], [LockMu(k), Run(k, Nothing)]);
    hide NewCache, NewError, NewPc;
    assert Moved(b, k, Stamping).threads == Moved(s, k, Stamping).threads;
  }

  lemma AnswerStep(s: State, k: nat, r: MetadataResponse)
    requires !s.cache.fault && s.mu.None? && k < |s.threads| && s.threads[k].pc.Fetching?
    ensures Enabled(s, Run(k, Response(r))) && Step(s, Run(k, Response(r))) == Moved(s, k, Applying(r))
  {}

  lemma ApplyStep(s: State, k: nat, r: MetadataResponse)
    requires At(s, k, Applying(r))
    ensures Advance(s.(mu := Some(k)), k, Nothing) ==
      Moved(s, k, Stamping).(cache := Apply(s.cache, r), lastError := NO_ERROR)
  {
    hide Apply;
  }

  /** last_meta_fetch_ is set and meta_fetch_mu_ given up. */
  function Stamped(s: State, k: nat): State
    requires k < |s.threads|
  {
    Moved(s, k, Looking(false)).(metaMu := None, lastFetch := s.now, log := s.log + [Fetched(s.askedAt, s.now)])
  }

  lemma StampRuns(s: State, k: nat)
    requires At(s, k, Stamping)
    ensures RunOf(s, [Run(k, Nothing)]) && After(s, [Run(k, Nothing)]) == Stamped(s, k)
  {
    RunOne(s, Run(k, Nothing));
  }

  function Looks(k: nat): seq<Event> {
    [LockMu(k), Run(k, Nothing)]
  }

  /** The partition is looked up once more. */
  lemma LookRuns(s: State, k: nat)
    requires At(s, k, Looking(false))
    ensures RunOf(s, Looks(k))
    ensures var (c, a) := Lookup(s.cache, s.threads[k].partition);
      var pc := if a.Found? then Connecting(a.broker) else if a.Impossible? then Thrown else Reporting;
      After(s, Looks(k)) == Moved(s, k, pc).(cache := c)
  {
    hide Lookup;
    Section(s, k, Nothing);
  }

  // ---------- a whole refresh ----------

  /** A call of produce() that queues for a refresh. */
  function Asks(k: nat, p: Key): seq<Event> {
    Call(k, p) + [Run(k, Nothing)]
  }

  lemma AsksRuns(s: State, p: Key)
    requires !s.cache.fault && s.mu.None? && p !in s.cache.partitions
    ensures RunOf(s, Asks(|s.threads|, p))
    ensures After(s, Asks(|s.threads|, p)) == s.(threads := s.threads + [Thread(p, Queued(0, s.now), 0, s.now)])
  {
    hide RunOf, After, Call;
    var k := |s.threads|;
    CallRuns(s, p);
    AskRuns(MetadataRuns.After(s, Call(k, p)), k);
    RunAppend(s, Call(k, p), [Run(k, Nothing)]);
    assert (s.threads + [Thread(p, Asking(0), 0, 0)])[k := Thread(p, Queued(0, s.now), 0, s.now)]
        == s.threads + [Thread(p, Queued(0, s.now), 0, s.now)];
  }

  /** A call of produce() that refreshes at a configured address, up to its request. */
  function Requests(k: nat, p: Key): seq<Event> {
    Asks(k, p) + (Enter(k) + Dials(k))
  }

  /** Nobody is refreshing, and the last fetch is past. */
  predicate Idle(s: State) {
    !s.cache.fault && s.mu.None? && s.metaMu.None? && s.lastFetch < s.now && s.configs != []
  }

  lemma RequestRuns(s: State, p: Key)
    requires Idle(s) && p !in s.cache.partitions && forall id :: id in s.cache.brokers ==> !Live(s.cache, id)
    ensures RunOf(s, Requests(|s.threads|, p)) && !Dial(s.cache, s.configs, 0).fault
    ensures After(s, Requests(|s.threads|, p)) ==
      s.(cache := Dial(s.cache, s.configs, 0), lastError := NO_ERROR, metaMu := Some(|s.threads|), askedAt := s.now,
         threads := s.threads + [Thread(p, Fetching(0, |s.cache.made|), 1, s.now)])
  {
    hide RunOf, After, Dial, Live, Asks, Enter, Dials;
    var k := |s.threads|;
    AsksRuns(s, p);
    var a := MetadataRuns.After(s, Asks(k, p));
    EnterRuns(a, k, s.now);
    var b := MetadataRuns.After(a, Enter(k));
    DialRuns(b, k);
    RunAppend(a, Enter(k), Dials(k));
    RunAppend(s, Asks(k, p), Enter(k) + Dials(k));
    assert MetadataRuns.After(b, Dials(k)).threads == s.threads + [Thread(p, Fetching(0, |s.cache.made|), 1, s.now)];
  }

  /** A call of produce() that refreshes with r, up to the stamp. */
  function Refresh(k: nat, p: Key, r: MetadataResponse): seq<Event> {
    Requests(k, p) + Answers(k, r)
  }

  lemma RefreshRuns(s: State, p: Key, r: MetadataResponse)
    requires Idle(s) && p !in s.cache.partitions && forall id :: id in s.cache.brokers ==> !Live(s.cache, id)
    ensures RunOf(s, Refresh(|s.threads|, p, r))
    ensures After(s, Refresh(|s.threads|, p, r)) ==
      s.(cache := Apply(Dial(s.cache, s.configs, 0), r), lastError := NO_ERROR, metaMu := Some(|s.threads|),
         askedAt := s.now,
         threads := s.threads + [Thread(p, Stamping, 1, s.now)])
  {
    hide RunOf, After, Apply, Dial, Live, Requests, Answers;
    var k := |s.threads|;
    RequestRuns(s, p);
    var b := MetadataRuns.After(s, Requests(k, p));
    AnswerRuns(b, k, r);
    RunAppend(s, Requests(k, p), Answers(k, r));
    assert Moved(b, k, Stamping).threads == s.threads + [Thread(p, Stamping, 1, s.now)];
  }

  function Again(k: nat): seq<Event> {
    [Run(k, Nothing)] + Looks(k)
  }

  /** The refresh is stamped and the partition looked up once more. */
  lemma AgainRuns(s: State, k: nat)
    requires At(s, k, Stamping)
    ensures RunOf(s, Again(k))
    ensures var t := After(s, Again(k));
      var (c, a) := Lookup(s.cache, s.threads[k].partition);
      var pc := if a.Found? then Connecting(a.broker) else if a.Impossible? then Thrown else Reporting;
      t == Moved(Stamped(s, k), k, pc).(cache := c)
  {
    hide Lookup, RunOf, After, Looks;
    StampRuns(s, k);
    LookRuns(Stamped(s, k), k);
    RunAppend(s, [Run(k, Nothing)], Looks(k));
  }

  // ---------- the branch that "can't happen" ----------

  /** Whenever this run gets a metadata response, it is r. */
  predicate OnlyAnswers(es: seq<Event>, r: MetadataResponse) {
    forall i :: 0 <= i < |es| && es[i].Run? && es[i].input.Response? ==> es[i].input.r == r
  }

  lemma OnlyAppend(es: seq<Event>, fs: seq<Event>, r: MetadataResponse)
    requires OnlyAnswers(es, r) && OnlyAnswers(fs, r)
    ensures OnlyAnswers(es + fs, r)
  {}

  const EMPTY: Cache := Cache(map[], map[], [], {}, false)

  /** A response that leaves a leader out, whatever else it says, makes the very first call throw. */
  lemma UnlistedThrows(retries: int, configs: seq<Broker>, r: MetadataResponse) returns (es: seq<Event>)
    requires configs != [] && !LeadersListed(r) && !Apply(Dial(EMPTY, configs, 0), r).fault
    ensures RunOf(Start(retries, configs), es) && OnlyAnswers(es, r)
    ensures var s := After(Start(retries, configs), es); |s.threads| == 1 && s.threads[0].pc == Thrown
  {
    hide RunOf, After, Apply, Dial, LeadersListed, Lookup;
    var s := Start(retries, configs);
    var c := Dial(EMPTY, configs, 0);
    DialWellFormed(EMPTY, configs, 0);
    ThrowsIffUnlisted(c, r);
    var p :| Lookup(Apply(c, r), p).1 == Impossible;
    RefreshRuns(s, p, r);
    var t := MetadataRuns.After(s, Refresh(0, p, r));
    AgainRuns(t, 0);
    RunAppend(s, Refresh(0, p, r), Again(0));
    es := Refresh(0, p, r) + Again(0);
    RefreshOnly(0, p, r);
    OnlyAppend(Refresh(0, p, r), Again(0), r);
  }

  lemma RefreshOnly(k: nat, p: Key, r: MetadataResponse)
    ensures OnlyAnswers(Refresh(k, p, r), r) && OnlyAnswers(Again(k), r)
  {}

  /** With a cluster that always gives this response, some run throws exactly if it leaves a leader out. */
  lemma ThrownIffUnlisted(retries: int, configs: seq<Broker>, r: MetadataResponse)
    requires configs != [] && !Apply(Dial(EMPTY, configs, 0), r).fault
    ensures LeadersListed(r) <==>
      forall es :: RunOf(Start(retries, configs), es) && OnlyAnswers(es, r) ==>
        NoneThrown(After(Start(retries, configs), es))
  {
    if LeadersListed(r) {
      forall es | RunOf(Start(retries, configs), es) && OnlyAnswers(es, r)
        ensures NoneThrown(After(Start(retries, configs), es))
      {
        CannotHappen(retries, configs, es);
      }
    } else {
      var es := UnlistedThrows(retries, configs, r);
      assert !NoneThrown(After(Start(retries, configs), es));
    }
  }

  predicate NoneThrown(s: State) {
    forall k :: 0 <= k < |s.threads| ==> s.threads[k].pc != Thrown
  }

  // ---------- a broker that moved before anybody connected to it ----------

  /** A cluster of one broker, listed at this port, with no topics yet. */
  function OneBroker(port: int): MetadataResponse {
    MetadataResponse([Broker(1, [], port)], [])
  }

  lemma FirstListing(configs: seq<Broker>, port: int)
    requires configs != []
    ensures var c := Apply(Dial(EMPTY, configs, 0), OneBroker(port));
      !c.fault && c.brokers == map[1 := Container(Broker(1, [], port), None)] && c.partitions == map[]
  {
    var b := Broker(1, [], port);
    var c := Dial(EMPTY, configs, 0);
    var d := c.(brokers := map[1 := Container(b, None)]);
    assert ListBroker(c, b) == d;
    assert ListBrokers(c, [b]) == d by { assert [b][1..] == []; }
    assert Ids([b]) == {1} by { assert [b][0].nodeId == 1; }
    hide Dial;
    OneAlive(d.brokers);
  }

  lemma OneAlive(brokers: map<int, Container>)
    requires brokers.Keys == {1}
    ensures Alive(brokers, {1}) == brokers
  {
    var kept := Alive(brokers, {1});
    forall id | id in brokers ensures id in kept && kept[id] == brokers[id] {}
    assert kept.Keys <= brokers.Keys && brokers.Keys <= kept.Keys;
  }

  lemma SecondListing(c: Cache, configs: seq<Broker>, was: int, now: int)
    requires configs != [] && !c.fault && was != now && c.brokers == map[1 := Container(Broker(1, [], was), None)]
    ensures Apply(Dial(c, configs, 0), OneBroker(now)).fault
  {
    var d := Dial(c, configs, 0);
    assert ListBroker(d, Broker(1, [], now)).fault;
    assert ListBrokers(d, [Broker(1, [], now)]).fault;
  }

  /**
   Two calls of produce() and two refreshes from the start, with one broker that is listed at
   another port the second time and was never connected to: a null connection is closed.
   */
  lemma MovedUnconnected(retries: int, configs: seq<Broker>, p: Key, was: int, now: int) returns (es: seq<Event>)
    requires configs != [] && was != now
    ensures RunOf(Start(retries, configs), es) && After(Start(retries, configs), es).cache.fault
  {
    hide RunOf, After, Apply, Dial, Refresh, Again;
    var s := Start(retries, configs);
    RefreshRuns(s, p, OneBroker(was));
    FirstListing(configs, was);
    var t := MetadataRuns.After(s, Refresh(0, p, OneBroker(was)));
    AgainRuns(t, 0);
    RunAppend(s, Refresh(0, p, OneBroker(was)), Again(0));
    es := Refresh(0, p, OneBroker(was)) + Again(0);
    var u := MetadataRuns.After(s, es);
    RunSnoc(s, es, Tick);
    var v := Step(u, Tick);
    SecondListing(v.cache, configs, was, now);
    RefreshRuns(v, p, OneBroker(now));
    RunAppend(s, es + [Tick], Refresh(1, p, OneBroker(now)));
    es := es + [Tick] + Refresh(1, p, OneBroker(now));
  }

  // ---------- a broker that moved after somebody connected to it ----------

  /** A cluster of one broker, listed at this port, that leads partition p. */
  function OneLeader(port: int, p: Key): MetadataResponse {
    MetadataResponse([Broker(1, [], port)], [TopicMetaData(0, p.topic, [PartitionMetaData(0, p.id, 1, [], [])])])
  }

  lemma OneLeads(port: int, p: Key)
    ensures Leaders(OneLeader(port, p)) == map[p := 1]
  {
    var t := OneLeader(port, p).topics[0];
    assert TopicEntries(t) == [(p, 1)];
    assert Entries([t]) == [(p, 1)] by { assert [t][1..] == [] && [(p, 1)] + [] == [(p, 1)]; }
    assert InsertAll(map[], [(p, 1)]) == map[p := 1] by { assert [(p, 1)][1..] == []; }
  }

  /** The broker with its port on record and perhaps a connection. */
  function Known(port: int, b: Option<nat>): map<int, Container> {
    map[1 := Container(Broker(1, [], port), b)]
  }

  lemma ListOne(c: Cache, b: Broker)
    requires !c.fault
    ensures ListBrokers(c, [b]) == ListBroker(c, b) && Ids([b]) == {b.nodeId}
  {
    assert [b][1..] == [] && [b][0] == b;
  }

  /** Listed for the first time, the broker is on record without a connection. */
  lemma ListedFirst(c: Cache, port: int, p: Key)
    requires !c.fault && c.brokers == map[]
    ensures var d := Apply(c, OneLeader(port, p));
      !d.fault && d.brokers == Known(port, None) && d.partitions == map[p := 1] && d.made == c.made
  {
    OneLeads(port, p);
    ListOne(c, Broker(1, [], port));
    OneAlive(Known(port, None));
  }

  /** Listed at another port, it loses its connection and keeps the old port on record. */
  lemma ListedAgain(c: Cache, was: int, now: int, b: nat, p: Key)
    requires !c.fault && was != now && c.brokers == Known(was, Some(b))
    ensures var d := Apply(c, OneLeader(now, p));
      !d.fault && d.brokers == Known(was, None) && d.partitions == map[p := 1] && d.made == c.made
  {
    OneLeads(now, p);
    ListOne(c, Broker(1, [], now));
    OneAlive(Known(was, None));
  }

  lemma FoundNew(c: Cache, port: int, p: Key)
    requires c.brokers == Known(port, None) && c.partitions == map[p := 1]
    ensures Lookup(c, p) ==
      (c.(made := c.made + [Instance(1, [], port)], brokers := Known(port, Some(|c.made|))), Found(|c.made|))
  {
    assert c.brokers[1 := c.brokers[1].(broker := Some(|c.made|))] == Known(port, Some(|c.made|));
  }

  function Uncertain(k: nat): seq<Event> {
    [Run(k, Result(NO_ERROR))] + [Run(k, Acked(6))] + [LockMu(k), Run(k, Nothing)]
  }

  /** The leader is connected to, answers that it is not the leader, and the partition is forgotten. */
  lemma UncertainRuns(s: State, k: nat, b: nat)
    requires At(s, k, Connecting(b))
    ensures RunOf(s, Uncertain(k))
    ensures After(s, Uncertain(k)) == Moved(s, k, Finished(6)).(cache := Forget(s.cache, s.threads[k].partition))
  {
    hide NewCache, NewError, NewPc, Accepts, Forget;
    var a, c := Moved(s, k, Calling(b)), Moved(s, k, Forgetting(6));
    UpStep(s, k, b);
    RunOne(s, Run(k, Result(NO_ERROR)));
    AckStep(a, k, b);
    assert Moved(a, k, Forgetting(6)).threads == c.threads;
    RunSnoc(s, [Run(k, Result(NO_ERROR))], Run(k, Acked(6)));
    ForgetStep(c, k);
    Section(c, k, Nothing);
    RunAppend(s, [Run(k, Result(NO_ERROR))] + [Run(k, Acked(6))], [LockMu(k), Run(k, Nothing)]);
    assert Moved(c, k, Finished(6)).threads == Moved(s, k, Finished(6)).threads;
  }

  lemma UpStep(s: State, k: nat, b: nat)
    requires At(s, k, Connecting(b))
    ensures Enabled(s, Run(k, Result(NO_ERROR))) && Step(s, Run(k, Result(NO_ERROR))) == Moved(s, k, Calling(b))
  {}

  lemma AckStep(s: State, k: nat, b: nat)
    requires At(s, k, Calling(b))
    ensures Enabled(s, Run(k, Acked(6))) && Step(s, Run(k, Acked(6))) == Moved(s, k, Forgetting(6))
  {}

  lemma ForgetStep(s: State, k: nat)
    requires At(s, k, Forgetting(6))
    ensures Accepts(s, s.threads[k].pc, Nothing)
    ensures Advance(s.(mu := Some(k)), k, Nothing) ==
      Moved(s, k, Finished(6)).(cache := Forget(s.cache, s.threads[k].partition))
  {
    hide Forget;
  }

  /** A refresh through the connection of this node, up to the stamp. */
  function RefreshBy(k: nat, p: Key, id: int, r: MetadataResponse): seq<Event> {
    Asks(k, p) + (Enter(k) + (Uses(k, id) + Answers(k, r)))
  }

  lemma RefreshByRuns(s: State, p: Key, id: int, r: MetadataResponse)
    requires Idle(s) && p !in s.cache.partitions && Least(s.cache, id)
    ensures RunOf(s, RefreshBy(|s.threads|, p, id, r))
    ensures After(s, RefreshBy(|s.threads|, p, id, r)) ==
      s.(cache := Apply(s.cache, r), lastError := NO_ERROR, metaMu := Some(|s.threads|), askedAt := s.now,
         threads := s.threads + [Thread(p, Stamping, 1, s.now)])
  {
    hide RunOf, After, Apply, Least, Asks, Enter, Uses, Answers;
    var k := |s.threads|;
    AsksRuns(s, p);
    var a := MetadataRuns.After(s, Asks(k, p));
    EnterRuns(a, k, s.now);
    var b := MetadataRuns.After(a, Enter(k));
    UseRuns(b, k, id);
    var c := MetadataRuns.After(b, Uses(k, id));
    AnswerRuns(c, k, r);
    RunAppend(b, Uses(k, id), Answers(k, r));
    RunAppend(a, Enter(k), Uses(k, id) + Answers(k, r));
    RunAppend(s, Asks(k, p), Enter(k) + (Uses(k, id) + Answers(k, r)));
    assert Moved(c, k, Stamping).threads == s.threads + [Thread(p, Stamping, 1, s.now)];
  }

  /** One broker known at the port it was first listed with, with a connection, and nothing else going on. */
  lemma ConnectedFirst(retries: int, configs: seq<Broker>, p: Key, port: int) returns (es: seq<Event>, b: nat)
    requires configs != []
    ensures RunOf(Start(retries, configs), es)
    ensures var s := After(Start(retries, configs), es);
      && Idle(s) && |s.threads| == 1 && s.cache.brokers == Known(port, Some(b)) && s.cache.partitions == map[]
      && b < |s.cache.made| && b !in s.cache.closed && s.cache.made[b] == Instance(1, [], port)
  {
    hide RunOf, After, Apply, Dial, Refresh, Again, Lookup, Uncertain;
    var s := Start(retries, configs);
    var r := OneLeader(port, p);
    var c := Dial(EMPTY, configs, 0);
    DialFacts(configs);
    RefreshRuns(s, p, r);
    ListedFirst(c, port, p);
    var t := MetadataRuns.After(s, Refresh(0, p, r));
    b := |t.cache.made|;
    FoundNew(t.cache, port, p);
    AgainRuns(t, 0);
    RunAppend(s, Refresh(0, p, r), Again(0));
    var u := MetadataRuns.After(t, Again(0));
    UncertainRuns(u, 0, b);
    RunAppend(s, Refresh(0, p, r) + Again(0), Uncertain(0));
    es := Refresh(0, p, r) + Again(0) + Uncertain(0);
    RunSnoc(s, es, Tick);
    es := es + [Tick];
    NotClosedYet(configs, r);
  }

  lemma DialFacts(configs: seq<Broker>)
    requires configs != []
    ensures var c := Dial(EMPTY, configs, 0); c.brokers == map[] && !c.fault && WellFormed(c)
  {
    DialWellFormed(EMPTY, configs, 0);
  }

  /** A connection made later is not among those closed so far. */
  lemma NotClosedYet(configs: seq<Broker>, r: MetadataResponse)
    requires configs != []
    ensures var c := Apply(Dial(EMPTY, configs, 0), r); |c.made| !in c.closed
  {
    DialFacts(configs);
    ApplyWellFormed(Dial(EMPTY, configs, 0), r);
  }

  /**
   Two calls of produce(): the first connects to the broker and is told that it is not the
   leader; the second refreshes through that connection, is told that the broker is at
   another port now, and is handed a new connection to the old one.
   */
  lemma MovedConnected(retries: int, configs: seq<Broker>, p: Key, was: int, now: int) returns (es: seq<Event>, b: nat)
    requires configs != [] && was != now
    ensures RunOf(Start(retries, configs), es)
    ensures var s := After(Start(retries, configs), es);
      && |s.threads| == 2 && s.threads[1].pc == Connecting(b) && b < |s.cache.made|
      && s.cache.made[b] == Instance(1, [], was)
    ensures LastAnswered(es, OneLeader(now, p))
  {
    hide RunOf, After, Apply, RefreshBy, Again, Lookup, Idle;
    var before, first := ConnectedFirst(retries, configs, p, was);
    var s := MetadataRuns.After(Start(retries, configs), before);
    var r := OneLeader(now, p);
    OnlyLive(s.cache, was, first);
    RefreshByRuns(s, p, 1, r);
    RunAppend(Start(retries, configs), before, RefreshBy(1, p, 1, r));
    var t := MetadataRuns.After(s, RefreshBy(1, p, 1, r));
    IdleFacts(s);
    ListedAgain(s.cache, was, now, first, p);
    FoundNew(t.cache, was, p);
    AgainRuns(t, 1);
    RunAppend(Start(retries, configs), before + RefreshBy(1, p, 1, r), Again(1));
    es := before + RefreshBy(1, p, 1, r) + Again(1);
    b := |t.cache.made|;
    LastResponse(before, p, r);
  }

  lemma IdleFacts(s: State)
    requires Idle(s)
    ensures s.mu.None? && !s.cache.fault
  {}

  lemma OnlyLive(c: Cache, port: int, b: nat)
    requires c.brokers == Known(port, Some(b)) && b !in c.closed
    ensures Least(c, 1)
  {}

  /** The last metadata response of the run is r, and thread 1 got it. */
  ghost predicate LastAnswered(es: seq<Event>, r: MetadataResponse) {
    exists i :: 0 <= i < |es| && es[i] == Run(1, Response(r)) && NoMore(es[i + 1..])
  }

  predicate NoMore(es: seq<Event>) {
    forall j :: 0 <= j < |es| && es[j].Run? ==> !es[j].input.Response?
  }

  lemma LastResponse(before: seq<Event>, p: Key, r: MetadataResponse)
    ensures LastAnswered(before + RefreshBy(1, p, 1, r) + Again(1), r)
  {
    var es, i := before + RefreshBy(1, p, 1, r) + Again(1), |before| + 8;
    assert RefreshBy(1, p, 1, r)[8] == Run(1, Response(r));
    assert es[i] == Run(1, Response(r));
    assert es[i + 1..] == [LockMu(1), Run(1, Nothing)] + Again(1);
  }

  // ---------- a refresh that is not fresh ----------

  /**
   A thread asks for a refresh while another's request is in flight. That fetch is stamped
   when it is done, so the thread skips its own and relies on a response that was asked for
   before it asked.
   */
  lemma StaleSkip(retries: int, configs: seq<Broker>, p: Key, r: MetadataResponse) returns (es: seq<Event>)
    requires configs != [] && !Apply(Dial(EMPTY, configs, 0), r).fault
    ensures RunOf(Start(retries, configs), es)
    ensures var s := After(Start(retries, configs), es);
      && |s.threads| == 2 && s.threads[1].pc == Looking(false) && s.threads[1].fetches == 0
      && |s.log| == 1 && s.log[0].askedAt < s.threads[1].since <= s.log[0].doneAt
  {
    hide RunOf, After, Apply, Dial, Requests, Asks, Answers, Enter;
    var s := Start(retries, configs);
    RequestRuns(s, p);
    DialFacts(configs);
    var a := MetadataRuns.After(s, Requests(0, p));
    RunSnoc(s, Requests(0, p), Tick);
    var b := Step(a, Tick);
    AsksRuns(b, p) by { DialPartitions(configs); }
    RunAppend(s, Requests(0, p) + [Tick], Asks(1, p));
    var c := MetadataRuns.After(b, Asks(1, p));
    AnswerRuns(c, 0, r);
    RunAppend(s, Requests(0, p) + [Tick] + Asks(1, p), Answers(0, r));
    var d := MetadataRuns.After(c, Answers(0, r));
    StampRuns(d, 0);
    RunAppend(s, Requests(0, p) + [Tick] + Asks(1, p) + Answers(0, r), [Run(0, Nothing)]);
    var e := Stamped(d, 0);
    EnterRuns(e, 1, b.now);
    RunAppend(s, Requests(0, p) + [Tick] + Asks(1, p) + Answers(0, r) + [Run(0, Nothing)], Enter(1));
    es := Requests(0, p) + [Tick] + Asks(1, p) + Answers(0, r) + [Run(0, Nothing)] + Enter(1);
  }

  lemma DialPartitions(configs: seq<Broker>)
    requires configs != []
    ensures Dial(EMPTY, configs, 0).partitions == map[]
  {}
}
