/**
 The producer client's metadata cache as values: the known brokers by node id, each with the
 configuration it was first listed with and perhaps a connection object, and the leader of
 each partition. Connection objects are numbered as they are made.
 */
module MetadataModel {
  import opened Bytes
  import opened Protocol

  datatype Key = Key(topic: seq<byte>, id: int)

  datatype Instance = Instance(node: int, host: seq<byte>, port: int)

  datatype Container = Container(config: Broker, broker: Option<nat>)

  datatype Cache = Cache(
    brokers: map<int, Container>,
    partitions: map<Key, int>,
    made: seq<Instance>,          // every connection object made so far
    closed: set<nat>,             // those that are closed
    fault: bool)                  // a null connection object was dereferenced

  // ---------- applying a metadata response ----------

  predicate SameAddress(a: Broker, b: Broker) {
    a.host == b.host && a.port == b.port
  }

  /** One listed broker: added if new; a known one with another address loses its connection, not its configuration. */
  function ListBroker(c: Cache, b: Broker): Cache {
    if b.nodeId !in c.brokers then c.(brokers := c.brokers[b.nodeId := Container(b, None)])
    else
      var k := c.brokers[b.nodeId];
      if SameAddress(k.config, b) then c
      else if k.broker.None? then c.(fault := true)
      else c.(closed := c.closed + {k.broker.value}, brokers := c.brokers[b.nodeId := k.(broker := None)])
  }

  function ListBrokers(c: Cache, bs: seq<Broker>): Cache
    decreases |bs|
  {
    if bs == [] || c.fault then c else ListBrokers(ListBroker(c, bs[0]), bs[1..])
  }

  function Ids(bs: seq<Broker>): set<int> {
    set i | 0 <= i < |bs| :: bs[i].nodeId
  }

  function Pointers(brokers: map<int, Container>): set<nat> {
    set id | id in brokers && brokers[id].broker.Some? :: brokers[id].broker.value
  }

  function Alive(brokers: map<int, Container>, live: set<int>): map<int, Container> {
    map id | id in brokers && id in live :: brokers[id]
  }

  function Dead(brokers: map<int, Container>, live: set<int>): map<int, Container> {
    map id | id in brokers && id !in live :: brokers[id]
  }

  function RemoveDead(c: Cache, live: set<int>): Cache {
    c.(brokers := Alive(c.brokers, live), closed := c.closed + Pointers(Dead(c.brokers, live)))
  }

  type Entry = (Key, int)

  function TopicEntries(t: TopicMetaData): seq<Entry> {
    seq(|t.partitions|, i requires 0 <= i < |t.partitions| => (Key(t.name, t.partitions[i].id), t.partitions[i].leader))
  }

  /** Every partition of every topic, in the order of the response. */
  function Entries(ts: seq<TopicMetaData>): seq<Entry> {
    if ts == [] then [] else TopicEntries(ts[0]) + Entries(ts[1..])
  }

  /** std::map::insert keeps what is there. */
  function InsertNew(m: map<Key, int>, e: Entry): map<Key, int> {
    if e.0 in m then m else m[e.0 := e.1]
  }

  function InsertAll(m: map<Key, int>, es: seq<Entry>): map<Key, int>
    decreases |es|
  {
    if es == [] then m else InsertAll(InsertNew(m, es[0]), es[1..])
  }

  function Leaders(r: MetadataResponse): map<Key, int> {
    InsertAll(map[], Entries(r.topics))
  }

  function Apply(c: Cache, r: MetadataResponse): Cache {
    var d := ListBrokers(c, r.brokers);
    if d.fault then d else RemoveDead(d, Ids(r.brokers)).(partitions := Leaders(r))
  }

  // ---------- the first entry wins ----------

  /** Entry i is the first one for its partition. */
  predicate First(es: seq<Entry>, i: nat)
    requires i < |es|
  {
    forall j :: 0 <= j < i ==> es[j].0 != es[i].0
  }

  /** The map that holds, for each partition listed, the leader of its first entry. */
  ghost predicate FirstWins(m: map<Key, int>, es: seq<Entry>) {
    && (forall p :: p in m ==> exists i :: 0 <= i < |es| && es[i].0 == p)
    && (forall i :: 0 <= i < |es| ==> es[i].0 in m)
    && (forall i :: 0 <= i < |es| && First(es, i) ==> m[es[i].0] == es[i].1)
  }

  lemma NotFirst(m: map<Key, int>, es: seq<Entry>, e: Entry)
    requires FirstWins(m, es) && e.0 in m
    ensures !First(es + [e], |es|)
  {
    var j :| 0 <= j < |es| && es[j].0 == e.0;
    assert (es + [e])[j].0 == e.0;
  }

  lemma FirstWinsSnoc(m: map<Key, int>, es: seq<Entry>, e: Entry)
    requires FirstWins(m, es)
    ensures FirstWins(InsertNew(m, e), es + [e])
  {
    var fs := es + [e];
    var n := InsertNew(m, e);
    forall p | p in n ensures exists i :: 0 <= i < |fs| && fs[i].0 == p {
      if p in m {
        var i :| 0 <= i < |es| && es[i].0 == p;
        assert fs[i].0 == p;
      } else {
        assert fs[|es|].0 == p;
      }
    }
    forall i | 0 <= i < |fs| && First(fs, i) ensures fs[i].0 in n && n[fs[i].0] == fs[i].1 {
      if i < |es| {
        assert First(es, i) by {
          forall j | 0 <= j < i ensures es[j].0 != es[i].0 { assert fs[j].0 != fs[i].0; }
        }
      } else {
        assert !(e.0 in m) by { if e.0 in m { NotFirst(m, es, e); } }
      }
    }
  }

  lemma {:induction false} InsertAllFirstWins(m: map<Key, int>, done: seq<Entry>, es: seq<Entry>)
    requires FirstWins(m, done)
    ensures FirstWins(InsertAll(m, es), done + es)
    decreases |es|
  {
    hide FirstWins, InsertNew;
    if es == [] {
      assert done + es == done;
    } else {
      var e, rest := es[0], es[1..];
      FirstWinsSnoc(m, done, e);
      InsertAllFirstWins(InsertNew(m, e), done + [e], rest);
      assert done + [e] + rest == done + es;
      assert InsertAll(m, es) == InsertAll(InsertNew(m, e), rest);
    }
  }

  lemma LeadersFirstWins(r: MetadataResponse)
    ensures FirstWins(Leaders(r), Entries(r.topics))
  {
    InsertAllFirstWins(map[], [], Entries(r.topics));
    assert [] + Entries(r.topics) == Entries(r.topics);
  }

  // ---------- the brokers listed ----------

  /** No listing before i is of this node. */
  predicate NotBefore(bs: seq<Broker>, i: int, id: int)
    requires i <= |bs|
  {
    forall j :: 0 <= j < i ==> bs[j].nodeId != id
  }

  /** The configuration a node id has after the first n listings: the old one, or the first listed. */
  ghost predicate ConfigOf(prior: map<int, Container>, bs: seq<Broker>, id: int, config: Broker) {
    if id in prior then config == prior[id].config
    else exists i :: 0 <= i < |bs| && bs[i].nodeId == id && config == bs[i] && NotBefore(bs, i, id)
  }

  /** Listing i disagrees with the configuration its node id has by then. */
  ghost predicate Moved(prior: map<int, Container>, bs: seq<Broker>, i: nat)
    requires i < |bs|
  {
    exists config :: ConfigOf(prior, bs, bs[i].nodeId, config) && !SameAddress(config, bs[i])
  }

  /** What the brokers are after all listings, if nothing faulted. */
  ghost predicate Listed(prior: map<int, Container>, bs: seq<Broker>, now: map<int, Container>) {
    && now.Keys == prior.Keys + Ids(bs)
    && (forall id :: id in now ==> ConfigOf(prior, bs, id, now[id].config))
    && (forall id :: id in now ==>
          now[id].broker == if id in prior && Undisturbed(prior, bs, id) then prior[id].broker else None)
  }

  /** Every listing of a known id agrees with its configuration. */
  ghost predicate Undisturbed(prior: map<int, Container>, bs: seq<Broker>, id: int)
    requires id in prior
  {
    forall i :: 0 <= i < |bs| && bs[i].nodeId == id ==> SameAddress(prior[id].config, bs[i])
  }

  /** Listing i finds another address and no connection to close: none was made, or an earlier listing took it. */
  ghost predicate Faults(prior: map<int, Container>, bs: seq<Broker>, i: nat)
    requires i < |bs|
  {
    var id := bs[i].nodeId;
    && Moved(prior, bs[..i + 1], i)
    && (id !in prior || prior[id].broker.None? || !Undisturbed(prior, bs[..i], id))
  }

  lemma ConfigSnoc(prior: map<int, Container>, bs: seq<Broker>, b: Broker, id: int, config: Broker)
    requires ConfigOf(prior, bs, id, config)
    ensures ConfigOf(prior, bs + [b], id, config)
  {
    if id !in prior {
      var cs := bs + [b];
      var i :| 0 <= i < |bs| && bs[i].nodeId == id && config == bs[i] && forall j :: 0 <= j < i ==> bs[j].nodeId != id;
      assert cs[i] == bs[i];
    }
  }

  lemma UndisturbedSnoc(prior: map<int, Container>, bs: seq<Broker>, b: Broker, id: int)
    requires id in prior
    ensures Undisturbed(prior, bs + [b], id) <==>
      Undisturbed(prior, bs, id) && (b.nodeId == id ==> SameAddress(prior[id].config, b))
  {
    var cs := bs + [b];
    if Undisturbed(prior, cs, id) {
      forall i | 0 <= i < |bs| && bs[i].nodeId == id
        ensures SameAddress(prior[id].config, bs[i])
      {
        assert cs[i] == bs[i];
      }
      assert cs[|bs|] == b;
    }
  }

  lemma IdsSnoc(bs: seq<Broker>, b: Broker)
    ensures Ids(bs + [b]) == Ids(bs) + {b.nodeId}
  {
    var cs := bs + [b];
    forall i | 0 <= i < |bs| ensures bs[i].nodeId in Ids(cs) { assert cs[i] == bs[i]; }
    assert cs[|bs|] == b && b.nodeId in Ids(cs);
  }

  /** The configuration found for a listing is the one Moved compares with. */
  lemma MovedIff(prior: map<int, Container>, bs: seq<Broker>, i: nat, config: Broker)
    requires i < |bs| && ConfigOf(prior, bs, bs[i].nodeId, config)
    ensures Moved(prior, bs, i) <==> !SameAddress(config, bs[i])
  {}

  lemma NewConfig(prior: map<int, Container>, bs: seq<Broker>, b: Broker)
    requires b.nodeId !in prior && b.nodeId !in Ids(bs)
    ensures ConfigOf(prior, bs + [b], b.nodeId, b)
  {
    var cs := bs + [b];
    forall j | 0 <= j < |bs| ensures cs[j].nodeId != b.nodeId {
      assert cs[j] == bs[j] && bs[j].nodeId in Ids(bs);
    }
    assert cs[|bs|] == b;
  }

  /** One more listing faults exactly when Faults says so. */
  lemma FaultsNow(prior: map<int, Container>, bs: seq<Broker>, c: Cache, b: Broker)
    requires Listed(prior, bs, c.brokers) && !c.fault
    ensures ListBroker(c, b).fault <==> Faults(prior, bs + [b], |bs|)
  {
    var cs := bs + [b];
    assert cs[..|bs| + 1] == cs && cs[..|bs|] == bs && cs[|bs|] == b;
    if b.nodeId !in c.brokers {
      NewConfig(prior, bs, b);
      MovedIff(prior, cs, |bs|, b);
    } else {
      var config := c.brokers[b.nodeId].config;
      ConfigSnoc(prior, bs, b, b.nodeId, config);
      MovedIff(prior, cs, |bs|, config);
    }
    hide ConfigOf, Undisturbed, Moved;
  }

  /** A listing that does not fault keeps the description. */
  lemma ListedSnoc(prior: map<int, Container>, bs: seq<Broker>, c: Cache, b: Broker)
    requires Listed(prior, bs, c.brokers) && !c.fault && !ListBroker(c, b).fault
    ensures Listed(prior, bs + [b], ListBroker(c, b).brokers)
  {
    hide ConfigOf, Undisturbed;
    var cs := bs + [b];
    var d := ListBroker(c, b);
    if b.nodeId !in c.brokers { NewConfig(prior, bs, b); }
    IdsSnoc(bs, b);
    forall id | id in d.brokers ensures ConfigOf(prior, cs, id, d.brokers[id].config) {
      if id in c.brokers { ConfigSnoc(prior, bs, b, id, c.brokers[id].config); }
    }
    forall id | id in d.brokers && id in prior
      ensures d.brokers[id].broker == if Undisturbed(prior, cs, id) then prior[id].broker else None
    {
      UndisturbedSnoc(prior, bs, b, id);
      OldConfig(prior, bs, id, c.brokers[id].config);
    }
  }

  lemma OldConfig(prior: map<int, Container>, bs: seq<Broker>, id: int, config: Broker)
    requires id in prior && ConfigOf(prior, bs, id, config)
    ensures config == prior[id].config
  {}

  lemma FaultsPrefix(prior: map<int, Container>, bs: seq<Broker>, cs: seq<Broker>, i: nat)
    requires i < |bs| <= |cs| && bs == cs[..|bs|]
    ensures Faults(prior, bs, i) <==> Faults(prior, cs, i)
  {
    assert bs[..i + 1] == cs[..i + 1] && bs[..i] == cs[..i];
  }

  ghost predicate SomeFault(prior: map<int, Container>, bs: seq<Broker>) {
    exists i :: 0 <= i < |bs| && Faults(prior, bs, i)
  }

  lemma SomeFaultSnoc(prior: map<int, Container>, bs: seq<Broker>, b: Broker)
    ensures SomeFault(prior, bs + [b]) <==> SomeFault(prior, bs) || Faults(prior, bs + [b], |bs|)
  {
    hide Faults;
    var cs := bs + [b];
    forall i | 0 <= i < |bs| ensures Faults(prior, bs, i) <==> Faults(prior, cs, i) { FaultsPrefix(prior, bs, cs, i); }
  }

  lemma {:induction false} SomeFaultPrefix(prior: map<int, Container>, bs: seq<Broker>, rest: seq<Broker>)
    requires SomeFault(prior, bs)
    ensures SomeFault(prior, bs + rest)
  {
    hide Faults;
    var i :| 0 <= i < |bs| && Faults(prior, bs, i);
    assert (bs + rest)[..|bs|] == bs;
    FaultsPrefix(prior, bs, bs + rest, i);
  }

  lemma {:induction false} ListAll(prior: map<int, Container>, done: seq<Broker>, c: Cache, bs: seq<Broker>)
    requires Listed(prior, done, c.brokers) && !c.fault && !SomeFault(prior, done)
    ensures var d := ListBrokers(c, bs);
      && (d.fault <==> SomeFault(prior, done + bs))
      && (!d.fault ==> Listed(prior, done + bs, d.brokers))
    decreases |bs|
  {
    hide Listed, SomeFault, ListBroker, Faults;
    if bs == [] {
      assert done + bs == done;
    } else {
      var d := ListBroker(c, bs[0]);
      FaultsNow(prior, done, c, bs[0]);
      if !d.fault { ListedSnoc(prior, done, c, bs[0]); }
      SomeFaultSnoc(prior, done, bs[0]);
      assert done + [bs[0]] + bs[1..] == done + bs;
      if d.fault {
        SomeFaultPrefix(prior, done + [bs[0]], bs[1..]);
      } else {
        ListAll(prior, done + [bs[0]], d, bs[1..]);
      }
    }
  }

  lemma ListedNothing(prior: map<int, Container>)
    ensures Listed(prior, [], prior) && !SomeFault(prior, [])
  {}

  /**
   A refresh dereferences a null connection exactly when some listing disagrees with the
   address on record for its node id while that node has no connection left.
   */
  lemma FaultIff(c: Cache, r: MetadataResponse)
    requires !c.fault
    ensures Apply(c, r).fault <==> exists i :: 0 <= i < |r.brokers| && Faults(c.brokers, r.brokers, i)
  {
    ListedNothing(c.brokers);
    ListAll(c.brokers, [], c, r.brokers);
    assert [] + r.brokers == r.brokers;
  }

  lemma {:induction false} ListKeeps(c: Cache, bs: seq<Broker>)
    ensures var d := ListBrokers(c, bs); d.partitions == c.partitions && d.made == c.made && c.closed <= d.closed
    decreases |bs|
  {
    if bs != [] && !c.fault { ListKeeps(ListBroker(c, bs[0]), bs[1..]); }
  }

  /**
   After a refresh the known brokers are exactly those of the response, the partition map is
   its first-wins map, and a broker that was known keeps the configuration it had, with its
   connection only if every listing agreed with that.
   */
  lemma RefreshExact(c: Cache, r: MetadataResponse)
    requires !c.fault && !Apply(c, r).fault
    ensures var d := Apply(c, r);
      && d.brokers.Keys == Ids(r.brokers)
      && FirstWins(d.partitions, Entries(r.topics))
      && (forall id :: id in d.brokers ==> ConfigOf(c.brokers, r.brokers, id, d.brokers[id].config))
      && (forall id :: id in d.brokers ==>
            d.brokers[id].broker ==
              if id in c.brokers && Undisturbed(c.brokers, r.brokers, id) then c.brokers[id].broker else None)
  {
    ListedNothing(c.brokers);
    ListAll(c.brokers, [], c, r.brokers);
    assert [] + r.brokers == r.brokers;
    LeadersFirstWins(r);
    hide FirstWins, ConfigOf, Undisturbed;
  }

  /**
   The address on record is a listing's exactly if it was so before, or, for a new broker, if its
   first listing has it.
   */
  lemma AddressKept(c: Cache, r: MetadataResponse, i: nat, first: nat)
    requires !c.fault && !Apply(c, r).fault && first <= i < |r.brokers|
      && r.brokers[first].nodeId == r.brokers[i].nodeId
    requires forall j :: 0 <= j < first ==> r.brokers[j].nodeId != r.brokers[i].nodeId
    ensures var b := r.brokers[i];
      && b.nodeId in Apply(c, r).brokers
      && (SameAddress(Apply(c, r).brokers[b.nodeId].config, b) <==>
            SameAddress(if b.nodeId in c.brokers then c.brokers[b.nodeId].config else r.brokers[first], b))
  {
    RefreshExact(c, r);
    assert r.brokers[i].nodeId in Ids(r.brokers);
    hide Apply;
  }

  // ---------- the size comparison ----------

  lemma SubsetSize(a: set<int>, b: set<int>)
    requires a <= b
    ensures |a| <= |b| && (|a| == |b| ==> a == b)
  {
    assert b == a + (b - a) && a * (b - a) == {};
    if |b - a| == 0 { assert b - a == {}; }
  }

  /** Comparing sizes tells whether some known broker is gone, because every live one is known by then. */
  lemma ShortcutSound(brokers: map<int, Container>, live: set<int>)
    requires live <= brokers.Keys
    ensures |live| < |brokers.Keys| <==> exists id :: id in brokers && id !in live
  {
    SubsetSize(live, brokers.Keys);
    if forall id :: id in brokers ==> id in live {
      assert brokers.Keys == live;
    }
  }

  lemma NothingDead(c: Cache, live: set<int>)
    requires forall id :: id in c.brokers ==> id in live
    ensures RemoveDead(c, live) == c
  {
    var dead := Dead(c.brokers, live);
    var kept := Alive(c.brokers, live);
    forall id | id in c.brokers ensures id in kept && kept[id] == c.brokers[id] {}
    assert c.brokers.Keys <= kept.Keys;
    assert kept == c.brokers;
    assert dead.Keys == {};
    assert forall b :: b in Pointers(dead) ==> exists id :: id in dead.Keys;
    assert c.closed + Pointers(dead) == c.closed;
  }

  // ---------- looking up, closing, forgetting ----------

  datatype Answer = Found(broker: nat) | Unknown | Impossible

  /** get_broker_for_partition under mu_: a known partition whose leader is no known broker "can't happen". */
  function Lookup(c: Cache, p: Key): (Cache, Answer) {
    if p !in c.partitions || c.partitions[p] < 0 then (c, Unknown)
    else
      var id := c.partitions[p];
      if id !in c.brokers then (c, Impossible)
      else
        var k := c.brokers[id];
        if k.broker.Some? && k.broker.value !in c.closed then (c, Found(k.broker.value))
        else
          (c.(made := c.made + [Instance(id, k.config.host, k.config.port)],
              brokers := c.brokers[id := k.(broker := Some(|c.made|))]), Found(|c.made|))
  }

  /** A connection that the cache holds and that is not closed. */
  predicate Live(c: Cache, id: int) {
    id in c.brokers && c.brokers[id].broker.Some? && c.brokers[id].broker.value !in c.closed
  }

  lemma Inhabited<T>(a: set<T>) returns (x: T)
    requires a != {}
    ensures x in a
  {
    x :| x in a;
  }

  /** The smallest node id with a connection that is up. */
  ghost predicate Least(c: Cache, id: int) {
    Live(c, id) && forall other :: other in c.brokers && Live(c, other) ==> id <= other
  }

  lemma LeastLive(c: Cache, live: int) returns (id: int)
    requires Live(c, live)
    ensures Least(c, id)
  {
    id := live;
    var left := c.brokers.Keys;
    while left != {}
      invariant Live(c, id) && left <= c.brokers.Keys
      invariant forall other :: other in c.brokers && other !in left && Live(c, other) ==> id <= other
      decreases left
    {
      var x := Inhabited(left);
      if Live(c, x) && x < id { id := x; }
      left := left - {x};
    }
  }

  /** The connections made for the first n configured addresses; node ids are not known yet. */
  function Tried(configs: seq<Broker>, n: nat): (r: seq<Instance>)
    requires n <= |configs|
    ensures |r| == n
  {
    seq(n, i requires 0 <= i < n => Instance(0, configs[i].host, configs[i].port))
  }

  /** The n numbers from first on. */
  function Numbers(first: nat, n: nat): set<nat> {
    var ns := seq(n, i requires 0 <= i < n => first + i);
    set i | 0 <= i < |ns| :: ns[i]
  }

  /** So many configured addresses fail to connect, and the next one, if there is one, connects. */
  function Dial(c: Cache, configs: seq<Broker>, failures: nat): Cache
    requires failures <= |configs|
  {
    c.(made := c.made + Tried(configs, if failures < |configs| then failures + 1 else failures),
       closed := c.closed + Numbers(|c.made|, failures))
  }

  lemma DialWellFormed(c: Cache, configs: seq<Broker>, failures: nat)
    requires WellFormed(c) && failures <= |configs|
    ensures var d := Dial(c, configs, failures);
      && WellFormed(d) && c.made <= d.made && d.brokers == c.brokers && d.partitions == c.partitions
      && d.fault == c.fault
      && |d.made| == |c.made| + if failures < |configs| then failures + 1 else failures
  {}

  /**
   Each address tried gets a connection of its own, for no node in particular: those that fail
   are closed, the one that connects is not, and all others are as they were.
   */
  lemma DialExact(c: Cache, configs: seq<Broker>, failures: nat, j: nat)
    requires WellFormed(c) && failures <= |configs|
    requires j < |configs| && j <= failures
    ensures var d, b := Dial(c, configs, failures), |c.made| + j;
      && b < |d.made| && d.made[b] == Instance(0, configs[j].host, configs[j].port)
      && (b in d.closed <==> j < failures)
      && (forall x: nat :: x < |c.made| ==> (x in d.closed <==> x in c.closed))
  {
    var ns := seq(failures, i requires 0 <= i < failures => |c.made| + i);
    if j < failures { assert ns[j] == |c.made| + j; }
  }

  function CloseBroker(c: Cache, b: nat): Cache
    requires b < |c.made|
  {
    var id := c.made[b].node;
    c.(closed := c.closed + {b}, partitions := map[],
       brokers := if id !in c.brokers || c.brokers[id].broker != Some(b) then c.brokers
                  else c.brokers[id := c.brokers[id].(broker := None)])
  }

  function Forget(c: Cache, p: Key): Cache {
    c.(partitions := c.partitions - {p})
  }

  /** A connection object in the cache belongs to its node id and was made with the address on record. */
  ghost predicate WellFormed(c: Cache) {
    && (forall id :: id in c.brokers && c.brokers[id].broker.Some? ==>
          var b := c.brokers[id].broker.value;
          b < |c.made| && c.made[b] == Instance(id, c.brokers[id].config.host, c.brokers[id].config.port))
    && (forall b :: b in c.closed ==> b < |c.made|)
  }

  /** Every partition with a leader has a known one. */
  ghost predicate Covered(c: Cache) {
    forall p :: p in c.partitions && c.partitions[p] >= 0 ==> c.partitions[p] in c.brokers
  }

  /** Each listed non-negative leader, where a partition's first entry counts, is a listed broker. */
  ghost predicate LeadersListed(r: MetadataResponse) {
    forall i :: 0 <= i < |Entries(r.topics)| && First(Entries(r.topics), i) && Entries(r.topics)[i].1 >= 0 ==>
      Entries(r.topics)[i].1 in Ids(r.brokers)
  }

  /**
   What the caller of a lookup gets: a connection that is not closed, to the node and the address
   on record for the leader.
   */
  lemma LookupFound(c: Cache, p: Key)
    requires WellFormed(c)
    ensures var (d, a) := Lookup(c, p);
      && WellFormed(d) && d.partitions == c.partitions && d.brokers.Keys == c.brokers.Keys && d.closed == c.closed
      && d.fault == c.fault
      && c.made <= d.made
      && (a.Found? ==>
            && p in c.partitions && c.partitions[p] >= 0 && c.partitions[p] in c.brokers
            && a.broker < |d.made| && a.broker !in d.closed
            && var config := c.brokers[c.partitions[p]].config;
               d.made[a.broker] == Instance(c.partitions[p], config.host, config.port))
      && (a.Impossible? <==> p in c.partitions && c.partitions[p] >= 0 && c.partitions[p] !in c.brokers)
  {}

  /** The one broker whose container a lookup fills. */
  ghost predicate OneMade(c: Cache, d: Cache, id: int) {
    && id in c.brokers && |d.made| == |c.made| + 1 && c.made <= d.made
    && d == c.(made := d.made, brokers := c.brokers[id := c.brokers[id].(broker := Some(|c.made|))])
  }

  /**
   A lookup finds a connection exactly for a partition with a leader that is a known broker, and
   nothing exactly for one without a leader. A connection that is up is handed out as it is;
   otherwise one is made.
   */
  lemma LookupExact(c: Cache, p: Key)
    ensures var (d, a) := Lookup(c, p);
      var led := p in c.partitions && c.partitions[p] >= 0;
      && (a.Found? <==> led && c.partitions[p] in c.brokers)
      && (a.Unknown? <==> !led)
      && (a.Found? && Live(c, c.partitions[p]) ==> d == c && c.brokers[c.partitions[p]].broker == Some(a.broker))
      && (a.Found? && !Live(c, c.partitions[p]) ==> OneMade(c, d, c.partitions[p]) && a.broker == |c.made|)
      && (!a.Found? ==> d == c)
  {}

  /** After close_broker nobody can be handed that connection again, and every partition is unknown. */
  lemma ClosedIsGone(c: Cache, b: nat, p: Key)
    requires WellFormed(c) && b < |c.made|
    ensures var d := CloseBroker(c, b);
      && WellFormed(d) && b in d.closed && b !in Pointers(d.brokers)
      && d.brokers.Keys == c.brokers.Keys && Lookup(d, p).1 == Unknown
  {}

  lemma ApplyWellFormed(c: Cache, r: MetadataResponse)
    requires WellFormed(c)
    ensures WellFormed(Apply(c, r)) && Apply(c, r).made == c.made
  {
    ListAllDrops(c, c, r.brokers);
    ListKeeps(c, r.brokers);
    hide ListBrokers;
  }

  /** A refresh leaves every leader known exactly if the response lists its leaders. */
  lemma CoveredIffListed(c: Cache, r: MetadataResponse)
    requires !c.fault && !Apply(c, r).fault
    ensures Covered(Apply(c, r)) <==> LeadersListed(r)
  {
    RefreshExact(c, r);
    var d := Apply(c, r);
    var es := Entries(r.topics);
    hide Apply, Entries, ConfigOf, Undisturbed;
    if LeadersListed(r) {
      forall p | p in d.partitions && d.partitions[p] >= 0 ensures d.partitions[p] in d.brokers {
        var i := FirstEntry(es, p);
        assert d.partitions[es[i].0] == es[i].1;
      }
    }
    if Covered(d) {
      forall i | 0 <= i < |es| && First(es, i) && es[i].1 >= 0 ensures es[i].1 in Ids(r.brokers) {
        assert d.partitions[es[i].0] == es[i].1;
        assert es[i].1 in d.brokers;
      }
    }
  }

  /** A partition that is listed has a first entry. */
  lemma {:induction false} FirstEntry(es: seq<Entry>, p: Key) returns (i: nat)
    requires exists j :: 0 <= j < |es| && es[j].0 == p
    ensures i < |es| && es[i].0 == p && First(es, i)
  {
    i := 0;
    while es[i].0 != p
      invariant i < |es| && forall j :: 0 <= j < i ==> es[j].0 != p
      decreases |es| - i
    {
      i := i + 1;
    }
  }

  /**
   A broker known before a refresh is still connected to at its old address after it, whatever
   address the response lists.
   */
  lemma OldAddressDialled(c: Cache, r: MetadataResponse, p: Key)
    requires WellFormed(c) && !c.fault && !Apply(c, r).fault
    requires Lookup(Apply(c, r), p).1.Found? && p in Leaders(r) && Leaders(r)[p] in c.brokers
    ensures var (d, a) := Lookup(Apply(c, r), p);
      var config := c.brokers[Leaders(r)[p]].config;
      a.broker < |d.made| && d.made[a.broker] == Instance(Leaders(r)[p], config.host, config.port)
  {
    RefreshExact(c, r);
    ApplyWellFormed(c, r);
    LookupFound(Apply(c, r), p);
    assert ConfigOf(c.brokers, r.brokers, Leaders(r)[p], Apply(c, r).brokers[Leaders(r)[p]].config);
  }

  // ---------- no connection is dropped open ----------

  /** Between two caches exactly the connections that were dropped have been closed. */
  ghost predicate ClosedDropped(was: Cache, now: Cache) {
    && Pointers(now.brokers) <= Pointers(was.brokers)
    && now.closed == was.closed + (Pointers(was.brokers) - Pointers(now.brokers))
  }

  lemma ResetDrops(c: Cache, id: int)
    requires WellFormed(c) && id in c.brokers && c.brokers[id].broker.Some?
    ensures Pointers(c.brokers[id := c.brokers[id].(broker := None)]) ==
      Pointers(c.brokers) - {c.brokers[id].broker.value}
  {
    var after := c.brokers[id := c.brokers[id].(broker := None)];
    forall b: nat ensures b in Pointers(after) <==> b in Pointers(c.brokers) && b != c.brokers[id].broker.value {
      if b in Pointers(c.brokers) && b != c.brokers[id].broker.value {
        var j :| j in c.brokers && c.brokers[j].broker == Some(b);
        assert j in after && after[j].broker == Some(b);
      }
    }
  }

  lemma ListDrops(c: Cache, b: Broker)
    requires WellFormed(c)
    ensures WellFormed(ListBroker(c, b)) && ClosedDropped(c, ListBroker(c, b))
  {
    var d := ListBroker(c, b);
    if b.nodeId !in c.brokers {
      assert Pointers(d.brokers) == Pointers(c.brokers) by {
        forall x: nat | x in Pointers(c.brokers) ensures x in Pointers(d.brokers) {
          var j :| j in c.brokers && c.brokers[j].broker == Some(x);
          assert j in d.brokers && d.brokers[j].broker == Some(x);
        }
      }
    } else if !SameAddress(c.brokers[b.nodeId].config, b) && c.brokers[b.nodeId].broker.Some? {
      ResetDrops(c, b.nodeId);
    }
  }

  lemma {:induction false} ListAllDrops(was: Cache, c: Cache, bs: seq<Broker>)
    requires WellFormed(c) && ClosedDropped(was, c)
    ensures WellFormed(ListBrokers(c, bs)) && ClosedDropped(was, ListBrokers(c, bs))
    decreases |bs|
  {
    if bs != [] && !c.fault {
      hide WellFormed, ListBroker, Pointers;
      ListDrops(c, bs[0]);
      ListAllDrops(was, ListBroker(c, bs[0]), bs[1..]);
    }
  }

  lemma RemoveDrops(c: Cache, live: set<int>)
    requires WellFormed(c)
    ensures ClosedDropped(c, RemoveDead(c, live))
  {
    var kept, dead := Alive(c.brokers, live), Dead(c.brokers, live);
    forall b: nat ensures b in Pointers(c.brokers) <==> b in Pointers(kept) || b in Pointers(dead) {
      if b in Pointers(c.brokers) {
        var j :| j in c.brokers && c.brokers[j].broker == Some(b);
        assert if j in live then j in kept && kept[j].broker == Some(b) else j in dead && dead[j].broker == Some(b);
      }
    }
    assert Pointers(kept) !! Pointers(dead);
  }

  /**
   A refresh closes exactly the connections it drops: those of brokers that are gone or were
   listed at another address.
   */
  lemma RefreshCloses(c: Cache, r: MetadataResponse)
    requires WellFormed(c) && !c.fault && !Apply(c, r).fault
    ensures var d := Apply(c, r);
      forall b: nat :: b in d.closed <==> b in c.closed || (b in Pointers(c.brokers) && b !in Pointers(d.brokers))
  {
    ListAllDrops(c, c, r.brokers);
    RemoveDrops(ListBrokers(c, r.brokers), Ids(r.brokers));
    hide ListBrokers, Pointers, Leaders;
  }
}
