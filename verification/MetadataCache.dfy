/** The metadata cache as the producer client changes it in place, each section of code under mu_. */
module MetadataCaches {
  import opened Bytes
  import opened Protocol
  import opened MetadataModel

  class MetadataCache {
    var brokers: map<int, Container>
    var partitions: map<Key, int>
    var made: seq<Instance>
    var closed: set<nat>
    var fault: bool

    ghost function View(): Cache
      reads this
    {
      Cache(brokers, partitions, made, closed, fault)
    }

    constructor ()
      ensures View() == Cache(map[], map[], [], {}, false) && WellFormed(View()) && Covered(View())
    {
      brokers, partitions, made, closed, fault := map[], map[], [], {}, false;
    }

    method AddOrCheck(b: Broker)
      modifies this
      ensures View() == ListBroker(old(View()), b)
    {
      if b.nodeId !in brokers {
        brokers := brokers[b.nodeId := Container(b, None)];
      } else {
        var k := brokers[b.nodeId];
        if k.config.host != b.host || k.config.port != b.port {
          if k.broker.None? {
            fault := true;
          } else {
            closed := closed + {k.broker.value};
            brokers := brokers[b.nodeId := k.(broker := None)];
          }
        }
      }
    }

    /** The first loop of a refresh, collecting the live ids on the way. */
    method AddBrokers(bs: seq<Broker>) returns (live: set<int>)
      modifies this
      ensures View() == ListBrokers(old(View()), bs)
      ensures !fault ==> live == Ids(bs)
    {
      live := {};
      var i := 0;
      while i < |bs| && !fault
        invariant 0 <= i <= |bs|
        invariant live == Ids(bs[..i])
        invariant ListBrokers(View(), bs[i..]) == ListBrokers(old(View()), bs)
      {
        assert bs[i..][0] == bs[i] && bs[i..][1..] == bs[i + 1..];
        assert bs[..i + 1] == bs[..i] + [bs[i]];
        IdsSnoc(bs[..i], bs[i]);
        live := live + {bs[i].nodeId};
        AddOrCheck(bs[i]);
        i := i + 1;
      }
      assert bs[..|bs|] == bs;
    }

    /** The removal loop: each known broker in turn, closing and erasing the ones that are gone. */
    method EraseDead(live: set<int>)
      modifies this
      ensures View() == RemoveDead(old(View()), live)
    {
      var left := brokers.Keys;
      ghost var seen: set<int> := {};
      while left != {}
        invariant seen + left == old(brokers).Keys && seen * left == {}
        invariant partitions == old(partitions) && made == old(made) && fault == old(fault)
        invariant forall id :: id in brokers <==> id in old(brokers) && (id in left || id in live)
        invariant forall id :: id in brokers ==> brokers[id] == old(brokers)[id]
        invariant forall b :: b in closed <==> b in old(closed) || Erased(old(brokers), live, seen, b)
        decreases left
      {
        ghost var some := Inhabited(left);
        assert some in left;
        var id :| id in left;
        ghost var was := seen;
        ghost var before := closed;
        if id !in live {
          if brokers[id].broker.Some? {
            closed := closed + {brokers[id].broker.value};
          }
          brokers := brokers - {id};
        }
        seen := seen + {id};
        left := left - {id};
        ErasedStep(old(brokers), live, was, id, before, closed, old(closed));
      }
      ErasedAll(old(brokers), live, seen);
      ghost var kept := Alive(old(brokers), live);
      forall id | id in kept ensures id in brokers && brokers[id] == kept[id] {}
      forall id | id in brokers ensures id in kept {}
      assert kept.Keys <= brokers.Keys && brokers.Keys <= kept.Keys;
      assert brokers == kept;
      assert closed == old(closed) + Pointers(Dead(old(brokers), live));
    }

    /** The last two loops of a refresh, over topics and their partitions. */
    method BuildPartitions(ts: seq<TopicMetaData>) returns (m: map<Key, int>)
      ensures m == InsertAll(map[], Entries(ts))
    {
      m := map[];
      var i := 0;
      while i < |ts|
        invariant 0 <= i <= |ts|
        invariant InsertAll(m, Entries(ts[i..])) == InsertAll(map[], Entries(ts))
      {
        var t := ts[i];
        var es := TopicEntries(t);
        assert ts[i..][0] == t && ts[i..][1..] == ts[i + 1..];
        InsertAllAppend(m, es, Entries(ts[i + 1..]));
        ghost var start := m;
        var j := 0;
        while j < |t.partitions|
          invariant 0 <= j <= |t.partitions|
          invariant InsertAll(m, es[j..]) == InsertAll(start, es)
        {
          assert es[j..][0] == es[j] && es[j..][1..] == es[j + 1..];
          var p := Key(t.name, t.partitions[j].id);
          if p !in m {
            m := m[p := t.partitions[j].leader];
          }
          j := j + 1;
        }
        i := i + 1;
      }
    }

    /**
     The section of refresh_meta that applies a response. The size comparison skips the
     removal loop only when there is nothing to remove.
     */
    method ApplyResponse(r: MetadataResponse)
      requires !fault
      modifies this
      ensures View() == Apply(old(View()), r)
    {
      hide ListBrokers, RemoveDead, InsertAll, Entries;
      var live := AddBrokers(r.brokers);
      if fault {
        return;
      }
      KeysListed(old(View()), r.brokers);
      ghost var d := View();
      ShortcutSound(brokers, live);
      if |live| < |brokers.Keys| {
        EraseDead(live);
      } else {
        NothingDead(d, live);
      }
      partitions := BuildPartitions(r.topics);
    }

    /** get_broker_for_partition from taking mu_ to leaving it. */
    method FindBroker(p: Key) returns (a: Answer)
      requires WellFormed(View())
      modifies this
      ensures (View(), a) == Lookup(old(View()), p) && WellFormed(View())
      ensures Covered(old(View())) ==> !a.Impossible? && Covered(View())
      ensures a.Unknown? <==> p !in old(partitions) || old(partitions)[p] < 0
      ensures a.Found? <==> p in old(partitions) && old(partitions)[p] >= 0 && old(partitions)[p] in old(brokers)
      ensures a.Found? && Live(old(View()), old(partitions)[p]) ==>
        View() == old(View()) && brokers[partitions[p]].broker == Some(a.broker)
      ensures a.Found? && !Live(old(View()), old(partitions)[p]) ==>
        OneMade(old(View()), View(), partitions[p]) && a.broker == |made| - 1
    {
      LookupFound(View(), p);
      LookupExact(View(), p);
      if p !in partitions || partitions[p] < 0 {
        return Unknown;
      }
      var id := partitions[p];
      if id !in brokers {
        return Impossible;
      }
      var k := brokers[id];
      if k.broker.None? || k.broker.value in closed {
        k := k.(broker := Some(|made|));
        brokers := brokers[id := k];
        made := made + [Instance(id, k.config.host, k.config.port)];
      }
      return Found(k.broker.value);
    }

    /**
     The section of refresh_meta that finds somebody to ask: the connection of the smallest node
     id that has one that is up, or else the configured addresses in order. results is what each
     connect would return.
     */
    method PickBroker(configs: seq<Broker>, results: seq<int>) returns (b: Option<nat>, error: Option<int>)
      requires |results| == |configs|
      modifies this
      ensures (exists id :: Live(old(View()), id)) ==>
        View() == old(View()) && error == None && exists id :: Least(View(), id) && brokers[id].broker == b
      ensures (forall id :: !Live(old(View()), id)) ==>
        View() == Dial(old(View()), configs, Failures(results))
        && error == LastTried(results)
        && b == (if configs == [] then None else Some(|made| - 1))
    {
      var left, best: Option<int> := brokers.Keys, None;
      while left != {}
        invariant left <= brokers.Keys && View() == old(View())
        invariant best.None? ==> forall id :: id in brokers && id !in left ==> !Live(View(), id)
        invariant best.Some? ==> Live(View(), best.value)
        invariant best.Some? ==> forall id :: id in brokers && id !in left && Live(View(), id) ==> best.value <= id
        decreases left
      {
        ghost var some := Inhabited(left);
        assert some in left;
        var id :| id in left;
        if brokers[id].broker.Some? && brokers[id].broker.value !in closed && (best.None? || id < best.value) {
          best := Some(id);
        }
        left := left - {id};
      }
      if best.Some? {
        assert Least(View(), best.value);
        return brokers[best.value].broker, None;
      }
      b, error := DialConfigs(configs, results);
    }

    method DialConfigs(configs: seq<Broker>, results: seq<int>) returns (b: Option<nat>, error: Option<int>)
      requires |results| == |configs|
      modifies this
      ensures View() == Dial(old(View()), configs, Failures(results))
      ensures error == LastTried(results)
      ensures b == if configs == [] then None else Some(|made| - 1)
    {
      hide Numbers, Tried, Failures;
      b, error := None, None;
      ghost var start := |made|;
      NothingYet(configs, start);
      var i := 0;
      while i < |configs| && (i == 0 || error != Some(0))
        invariant 0 <= i <= |configs|
        invariant brokers == old(brokers) && partitions == old(partitions) && fault == old(fault)
        invariant made == old(made) + Tried(configs, i)
        invariant i == 0 ==> b == None && error == None
        invariant i > 0 ==> b == Some(start + i - 1) && error == Some(results[i - 1])
        invariant forall j :: 0 <= j < i - 1 ==> results[j] != 0
        invariant closed == old(closed) + Numbers(start, if i > 0 && results[i - 1] == 0 then i - 1 else i)
        decreases |configs| - i
      {
        b := Some(|made|);
        made := made + [Instance(0, configs[i].host, configs[i].port)];
        error := Some(results[i]);
        NumbersSnoc(start, i);
        TriedSnoc(configs, i);
        if results[i] != 0 {
          closed := closed + {b.value};
        }
        i := i + 1;
      }
      FirstSuccess(results, if i > 0 && results[i - 1] == 0 then i - 1 else i);
    }

    method CloseFailed(b: nat)
      requires WellFormed(View()) && b < |made|
      modifies this
      ensures View() == CloseBroker(old(View()), b) && WellFormed(View()) && Covered(View())
      ensures b !in Pointers(brokers)
    {
      ClosedIsGone(View(), b, Key([], 0));
      closed := closed + {b};
      var id := made[b].node;
      if id in brokers {
        if brokers[id].broker == Some(b) {
          brokers := brokers[id := brokers[id].(broker := None)];
        }
      }
      partitions := map[];
    }

    /** produce() was told that its metadata is stale. */
    method ForgetPartition(p: Key)
      requires WellFormed(View())
      modifies this
      ensures View() == Forget(old(View()), p) && WellFormed(View())
      ensures Covered(old(View())) ==> Covered(View())
    {
      if p in partitions {
        partitions := partitions - {p};
      }
    }
  }

  /** b is the connection of a broker that is gone and has been visited. */
  ghost predicate Erased(brokers: map<int, Container>, live: set<int>, seen: set<int>, b: nat) {
    exists id :: id in seen && id in brokers && id !in live && brokers[id].broker == Some(b)
  }

  lemma ErasedStep(
      brokers: map<int, Container>, live: set<int>, seen: set<int>, id: int, before: set<nat>, after: set<nat>,
      start: set<nat>)
    requires id in brokers
    requires forall b :: b in before <==> b in start || Erased(brokers, live, seen, b)
    requires after == if id !in live && brokers[id].broker.Some? then before + {brokers[id].broker.value} else before
    ensures forall b :: b in after <==> b in start || Erased(brokers, live, seen + {id}, b)
  {}

  lemma ErasedAll(brokers: map<int, Container>, live: set<int>, seen: set<int>)
    requires seen == brokers.Keys
    ensures forall b :: Erased(brokers, live, seen, b) <==> b in Pointers(Dead(brokers, live))
  {
    var dead := Dead(brokers, live);
    forall b: nat ensures Erased(brokers, live, seen, b) <==> b in Pointers(dead) {
      if Erased(brokers, live, seen, b) {
        var id :| id in seen && id in brokers && id !in live && brokers[id].broker == Some(b);
        assert id in dead && dead[id].broker.Some?;
      }
    }
  }

  /** How many connects fail before one succeeds. */
  function Failures(results: seq<int>): (n: nat)
    ensures n <= |results|
  {
    if results == [] || results[0] == 0 then 0 else 1 + Failures(results[1..])
  }

  /** The result of the last connect that was tried: the first that succeeds, or the last of all. */
  function LastTried(results: seq<int>): Option<int> {
    if results == [] then None
    else Some(results[if Failures(results) < |results| then Failures(results) else |results| - 1])
  }

  lemma {:induction false} FirstSuccess(results: seq<int>, n: nat)
    requires n <= |results| && (n < |results| ==> results[n] == 0) && forall j :: 0 <= j < n ==> results[j] != 0
    ensures Failures(results) == n
  {
    if n > 0 { FirstSuccess(results[1..], n - 1); }
  }

  lemma TriedSnoc(configs: seq<Broker>, n: nat)
    requires n < |configs|
    ensures Tried(configs, n + 1) == Tried(configs, n) + [Instance(0, configs[n].host, configs[n].port)]
  {}

  lemma NothingYet(configs: seq<Broker>, first: nat)
    ensures Tried(configs, 0) == [] && Numbers(first, 0) == {}
  {}

  lemma NumbersAre(first: nat, n: nat, x: nat)
    ensures x in Numbers(first, n) <==> first <= x < first + n
  {
    var ns := seq(n, i requires 0 <= i < n => first + i);
    if first <= x < first + n { assert ns[x - first] == x; }
  }

  lemma NumbersSnoc(first: nat, n: nat)
    ensures Numbers(first, n + 1) == Numbers(first, n) + {first + n}
  {
    forall x: nat ensures x in Numbers(first, n + 1) <==> x in Numbers(first, n) || x == first + n {
      NumbersAre(first, n, x);
      NumbersAre(first, n + 1, x);
    }
  }

  lemma {:induction false} InsertAllAppend(m: map<Key, int>, a: seq<Entry>, b: seq<Entry>)
    ensures InsertAll(m, a + b) == InsertAll(InsertAll(m, a), b)
    decreases |a|
  {
    if a == [] {
      assert a + b == b;
    } else {
      assert (a + b)[1..] == a[1..] + b;
      InsertAllAppend(InsertNew(m, a[0]), a[1..], b);
    }
  }

  lemma KeysListed(c: Cache, bs: seq<Broker>)
    requires !c.fault && !ListBrokers(c, bs).fault
    ensures Ids(bs) <= ListBrokers(c, bs).brokers.Keys
  {
    ListedNothing(c.brokers);
    ListAll(c.brokers, [], c, bs);
    assert [] + bs == bs;
  }
}
