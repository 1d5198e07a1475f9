/** What a call of produce() returns, why, and what it leaves behind, over whole runs. */
module ProduceOutcomes {
  import opened Bytes
  import opened Protocol
  import opened MetadataModel
  import opened MetadataRuns
  import opened MetadataProperties

  // ---------- the steps of one thread ----------

  /** The run from s passes through u. */
  ghost predicate Passes(s: State, es: seq<Event>, u: State) {
    exists a :: a <= es && RunOf(s, a) && u == After(s, a)
  }

  predicate Own(e: Event, k: nat) {
    (e.Run? || e.LockMeta?) && e.k == k
  }

  /** What other threads and the outside do leaves a thread where it is, and the error with who refreshes. */
  lemma OtherStep(s: State, e: Event, k: nat)
    requires Inv(s) && Enabled(s, e) && k < |s.threads| && !Own(e, k)
    ensures var t := Step(s, e);
      && k < |t.threads| && t.threads[k] == s.threads[k]
      && (InMeta(s.threads[k].pc) ==> t.lastError == s.lastError)
  {
    hide NewPc, NewCache, NewError, Accepts, ThreadsSound, WellFormed;
    if e.Run? && InMeta(s.threads[k].pc) { ErrorByHolder(s, e.k, e.input); }
  }

  /** A run cut at a step of its own: what comes before it, the step, what comes after. */
  ghost predicate Cut(s: State, es: seq<Event>, k: nat, a: seq<Event>, e: Event, b: seq<Event>) {
    && es == a + [e] + b && Own(e, k)
    && RunOf(s, a) && Enabled(After(s, a), e) && RunOf(Step(After(s, a), e), b)
    && After(s, es) == After(Step(After(s, a), e), b)
    && Inv(After(s, a)) && Inv(Step(After(s, a), e))
  }

  lemma CutCons(s: State, d: Event, es: seq<Event>, k: nat, a: seq<Event>, e: Event, b: seq<Event>)
    requires Enabled(s, d) && Cut(Step(s, d), es, k, a, e, b)
    ensures Cut(s, [d] + es, k, [d] + a, e, b)
    ensures After(s, [d] + a) == After(Step(s, d), a)
  {
    hide Enabled, Step, Inv;
    assert ([d] + es)[1..] == es && ([d] + a)[1..] == a;
    assert [d] + es == [d] + a + [e] + b;
  }

  lemma CutHere(s: State, es: seq<Event>, k: nat)
    requires Inv(s) && RunOf(s, es) && es != [] && Own(es[0], k)
    ensures Cut(s, es, k, [], es[0], es[1..])
  {
    StepInv(s, es[0]);
    hide Enabled, Step, Inv;
    assert es == [] + [es[0]] + es[1..];
  }

  /** The first step of a thread that moves during a run. */
  lemma {:induction false} NextStep(s: State, es: seq<Event>, k: nat)
      returns (a: seq<Event>, e: Event, b: seq<Event>)
    requires Inv(s) && RunOf(s, es) && k < |s.threads|
    requires k < |After(s, es).threads| ==> After(s, es).threads[k].pc != s.threads[k].pc
    ensures Cut(s, es, k, a, e, b)
    ensures var u := After(s, a);
      && k < |u.threads| && u.threads[k] == s.threads[k]
      && (InMeta(s.threads[k].pc) ==> u.lastError == s.lastError)
    decreases |es|
  {
    if Own(es[0], k) {
      a, e, b := [], es[0], es[1..];
      CutHere(s, es, k);
    } else {
      OtherStep(s, es[0], k);
      StepInv(s, es[0]);
      hide Enabled, Step, Inv, Cut;
      a, e, b := NextStep(Step(s, es[0]), es[1..], k);
      CutCons(s, es[0], es[1..], k, a, e, b);
      assert [es[0]] + es[1..] == es;
      a := [es[0]] + a;
    }
  }

  /** The states on both sides of a cut are passed through, and so is all that comes after. */
  lemma CutPasses(s: State, es: seq<Event>, k: nat, a: seq<Event>, e: Event, b: seq<Event>)
    requires Cut(s, es, k, a, e, b)
    ensures Passes(s, es, After(s, a)) && Passes(s, es, Step(After(s, a), e))
    ensures forall u :: Passes(Step(After(s, a), e), b, u) ==> Passes(s, es, u)
  {
    hide Enabled, Step, Inv;
    RunSnoc(s, a, e);
    assert a <= es && a + [e] <= es;
    forall u | Passes(Step(After(s, a), e), b, u) ensures Passes(s, es, u) {
      var c :| c <= b && RunOf(Step(After(s, a), e), c) && u == After(Step(After(s, a), e), c);
      RunAppend(s, a + [e], c);
      assert a + [e] + c <= es;
    }
  }

  /** A state of some run from the start. */
  ghost predicate Reachable(s: State) {
    exists retries, configs, es :: RunOf(Start(retries, configs), es) && s == After(Start(retries, configs), es)
  }

  lemma ReachableInv(s: State)
    requires Reachable(s)
    ensures Inv(s)
  {
    var retries, configs, es :|
      RunOf(Start(retries, configs), es) && s == After(Start(retries, configs), es);
    StartInv(retries, configs);
    RunInv(Start(retries, configs), es);
  }

  /** Thread k is at this place. */
  predicate At(s: State, k: nat, pc: Pc) {
    k < |s.threads| && s.threads[k].pc == pc
  }

  predicate Over(s: State, k: nat) {
    k < |s.threads| && Ended(s.threads[k].pc)
  }

  /** A call that has ended has ended. */
  lemma {:induction false} StaysOver(s: State, es: seq<Event>, k: nat)
    requires Inv(s) && RunOf(s, es) && Over(s, k)
    ensures At(After(s, es), k, s.threads[k].pc)
    decreases |es|
  {
    if es != [] {
      if Own(es[0], k) { assert false; }
      OtherStep(s, es[0], k);
      StepInv(s, es[0]);
      hide Enabled, Step, Inv;
      StaysOver(Step(s, es[0]), es[1..], k);
    }
  }

  /** The next step of a call that is over at the end of the run, and is not waiting for meta_fetch_mu_. */
  lemma NextMove(s: State, es: seq<Event>, k: nat, pc: Pc) returns (v: State, i: Input, b: seq<Event>)
    requires Inv(s) && RunOf(s, es) && At(s, k, pc) && !Ended(pc) && !pc.Queued? && Over(After(s, es), k)
    ensures Inv(v) && At(v, k, pc) && v.threads[k] == s.threads[k] && Enabled(v, Run(k, i)) && Passes(s, es, v)
    ensures var w := Step(v, Run(k, i));
      && Inv(w) && At(w, k, NewPc(v, k, i)) && Passes(s, es, w) && RunOf(w, b) && After(w, b) == After(s, es)
      && forall u :: Passes(w, b, u) ==> Passes(s, es, u)
    ensures v.retries == s.retries && (InMeta(pc) ==> v.lastError == s.lastError)
  {
    var a, e, c := NextStep(s, es, k);
    v, b := After(s, a), c;
    RunInv(s, a);
    CutPasses(s, es, k, a, e, b);
    hide RunOf, After, Inv, Passes, NewPc, NewCache, NewError, Accepts;
    i := e.input;
  }

  // ---------- what each answer of the network comes to ----------

  /** close_broker has dealt with b: it is closed and in no container, and no partition is known. */
  ghost predicate Gone(c: Cache, b: nat) {
    b in c.closed && b !in Pointers(c.brokers) && c.partitions == map[]
  }

  lemma ClosingStep(s: State, k: nat, b: nat, i: Input)
    requires Inv(s) && Enabled(s, Run(k, i))
    requires s.threads[k].pc.Dropping? || s.threads[k].pc.Closing?
    requires s.threads[k].pc.broker == b
    ensures Gone(Step(s, Run(k, i)).cache, b)
  {
    hide LocksSound, NewPc, NewError, Pointers, WellFormed, CloseBroker;
    assert InBounds(|s.cache.made|, s.now, s.threads[k].pc);
    ClosedIsGone(s.cache, b, s.threads[k].partition);
    CloseForgets(s.cache, b);
  }

  lemma CloseForgets(c: Cache, b: nat)
    requires b < |c.made|
    ensures CloseBroker(c, b).partitions == map[]
  {}

  lemma FailedStep(s: State, k: nat, b: nat, code: int)
    requires (At(s, k, Connecting(b)) || At(s, k, Calling(b))) && code != NO_ERROR
    ensures At(Step(s, Run(k, Result(code))), k, Dropping(b, code))
  {}

  /**
   A connect or a produce request that fails: the call returns that very error, and before it
   does it has closed the connection, taken it out of its container and forgotten every
   partition, whatever other calls do meanwhile.
   */
  lemma FailureCleansUp(s: State, k: nat, b: nat, code: int, rest: seq<Event>) returns (u: State)
    requires Reachable(s) && (At(s, k, Connecting(b)) || At(s, k, Calling(b))) && code != NO_ERROR
    requires Enabled(s, Run(k, Result(code)))
    requires var t := Step(s, Run(k, Result(code))); RunOf(t, rest) && Over(After(t, rest), k)
    ensures var t := Step(s, Run(k, Result(code)));
      && Passes(t, rest, u) && Gone(u.cache, b)
      && At(After(t, rest), k, Finished(code))
  {
    ReachableInv(s);
    var t := Step(s, Run(k, Result(code)));
    StepInv(s, Run(k, Result(code)));
    FailedStep(s, k, b, code);
    hide Reachable, RunOf, After, Inv, Passes, Enabled, Gone, Step;
    var v, i, c := NextMove(t, rest, k, Dropping(b, code));
    u := Step(v, Run(k, i));
    ClosingStep(v, k, b, i);
    StaysOver(u, c, k);
  }

  /**
   A produce request that is answered: the call returns the code of the answer. For 3, 5, 6 and
   9 it has forgotten its own partition before, and nothing else; for any other code it has
   left the cache alone.
   */
  lemma AnswerReturned(s: State, k: nat, b: nat, code: int, rest: seq<Event>) returns (v: State)
    requires Reachable(s) && At(s, k, Calling(b)) && Enabled(s, Run(k, Acked(code)))
    requires var t := Step(s, Run(k, Acked(code))); RunOf(t, rest) && Over(After(t, rest), k)
    ensures var t := Step(s, Run(k, Acked(code)));
      && t.cache == s.cache
      && At(After(t, rest), k, Finished(code))
      && (if code in {3, 5, 6, 9} then
            var w := Step(v, Run(k, Nothing));
            && Passes(t, rest, v) && Passes(t, rest, w)
            && w.cache == v.cache.(partitions := v.cache.partitions - {s.threads[k].partition})
          else At(t, k, Finished(code)))
  {
    ReachableInv(s);
    var t := Step(s, Run(k, Acked(code)));
    StepInv(s, Run(k, Acked(code)));
    hide Reachable, RunOf, After, Inv, Passes;
    if code in {3, 5, 6, 9} {
      var i, c;
      v, i, c := NextMove(t, rest, k, Forgetting(code));
      StaysOver(Step(v, Run(k, i)), c, k);
    } else {
      StaysOver(t, rest, k);
      v := t;
    }
  }

  /** A call that finds no broker after its refresh returns last_meta_error_, or 3 if that is clear. */
  lemma NotFoundReturned(s: State, k: nat, rest: seq<Event>) returns (v: State)
    requires Reachable(s) && At(s, k, Looking(false)) && Enabled(s, Run(k, Nothing))
    requires Lookup(s.cache, s.threads[k].partition).1 == Unknown
    requires var t := Step(s, Run(k, Nothing)); RunOf(t, rest) && Over(After(t, rest), k)
    ensures var t := Step(s, Run(k, Nothing));
      && Passes(t, rest, v)
      && At(After(t, rest), k, Finished(if v.lastError != NO_ERROR then v.lastError else 3))
  {
    ReachableInv(s);
    var t := Step(s, Run(k, Nothing));
    StepInv(s, Run(k, Nothing));
    hide Reachable, RunOf, After, Inv, Passes, Lookup;
    var i, c;
    v, i, c := NextMove(t, rest, k, Reporting);
    StaysOver(Step(v, Run(k, i)), c, k);
  }

  /** From recording a failed attempt to the next one or to giving up. */
  lemma RecordedThen(s: State, k: nat, n: nat, code: int, rest: seq<Event>) returns (w: State)
    requires Inv(s) && At(s, k, Recording(n, code)) && RunOf(s, rest) && Over(After(s, rest), k)
    ensures Passes(s, rest, w) && w.lastError == code
    ensures At(w, k, if n < s.retries then Asking(n + 1) else Looking(false))
  {
    hide RunOf, After, Inv, Passes, NewCache, Accepts;
    var v, i, b := NextMove(s, rest, k, Recording(n, code));
    var x := Step(v, Run(k, i));
    assert x.lastError == code;
    var v', i', b' := NextMove(x, b, k, Leaving(if n < s.retries then Some(n + 1) else None));
    w := Step(v', Run(k, i'));
  }

  /**
   A metadata request that fails: the connection is closed and forgotten, the error recorded,
   and the refresh is tried again exactly if this was attempt n < retry_attempts_.
   */
  lemma FetchRetried(s: State, k: nat, n: nat, b: nat, code: int, rest: seq<Event>) returns (u: State, w: State)
    requires Reachable(s) && At(s, k, Fetching(n, b)) && code != NO_ERROR && Enabled(s, Run(k, Result(code)))
    requires var t := Step(s, Run(k, Result(code))); RunOf(t, rest) && Over(After(t, rest), k)
    ensures var t := Step(s, Run(k, Result(code)));
      && Passes(t, rest, u) && Gone(u.cache, b)
      && Passes(t, rest, w) && w.lastError == code
      && At(w, k, if n < s.retries then Asking(n + 1) else Looking(false))
  {
    ReachableInv(s);
    var t := Step(s, Run(k, Result(code)));
    StepInv(s, Run(k, Result(code)));
    assert At(t, k, Closing(n, b, code));
    assert t.retries == s.retries;
    hide Reachable, RunOf, After, Inv, Passes, Enabled, Gone, Step;
    var v, i, c := NextMove(t, rest, k, Closing(n, b, code));
    u := Step(v, Run(k, i));
    ClosingStep(v, k, b, i);
    assert u.retries == v.retries by { SameRetries(v, Run(k, i)); }
    w := RecordedThen(u, k, n, code, c);
  }

  lemma SameRetries(s: State, e: Event)
    ensures Step(s, e).retries == s.retries
  {}

  /**
   A refresh that finds nobody to ask, because every configured address failed: no fetch, no
   further attempt, and the error of the last address is the one recorded.
   */
  lemma NobodyToAsk(s: State, k: nat, n: nat, i: Input, rest: seq<Event>) returns (w: State)
    requires Reachable(s) && At(s, k, Picking(n)) && Enabled(s, Run(k, i)) && i.id.None? && i.failures == |s.configs|
    requires var t := Step(s, Run(k, i)); RunOf(t, rest) && Over(After(t, rest), k)
    ensures var t := Step(s, Run(k, i));
      && Passes(t, rest, w) && At(w, k, Looking(false)) && w.threads[k].fetches == s.threads[k].fetches
      && w.lastError == if s.configs == [] then s.lastError else i.err
  {
    ReachableInv(s);
    var t := Step(s, Run(k, i));
    StepInv(s, Run(k, i));
    hide Reachable, RunOf, After, Inv, Passes, GoodChoice, NewCache;
    assert At(t, k, Leaving(None));
    var v, j, c := NextMove(t, rest, k, Leaving(None));
    w := Step(v, Run(k, j));
  }

  /** A metadata response that arrives is applied to the cache as it is by then, and clears the error. */
  lemma FetchApplied(s: State, k: nat, n: nat, b: nat, r: MetadataResponse, rest: seq<Event>) returns (v: State)
    requires Reachable(s) && At(s, k, Fetching(n, b)) && Enabled(s, Run(k, Response(r)))
    requires var t := Step(s, Run(k, Response(r))); RunOf(t, rest) && Over(After(t, rest), k)
    ensures var t, w := Step(s, Run(k, Response(r))), Step(v, Run(k, Nothing));
      && Passes(t, rest, v) && Passes(t, rest, w)
      && w.cache == Apply(v.cache, r) && w.lastError == NO_ERROR
  {
    ReachableInv(s);
    var t := Step(s, Run(k, Response(r)));
    StepInv(s, Run(k, Response(r)));
    hide Reachable, RunOf, After, Inv, Passes, Apply;
    var i, c;
    v, i, c := NextMove(t, rest, k, Applying(r));
  }

  lemma {:induction false} TimePasses(s: State, es: seq<Event>)
    requires RunOf(s, es)
    ensures s.now <= After(s, es).now
    decreases |es|
  {
    if es != [] {
      hide Enabled, NewPc, NewCache, NewError;
      TimePasses(Step(s, es[0]), es[1..]);
    }
  }

  /** A call that does not find its partition the first time asks for a refresh before it returns. */
  lemma UnknownRefreshes(s: State, k: nat, rest: seq<Event>) returns (w: State)
    requires Reachable(s) && At(s, k, Looking(true)) && Enabled(s, Run(k, Nothing))
    requires Lookup(s.cache, s.threads[k].partition).1 == Unknown
    requires var t := Step(s, Run(k, Nothing)); RunOf(t, rest) && Over(After(t, rest), k)
    ensures var t := Step(s, Run(k, Nothing));
      Passes(t, rest, w) && s.now <= w.now && At(w, k, Queued(0, w.now))
  {
    ReachableInv(s);
    var t := Step(s, Run(k, Nothing));
    StepInv(s, Run(k, Nothing));
    hide Reachable, RunOf, After, Inv, Passes, Lookup;
    var v, i, c := NextMove(t, rest, k, Asking(0));
    w := Step(v, Run(k, i));
    assert t.now <= v.now by { PassesLater(t, rest, v); }
  }

  lemma PassesLater(s: State, es: seq<Event>, u: State)
    requires Passes(s, es, u)
    ensures s.now <= u.now
  {
    var a :| a <= es && RunOf(s, a) && u == After(s, a);
    TimePasses(s, a);
  }

  // ---------- where a call has come from ----------

  /** Calls keep their partitions. */
  lemma {:induction false} SamePartition(s: State, es: seq<Event>, k: nat)
    requires RunOf(s, es) && k < |s.threads|
    ensures k < |After(s, es).threads| && After(s, es).threads[k].partition == s.threads[k].partition
    decreases |es|
  {
    if es != [] {
      PartitionKept(s, es[0], k);
      hide Enabled, Step;
      SamePartition(Step(s, es[0]), es[1..], k);
    }
  }

  lemma PartitionKept(s: State, e: Event, k: nat)
    requires k < |s.threads|
    ensures k < |Step(s, e).threads| && Step(s, e).threads[k].partition == s.threads[k].partition
  {
    hide NewPc, NewCache, NewError;
  }

  /** The step that took a call where it is. */
  lemma {:induction false} ArrivalStep(s: State, es: seq<Event>, k: nat, pc: Pc)
      returns (a: seq<Event>, e: Event, b: seq<Event>)
    requires Inv(s) && RunOf(s, es) && At(After(s, es), k, pc) && pc != Looking(true) && !At(s, k, pc)
    ensures Cut(s, es, k, a, e, b) && k < |After(s, a).threads| && At(Step(After(s, a), e), k, pc)
    decreases |es|
  {
    var t := Step(s, es[0]);
    if At(t, k, pc) {
      if !Own(es[0], k) && k < |s.threads| { OtherStep(s, es[0], k); }
      a, e, b := [], es[0], es[1..];
      CutHere(s, es, k) by { assert Own(es[0], k); }
    } else {
      StepInv(s, es[0]);
      hide Enabled, Step, Inv, Cut;
      a, e, b := ArrivalStep(t, es[1..], k, pc);
      CutCons(s, es[0], es[1..], k, a, e, b);
      assert [es[0]] + es[1..] == es;
      a := [es[0]] + a;
    }
  }

  lemma {:induction false} MadeGrows(s: State, es: seq<Event>)
    requires Inv(s) && RunOf(s, es)
    ensures s.cache.made <= After(s, es).cache.made
    decreases |es|
  {
    if es != [] {
      StepInv(s, es[0]);
      MadeStep(s, es[0]);
      hide Enabled, Step, Inv;
      MadeGrows(Step(s, es[0]), es[1..]);
    }
  }

  lemma MadeStep(s: State, e: Event)
    requires Inv(s) && Enabled(s, e)
    ensures s.cache.made <= Step(s, e).cache.made
  {
    match e
    case Run(k, i) => CacheSound(s, k, i); hide NewCache, NewPc, NewError;
    case LockMeta(k) => QueuedCache(s, k, Nothing); hide NewCache, NewPc, NewError;
    case _ =>
  }

  /** Before this run was over, thread k took the step e in state s, and everything made by then is still there. */
  ghost predicate Took(s0: State, es: seq<Event>, k: nat, a: seq<Event>, e: Event) {
    && a + [e] <= es && RunOf(s0, a) && Own(e, k)
    && var s, t := After(s0, a), After(s0, es);
       && Inv(s) && Enabled(s, e) && k < |s.threads| && k < |t.threads|
       && s.threads[k].partition == t.threads[k].partition && Step(s, e).cache.made <= t.cache.made
  }

  lemma CameFrom(retries: int, configs: seq<Broker>, es: seq<Event>, k: nat, pc: Pc)
      returns (a: seq<Event>, e: Event)
    requires RunOf(Start(retries, configs), es) && At(After(Start(retries, configs), es), k, pc) && pc != Looking(true)
    ensures Took(Start(retries, configs), es, k, a, e)
    ensures At(Step(After(Start(retries, configs), a), e), k, pc)
  {
    var s0 := Start(retries, configs);
    StartInv(retries, configs);
    var b;
    a, e, b := ArrivalStep(s0, es, k, pc);
    var s := After(s0, a);
    PartitionKept(s, e, k);
    SamePartition(Step(s, e), b, k);
    MadeGrows(Step(s, e), b);
  }

  lemma Earlier(s0: State, es: seq<Event>, k: nat, a: seq<Event>, e: Event, c: seq<Event>, d: Event)
    requires Took(s0, es, k, a, e) && Took(s0, a, k, c, d)
    ensures Took(s0, es, k, c, d)
  {
    MadeStep(After(s0, a), e);
    hide RunOf, After, Inv, Enabled, Step;
  }

  /**
   Every result of produce() has its reason in the run: an answer with that code, a connect or
   request that failed with it, or no broker found, with the error of the last refresh.
   */
  lemma ResultExplained(retries: int, configs: seq<Broker>, es: seq<Event>, k: nat, code: int)
      returns (a: seq<Event>, e: Event)
    requires RunOf(Start(retries, configs), es) && At(After(Start(retries, configs), es), k, Finished(code))
    ensures Took(Start(retries, configs), es, k, a, e)
    ensures var s := After(Start(retries, configs), a);
      var pc := s.threads[k].pc;
      || (e == Run(k, Acked(code)) && pc.Calling?)
      || (e == Run(k, Result(code)) && code != NO_ERROR && (pc.Connecting? || pc.Calling?))
      || (e == Run(k, Nothing) && pc == Reporting && code == if s.lastError != NO_ERROR then s.lastError else 3)
  {
    var s0 := Start(retries, configs);
    a, e := CameFrom(retries, configs, es, k, Finished(code));
    var pc := After(s0, a).threads[k].pc;
    FinishedFrom(After(s0, a), k, e, code);
    hide Inv, Enabled, Step, RunOf, After, Start;
    if pc.Dropping? || pc.Forgetting? {
      var c, d := CameFrom(retries, configs, a, k, pc);
      LeftFrom(After(s0, c), k, d, pc);
      Earlier(s0, es, k, a, e, c, d);
      a, e := c, d;
    }
  }

  /** In every run, a produce() that returned success had its batch acknowledged without error. */
  lemma SuccessWasAcked(retries: int, configs: seq<Broker>, es: seq<Event>, k: nat) returns (i: nat)
    requires RunOf(Start(retries, configs), es) && At(After(Start(retries, configs), es), k, Finished(NO_ERROR))
    ensures i < |es| && es[i] == Run(k, Acked(NO_ERROR))
  {
    var a, e := ResultExplained(retries, configs, es, k, NO_ERROR);
    hide RunOf, After, Inv, Enabled, Step;
    i := |a|;
    assert (a + [e])[i] == e;
  }

  lemma FinishedFrom(s: State, k: nat, e: Event, code: int)
    requires Enabled(s, e) && Own(e, k) && k < |s.threads| && At(Step(s, e), k, Finished(code))
    ensures var pc := s.threads[k].pc;
      || (e == Run(k, Acked(code)) && pc.Calling?)
      || (e == Run(k, Nothing) && pc == Reporting && code == if s.lastError != NO_ERROR then s.lastError else 3)
      || (pc.Dropping? && pc.err == code) || pc == Forgetting(code)
  {
    hide NewCache, NewError, Lookup;
  }

  lemma LeftFrom(s: State, k: nat, e: Event, next: Pc)
    requires Enabled(s, e) && Own(e, k) && k < |s.threads| && At(Step(s, e), k, next)
    requires next.Dropping? || next.Forgetting?
    ensures var pc := s.threads[k].pc;
      if next.Forgetting? then e == Run(k, Acked(next.err)) && pc.Calling?
      else e == Run(k, Result(next.err)) && next.err != NO_ERROR && (pc.Connecting? || pc.Calling?)
  {
    hide NewCache, NewError, Lookup;
  }

  /**
   A call connects to, and sends its batch to, the broker that led its partition when it was
   looked up, at the address on record for it then.
   */
  lemma SentToLeader(retries: int, configs: seq<Broker>, es: seq<Event>, k: nat, b: nat)
      returns (a: seq<Event>, e: Event)
    requires RunOf(Start(retries, configs), es)
    requires var t := After(Start(retries, configs), es); At(t, k, Connecting(b)) || At(t, k, Calling(b))
    ensures Took(Start(retries, configs), es, k, a, e)
    ensures var s, t := After(Start(retries, configs), a), After(Start(retries, configs), es);
      var p := s.threads[k].partition;
      && s.threads[k].pc.Looking? && p in s.cache.partitions && s.cache.partitions[p] in s.cache.brokers
      && var leader := s.cache.partitions[p];
         var config := s.cache.brokers[leader].config;
         b < |t.cache.made| && t.cache.made[b] == Instance(leader, config.host, config.port)
  {
    var s0 := Start(retries, configs);
    var t := After(s0, es);
    hide Inv, Enabled, Step, RunOf, After, Start;
    a, e := CameFrom(retries, configs, es, k, t.threads[k].pc);
    if At(t, k, Calling(b)) {
      CalledFrom(After(s0, a), k, e, b);
      var c, d := CameFrom(retries, configs, a, k, Connecting(b));
      Earlier(s0, es, k, a, e, c, d);
      a, e := c, d;
    }
    FoundFrom(After(s0, a), k, e, b);
  }

  /**
   Metadata is asked of the connection on record for the smallest node id that has one up, and
   only without one of a new connection, to the first configured address that connects.
   */
  lemma AskedOf(retries: int, configs: seq<Broker>, es: seq<Event>, k: nat, n: nat, b: nat)
      returns (a: seq<Event>, e: Event)
    requires RunOf(Start(retries, configs), es) && At(After(Start(retries, configs), es), k, Fetching(n, b))
    ensures Took(Start(retries, configs), es, k, a, e)
    ensures var s, t := After(Start(retries, configs), a), After(Start(retries, configs), es);
      && s.threads[k].pc == Picking(n)
      && ((exists id :: Least(s.cache, id) && s.cache.brokers[id].broker == Some(b))
          || ((forall id :: !Live(s.cache, id)) && NewlyDialled(t.cache.made, b, s)))
  {
    var s0 := Start(retries, configs);
    a, e := CameFrom(retries, configs, es, k, Fetching(n, b));
    var s := After(s0, a);
    hide RunOf, After, Start;
    PickedFrom(s, k, e, n, b);
  }

  ghost predicate NewlyDialled(made: seq<Instance>, b: nat, s: State) {
    exists j :: 0 <= j < |s.configs| && b == |s.cache.made| + j && b < |made|
      && made[b] == Instance(0, s.configs[j].host, s.configs[j].port)
  }

  lemma PickedFrom(s: State, k: nat, e: Event, n: nat, b: nat)
    requires Inv(s) && Enabled(s, e) && Own(e, k) && k < |s.threads| && At(Step(s, e), k, Fetching(n, b))
    ensures s.threads[k].pc == Picking(n)
    ensures (exists id :: Least(s.cache, id) && s.cache.brokers[id].broker == Some(b))
      || ((forall id :: !Live(s.cache, id)) && NewlyDialled(Step(s, e).cache.made, b, s))
  {
    hide NewError, Lookup, LocksSound, ThreadsSound, Least, Dial, WellFormed;
    if e.input.id.None? { DialExact(s.cache, s.configs, e.input.failures, e.input.failures); }
  }

  lemma CalledFrom(s: State, k: nat, e: Event, b: nat)
    requires Enabled(s, e) && Own(e, k) && k < |s.threads| && At(Step(s, e), k, Calling(b))
    ensures At(s, k, Connecting(b)) && e == Run(k, Result(NO_ERROR))
  {
    hide NewCache, NewError, Lookup;
  }

  lemma FoundFrom(s: State, k: nat, e: Event, b: nat)
    requires Inv(s) && Enabled(s, e) && Own(e, k) && k < |s.threads| && At(Step(s, e), k, Connecting(b))
    ensures var p := s.threads[k].partition;
      && s.threads[k].pc.Looking? && p in s.cache.partitions && s.cache.partitions[p] in s.cache.brokers
      && var leader := s.cache.partitions[p];
         var config := s.cache.brokers[leader].config;
         var made := Step(s, e).cache.made;
         b < |made| && made[b] == Instance(leader, config.host, config.port)
  {
    LookupFound(s.cache, s.threads[k].partition);
    hide NewError, Lookup, LocksSound, ThreadsSound;
  }
}
