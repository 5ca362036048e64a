/** What holds in every state of every run of the protocol. */
module ProtocolLaws {
  import opened Basics
  import opened CyclicScan
  import opened FailureTable
  import opened Selector
  import opened SelectorLaws
  import opened Protocol

  lemma RunGrows(cfg: Config, start: State, run: seq<Step>, s: State, e: Step)
    requires Final(cfg, start, run) == Some(s) && Enabled(cfg, s, e)
    ensures Final(cfg, start, run + [e]) == Some(After(cfg, s, e))
  {
    assert (run + [e])[..|run|] == run;
  }

  lemma {:induction false} FinalSplit(cfg: Config, s: State, a: seq<Step>, b: seq<Step>)
    requires Possible(cfg, s, a)
    ensures Final(cfg, s, a + b) == Final(cfg, Final(cfg, s, a).value, b)
  {
    hide Enabled, After;
    if b == [] {
      assert a + b == a;
    } else {
      FinalSplit(cfg, s, a, b[..|b| - 1]);
      assert (a + b)[..|a + b| - 1] == a + b[..|b| - 1];
    }
  }

  /** A part of a run that starts in a state with the invariant keeps it. */
  lemma {:induction false} PartKeepsInv(cfg: Config, s: State, run: seq<Step>)
    requires Inv(cfg, s) && Possible(cfg, s, run)
    ensures Inv(cfg, Final(cfg, s, run).value)
  {
    hide Inv, Enabled, After;
    if run != [] {
      PartKeepsInv(cfg, s, run[..|run| - 1]);
      StepKeepsInv(cfg, Final(cfg, s, run[..|run| - 1]).value, run[|run| - 1]);
    }
  }

  // ---------- holders ----------

  /** One handler changes: exactly its own membership in the sets of holders can change. */
  lemma HandlerChanges(s: State, t: State, id: nat, key: string)
    requires forall x :: x != id ==> (x in t.handlers <==> x in s.handlers)
    requires forall x :: x != id && x in s.handlers ==> t.handlers[x] == s.handlers[x]
    ensures Holders(t, key) - {id} == Holders(s, key) - {id}
    ensures AllHolders(t) - {id} == AllHolders(s) - {id}
  {
  }

  lemma SameHandlers(s: State, t: State, key: string)
    requires s.handlers == t.handlers
    ensures Holders(t, key) == Holders(s, key) && AllHolders(t) == AllHolders(s)
  {
  }

  lemma SetGains<T>(small: set<T>, big: set<T>, x: T)
    requires big - {x} == small - {x}
    ensures |big| == |small| + (if x in big && x !in small then 1 else 0) - (if x in small && x !in big then 1 else 0)
  {
    assert big == (big - {x}) + (if x in big then {x} else {});
    assert small == (small - {x}) + (if x in small then {x} else {});
  }

  lemma HoldersAreHandlers(s: State, key: string)
    ensures Outstanding(s, key) <= |s.handlers| && |AllHolders(s)| <= |s.handlers|
  {
    assert Holders(s, key) <= s.handlers.Keys && AllHolders(s) <= s.handlers.Keys;
    SubsetSize(Holders(s, key), s.handlers.Keys);
    SubsetSize(AllHolders(s), s.handlers.Keys);
  }

  // ---------- the invariant ----------

  /** A handler has tried distinct addresses within its limit, the last one being the one it holds. */
  ghost predicate HandlerOk(h: Handler) {
    && h.target != ""
    && Distinct(h.tried)
    && (h.phase == Starting ==> h.tried == [])
    && (h.phase != Starting ==> |h.tried| <= h.limit || h.tried == [])
    && (h.phase.Holding? ==> h.tried != [] && h.tried[|h.tried| - 1] == h.phase.up)
  }

  /** An entry that blocks has reached the threshold. */
  ghost predicate TableOk(cfg: Config, t: Table) {
    forall key :: key in t && t[key].blockedUntil > ZERO_TIME ==> t[key].failCount >= NormalThreshold(cfg.threshold)
  }

  /** Equal as uint64 counters. */
  ghost predicate SameCount(a: int, b: int) {
    a % TWO_TO_64 == b % TWO_TO_64
  }

  /** Selections counted by clients = successes reported + failures reported + selections outstanding. */
  ghost predicate Conserved(s: State) {
    SameCount(Issued(s), s.successes + s.failures + |AllHolders(s)|)
  }

  ghost predicate Inv(cfg: Config, s: State) {
    && Wf(s.pool)
    && WithinCap(s.pool)
    && TableOk(cfg, s.pool.failures)
    && |s.handlers| <= cfg.capacity
    && (forall id :: id in s.handlers ==> HandlerOk(s.handlers[id]))
    && (forall i :: 0 <= i < |s.retired| ==> !s.retired[i].connected)
    && Conserved(s)
  }

  lemma InitialInv(cfg: Config, s: State)
    requires Initial(s)
    ensures Inv(cfg, s)
  {
    NothingIssued(s.pool.servers);
    assert AllHolders(s) == {};
  }

  lemma {:induction false} NothingIssued(us: seq<Upstream>)
    requires forall i :: 0 <= i < |us| ==> us[i].selected == 0
    ensures Total(us, SELECTED) == 0
  {
    if us != [] {
      NothingIssued(us[..|us| - 1]);
    }
  }

  // ---------- each part of the invariant ----------

  lemma StepKeepsPool(cfg: Config, s: State, e: Step)
    requires Enabled(cfg, s, e) && Wf(s.pool) && WithinCap(s.pool)
    ensures Wf(After(cfg, s, e).pool) && WithinCap(After(cfg, s, e).pool)
  {
    match e
    case Choose(id, now, dial) =>
      SelectionKeepsWf(s.pool, Request(s.handlers[id], now, dial));
      SelectionKeepsCap(s.pool, Request(s.handlers[id], now, dial));
    case CheckHealth(probe) =>
      HealthCheckKeepsWf(s.pool, probe);
      HealthCheckKeepsCap(s.pool, probe);
    case RemoveServer(i) =>
      RemovalKeepsWf(s.pool, i);
      RemovalKeepsCap(s.pool, i);
    case _ =>
  }

  lemma StepKeepsTable(cfg: Config, s: State, e: Step)
    requires Enabled(cfg, s, e) && TableOk(cfg, s.pool.failures)
    ensures TableOk(cfg, After(cfg, s, e).pool.failures)
  {
    match e
    case Choose(id, now, dial) =>
      SelectionForgets(s.pool, Request(s.handlers[id], now, dial));
    case _ =>
  }

  lemma StepKeepsRetired(cfg: Config, s: State, e: Step)
    requires Enabled(cfg, s, e) && forall i :: 0 <= i < |s.retired| ==> !s.retired[i].connected
    ensures var r := After(cfg, s, e).retired;
      s.retired <= r && forall i :: 0 <= i < |r| ==> !r[i].connected
  {
  }

  lemma OnlyTheActorChanges(cfg: Config, s: State, e: Step)
    requires Enabled(cfg, s, e)
    ensures var t := After(cfg, s, e);
      && (Actor(e) == None ==> t.handlers == s.handlers)
      && (forall x :: Some(x) != Actor(e) ==> (x in t.handlers <==> x in s.handlers))
      && (forall x :: Some(x) != Actor(e) && x in s.handlers ==> t.handlers[x] == s.handlers[x])
  {
  }

  lemma ActorStaysOk(cfg: Config, s: State, e: Step)
    requires Enabled(cfg, s, e) && Wf(s.pool) && Actor(e).Some?
    requires forall id :: id in s.handlers ==> HandlerOk(s.handlers[id])
    ensures var t, id := After(cfg, s, e), Actor(e).value;
      id in t.handlers ==> HandlerOk(t.handlers[id])
  {
    match e
    case Choose(id, now, dial) =>
      var h := s.handlers[id];
      var q := Request(h, now, dial);
      if Select(s.pool, q).chosen.Some? {
        SelectionServes(s.pool, q);
        assert s.pool.servers[Select(s.pool, q).chosen.value].addr !in h.tried;
      }
    case _ =>
  }

  lemma StepKeepsCapacity(cfg: Config, s: State, e: Step)
    requires Enabled(cfg, s, e) && |s.handlers| <= cfg.capacity
    ensures |After(cfg, s, e).handlers| <= cfg.capacity
  {
    var t := After(cfg, s, e);
    OnlyTheActorChanges(cfg, s, e);
    hide After;
    if Actor(e).Some? {
      SetGains(s.handlers.Keys, t.handlers.Keys, Actor(e).value);
    }
  }

  lemma StepKeepsHandlers(cfg: Config, s: State, e: Step)
    requires Enabled(cfg, s, e) && Wf(s.pool)
    requires forall id :: id in s.handlers ==> HandlerOk(s.handlers[id])
    ensures var t := After(cfg, s, e);
      forall id :: id in t.handlers ==> HandlerOk(t.handlers[id])
  {
    OnlyTheActorChanges(cfg, s, e);
    hide After, HandlerOk, Wf;
    if Actor(e).Some? {
      ActorStaysOk(cfg, s, e);
    }
  }

  // ---------- conservation ----------

  lemma SameCountPlus(a: int, b: int, c: int)
    requires SameCount(a, b)
    ensures SameCount(a + c, b + c)
  {
    var q := a / TWO_TO_64 - b / TWO_TO_64;
    assert a + c == b + c + q * TWO_TO_64;
    RemainderShift(b + c, TWO_TO_64, q);
  }

  lemma SameCountChain(a: int, b: int, c: int)
    requires SameCount(a, b) && SameCount(b, c)
    ensures SameCount(a, c)
  {
  }

  lemma IncrementCounts(x: nat)
    ensures SameCount(Increment(x), x + 1)
  {
  }

  lemma FailedSelectionLeavesServers(p: Pool, q: Query)
    requires Select(p, q).chosen == None
    ensures Select(p, q).pool.servers == p.servers
  {
  }

  lemma SelectionIsIssued(p: Pool, q: Query)
    requires Wf(p)
    ensures SameCount(Total(Select(p, q).pool.servers, SELECTED),
                      Total(p.servers, SELECTED) + (if Select(p, q).chosen.Some? then 1 else 0))
  {
    hide Select, Wf, Increment, Total, Blocked, Key;
    if Select(p, q).chosen.Some? {
      SelectionServes(p, q);
      hide SameCount;
      var s, i := Select(p, q).pool, Select(p, q).chosen.value;
      TotalUpdate(p.servers, i, s.servers[i], SELECTED);
      var x := p.servers[i].selected;
      IncrementCounts(x);
      SameCountPlus(Increment(x), x + 1, Total(p.servers, SELECTED) - x);
    } else {
      FailedSelectionLeavesServers(p, q);
    }
  }

  lemma RemovalMovesCount(us: seq<Upstream>, retired: seq<Upstream>, i: nat)
    requires i < |us|
    ensures Total(us[..i] + us[i + 1..], SELECTED) + Total(retired + [Closed(us[i])], SELECTED)
      == Total(us, SELECTED) + Total(retired, SELECTED)
  {
    TotalSplit(us, i, SELECTED);
    TotalConcat(us[..i], us[i + 1..], SELECTED);
    var more := retired + [Closed(us[i])];
    assert more[..|more| - 1] == retired;
  }

  /** What a selection means for the handler that made it: it holds the chosen upstream, or is finished. */
  lemma ChoiceOutcome(s: State, id: nat, now: nat, dial: nat -> bool)
    requires id in s.handlers && Wf(s.pool)
    ensures var h, t := s.handlers[id], AfterChoice(s, id, now, dial);
      var sel := Select(s.pool, Request(h, now, dial));
      && t.pool == sel.pool && t.retired == s.retired && id in t.handlers
      && (Holds(t, id) <==> sel.chosen.Some?)
      && (sel.chosen == None ==> t.handlers[id] == h.(phase := Finished))
      && (sel.chosen.Some? ==>
           && sel.chosen.value < |s.pool.servers| == |sel.pool.servers|
           && sel.pool.servers[sel.chosen.value].addr == s.pool.servers[sel.chosen.value].addr
           && t.handlers[id] == h.(phase := Holding(s.pool.servers[sel.chosen.value].addr),
                                   tried := h.tried + [s.pool.servers[sel.chosen.value].addr]))
  {
    var q := Request(s.handlers[id], now, dial);
    if Select(s.pool, q).chosen.Some? {
      SelectionServes(s.pool, q);
    }
  }

  lemma ChoiceIssues(s: State, id: nat, now: nat, dial: nat -> bool)
    requires id in s.handlers && Wf(s.pool) && !Holds(s, id)
    ensures var t := AfterChoice(s, id, now, dial);
      SameCount(Issued(t), Issued(s) + (if Holds(t, id) then 1 else 0))
  {
    hide AfterChoice, Request, Holds, Wf, Select, Total, SameCount;
    ChoiceOutcome(s, id, now, dial);
    var t := AfterChoice(s, id, now, dial);
    SelectionIsIssued(s.pool, Request(s.handlers[id], now, dial));
    SameCountPlus(Total(t.pool.servers, SELECTED), Total(s.pool.servers, SELECTED) + (if Holds(t, id) then 1 else 0),
                  Total(s.retired, SELECTED));
  }

  lemma HealthCheckCountsNothing(p: Pool, c: Probe)
    ensures Total(HealthCheck(p, c).servers, SELECTED) == Total(p.servers, SELECTED)
  {
    TotalEqual(HealthCheck(p, c).servers, p.servers, SELECTED);
  }

  lemma ShutdownMovesCount(us: seq<Upstream>, retired: seq<Upstream>)
    ensures Total([], SELECTED) + Total(retired + ClosedAll(us), SELECTED)
      == Total(us, SELECTED) + Total(retired, SELECTED)
  {
    TotalConcat(retired, ClosedAll(us), SELECTED);
    TotalEqual(ClosedAll(us), us, SELECTED);
  }

  /** Health checks, removals and shutdown move clients and connections, but count no selection. */
  lemma OtherStepsIssueNothing(cfg: Config, s: State, e: Step)
    requires Enabled(cfg, s, e) && !e.Choose?
    ensures Issued(After(cfg, s, e)) == Issued(s)
  {
    hide Total, HealthCheck, ClosedAll, Closed;
    if e.CheckHealth? {
      HealthCheckCountsNothing(s.pool, e.probe);
    } else if e.RemoveServer? {
      RemovalMovesCount(s.pool.servers, s.retired, e.i);
    } else if e.Shutdown? {
      ShutdownMovesCount(s.pool.servers, s.retired);
    }
  }

  lemma StepIssues(cfg: Config, s: State, e: Step)
    requires Enabled(cfg, s, e) && Wf(s.pool)
    ensures var t := After(cfg, s, e);
      SameCount(Issued(t), Issued(s) + (if e.Choose? && Holds(t, e.id) then 1 else 0))
  {
    hide Issued, AfterChoice, Wf;
    if e.Choose? {
      ChoiceIssues(s, e.id, e.now, e.dial);
    } else {
      OtherStepsIssueNothing(cfg, s, e);
    }
  }

  /** A selection makes a holder, a report ends one, and nothing else does either. */
  lemma StepAnswers(cfg: Config, s: State, e: Step)
    requires Enabled(cfg, s, e) && Wf(s.pool)
    ensures var t := After(cfg, s, e);
      t.successes + t.failures + |AllHolders(t)|
        == s.successes + s.failures + |AllHolders(s)| + (if e.Choose? && Holds(t, e.id) then 1 else 0)
  {
    var t := After(cfg, s, e);
    OnlyTheActorChanges(cfg, s, e);
    if Actor(e).Some? {
      var id := Actor(e).value;
      HandlerChanges(s, t, id, "");
      SetGains(AllHolders(s), AllHolders(t), id);
      assert id in AllHolders(s) <==> Holds(s, id);
      assert id in AllHolders(t) <==> Holds(t, id);
    } else {
      SameHandlers(s, t, "");
    }
  }

  lemma StepConserves(cfg: Config, s: State, e: Step)
    requires Enabled(cfg, s, e) && Wf(s.pool) && Conserved(s)
    ensures Conserved(After(cfg, s, e))
  {
    hide After, Issued, AllHolders, Wf, Enabled, SameCount, Holds;
    StepIssues(cfg, s, e);
    StepAnswers(cfg, s, e);
    var t := After(cfg, s, e);
    var one := if e.Choose? && Holds(t, e.id) then 1 else 0;
    SameCountPlus(Issued(s), s.successes + s.failures + |AllHolders(s)|, one);
    SameCountChain(Issued(t), Issued(s) + one, s.successes + s.failures + |AllHolders(s)| + one);
  }

  lemma StepKeepsInv(cfg: Config, s: State, e: Step)
    requires Enabled(cfg, s, e) && Inv(cfg, s)
    ensures Inv(cfg, After(cfg, s, e))
  {
    hide Enabled, After, Wf, WithinCap, TableOk, HandlerOk, Conserved;
    StepKeepsPool(cfg, s, e);
    StepKeepsTable(cfg, s, e);
    StepKeepsRetired(cfg, s, e);
    StepKeepsCapacity(cfg, s, e);
    StepKeepsHandlers(cfg, s, e);
    StepConserves(cfg, s, e);
  }

  /**
   Every state of every run: `healthy` is `connected`; the active index is sound; loadbalance
   never has more than maxActive connections; at most `capacity` handlers run, each trying
   distinct upstreams within its limit; no client that left the pool is connected; and the
   selections counted by the clients equal the reports made plus the selections outstanding.
   */
  lemma {:induction false} RunKeepsInv(cfg: Config, s: State, run: seq<Step>)
    requires Initial(s) && Possible(cfg, s, run)
    ensures Inv(cfg, Final(cfg, s, run).value)
  {
    if run == [] {
      InitialInv(cfg, s);
    } else {
      RunKeepsInv(cfg, s, run[..|run| - 1]);
      StepKeepsInv(cfg, Final(cfg, s, run[..|run| - 1]).value, run[|run| - 1]);
    }
  }

  /**
   A health check in a running program: afterwards exactly the connected servers that answered are
   connected, and in failover one that was reached because none answered; and failover has a
   connected server active if any server answered or was reached.
   */
  lemma HealthCheckStep(cfg: Config, s: State, probe: Probe)
    requires Inv(cfg, s)
    ensures var p, r := s.pool, After(cfg, s, CheckHealth(probe)).pool;
      && |r.servers| == |p.servers|
      && (forall i :: 0 <= i < |p.servers| ==>
            (r.servers[i].connected <==> (p.servers[i].connected && probe.alive(i)) || Redialled(p, probe, i)))
      && (p.strategy == Failover && p.servers != [] && !r.hasActive ==>
            forall i :: 0 <= i < |p.servers| ==> !r.servers[i].connected && !probe.dial(i))
      && (p.strategy == Failover && r.hasActive ==>
            r.activeIdx < |r.servers| && (p.servers != [] ==> r.servers[r.activeIdx].connected))
  {
    hide HealthCheck, HealthCheckReport, WithinCap, TableOk, HandlerOk, Conserved, Redialled, Survives;
    HealthCheckKeepsWf(s.pool, probe);
    if s.pool.strategy == Failover && s.pool.servers != [] {
      FailoverHealthCheck(s.pool, probe);
    }
    forall i | 0 <= i < |s.pool.servers|
      ensures After(cfg, s, CheckHealth(probe)).pool.servers[i].connected
        <==> (s.pool.servers[i].connected && probe.alive(i)) || Redialled(s.pool, probe, i)
    {
      HealthCheckOfServer(s.pool, probe, i);
    }
  }

  /** When no request is under way every selection has been answered by exactly one report. */
  lemma QuiescentRunBalances(cfg: Config, s: State, run: seq<Step>)
    requires Initial(s) && Possible(cfg, s, run) && Final(cfg, s, run).value.handlers == map[]
    ensures var t := Final(cfg, s, run).value; SameCount(Issued(t), t.successes + t.failures)
  {
    hide SameCount, Wf, WithinCap, TableOk, HandlerOk, Issued, AllHolders;
    RunKeepsInv(cfg, s, run);
    IdleBalances(Final(cfg, s, run).value);
  }

  lemma IdleBalances(t: State)
    requires Conserved(t) && t.handlers == map[]
    ensures SameCount(Issued(t), t.successes + t.failures)
  {
    hide SameCount, Issued;
    assert AllHolders(t) == {};
  }

  // ---------- shutdown ----------

  /** Clients are neither lost nor made: they are in the pool or retired. */
  lemma {:induction false} ClientsAreKept(cfg: Config, s: State, run: seq<Step>)
    requires Possible(cfg, s, run)
    ensures var t := Final(cfg, s, run).value;
      |t.pool.servers| + |t.retired| == |s.pool.servers| + |s.retired|
  {
    if run != [] {
      ClientsAreKept(cfg, s, run[..|run| - 1]);
      StepKeepsClients(cfg, Final(cfg, s, run[..|run| - 1]).value, run[|run| - 1]);
    }
  }

  lemma StepKeepsClients(cfg: Config, s: State, e: Step)
    requires Enabled(cfg, s, e)
    ensures var t := After(cfg, s, e);
      && |t.pool.servers| + |t.retired| == |s.pool.servers| + |s.retired|
      && (s.pool.servers == [] ==> t.pool.servers == [] && t.retired == s.retired)
  {
    if e.Choose? && s.pool.servers != [] {
      var q := Request(s.handlers[e.id], e.now, e.dial);
      if Winner(s.pool, q) < |s.pool.servers| {
        assert |Select(s.pool, q).pool.servers| == |s.pool.servers|;
      }
    }
  }

  /**
   Shutdown is final: whatever the handlers in flight and the health checker still do, the pool
   stays empty, every client that was ever in it is retired and disconnected, and no client is
   selected, dialled or changed again.
   */
  lemma {:induction false} ShutdownIsFinal(cfg: Config, s: State, run: seq<Step>, k: nat)
    requires k < |run| && run[k].Shutdown?
    requires Initial(s) && Possible(cfg, s, run) && Possible(cfg, s, run[..k + 1])
    ensures var t := Final(cfg, s, run).value;
      && t.pool.servers == []
      && |t.retired| == |s.pool.servers|
      && (forall i :: 0 <= i < |t.retired| ==> !t.retired[i].connected)
      && t.retired == Final(cfg, s, run[..k + 1]).value.retired
  {
    RunKeepsInv(cfg, s, run);
    ClientsAreKept(cfg, s, run);
    var before := run[..|run| - 1];
    if k == |run| - 1 {
      assert run[..k + 1] == run;
    } else {
      assert before[..k + 1] == run[..k + 1];
      ShutdownIsFinal(cfg, s, before, k);
      StepKeepsClients(cfg, Final(cfg, s, before).value, run[|run| - 1]);
    }
  }
}
