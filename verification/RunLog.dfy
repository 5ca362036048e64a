/** The failure table of a running program against the log of what its handlers reported. */
module RunLog {
  import opened Basics
  import opened Addresses
  import opened FailureTable
  import opened Selector
  import opened SelectorLaws
  import opened ScanSteps
  import opened Protocol
  import opened ProtocolLaws
  import opened Startup

  /** What the first `m` places of a selection do to the table: each server not excluded is probed. */
  function Probes(p: Pool, q: Query, m: nat): seq<Event>
    requires p.servers != []
  {
    if m == 0 then []
    else
      var up := p.servers[Order(p, m - 1)].addr;
      Probes(p, q, m - 1) + (if up in q.exclude then [] else [Probed(up, q.target, q.now)])
  }

  function Seen(p: Pool, q: Query): nat
    requires p.servers != []
  {
    if Winner(p, q) < |p.servers| then Winner(p, q) + 1 else |p.servers|
  }

  /** What one step of the protocol adds to the log. */
  function EventsOf(cfg: Config, s: State, e: Step): seq<Event>
    requires Enabled(cfg, s, e)
  {
    match e
    case Choose(id, now, dial) =>
      if s.pool.servers == [] then []
      else
        var q := Request(s.handlers[id], now, dial);
        Probes(s.pool, q, Seen(s.pool, q))
    case Fail(id, now) => [Failed(s.handlers[id].phase.up, s.handlers[id].target, now, cfg.ttl)]
    case EndTunnel(id, suspicious, now) =>
      var h := s.handlers[id];
      if suspicious then [Failed(h.phase.up, h.target, now, cfg.ttl)] else [Succeeded(h.phase.up, h.target)]
    case CleanUp(now) => [Cleaned(now)]
    case _ => []
  }

  function Log(cfg: Config, s: State, run: seq<Step>): seq<Event>
    requires Possible(cfg, s, run)
  {
    if run == [] then []
    else
      var before := run[..|run| - 1];
      Log(cfg, s, before) + EventsOf(cfg, Final(cfg, s, before).value, run[|run| - 1])
  }

  // ---------- the log is proper ----------

  ghost predicate ProperAddrs(s: State) {
    && (forall i :: 0 <= i < |s.pool.servers| ==> IsUpstreamAddr(s.pool.servers[i].addr))
    && (forall id :: id in s.handlers && s.handlers[id].phase.Holding? ==> IsUpstreamAddr(s.handlers[id].phase.up))
  }

  lemma SelectionKeepsAddrs(p: Pool, q: Query)
    requires Wf(p)
    ensures |Select(p, q).pool.servers| == |p.servers|
    ensures forall i :: 0 <= i < |p.servers| ==> Select(p, q).pool.servers[i].addr == p.servers[i].addr
  {
    if Select(p, q).chosen.Some? {
      SelectionServes(p, q);
    }
  }

  /** Every server of the pool was in it before. */
  lemma PoolAddrsStay(cfg: Config, s: State, e: Step, i: nat)
    requires Enabled(cfg, s, e) && Wf(s.pool) && i < |After(cfg, s, e).pool.servers|
    ensures exists j :: 0 <= j < |s.pool.servers| && After(cfg, s, e).pool.servers[i].addr == s.pool.servers[j].addr
  {
    hide Select, Wf;
    var t := After(cfg, s, e);
    if e.Choose? {
      SelectionKeepsAddrs(s.pool, Request(s.handlers[e.id], e.now, e.dial));
    }
    var j := if e.RemoveServer? && i >= e.i then i + 1 else i;
    assert t.pool.servers[i].addr == s.pool.servers[j].addr;
  }

  lemma HeldAddrIsPooled(cfg: Config, s: State, e: Step)
    requires Enabled(cfg, s, e) && Wf(s.pool) && ProperAddrs(s) && Actor(e).Some?
    ensures var t, id := After(cfg, s, e), Actor(e).value;
      Holds(t, id) ==> IsUpstreamAddr(t.handlers[id].phase.up)
  {
    if e.Choose? {
      ChoiceOutcome(s, e.id, e.now, e.dial);
    }
  }

  lemma StepKeepsAddrs(cfg: Config, s: State, e: Step)
    requires Enabled(cfg, s, e) && Wf(s.pool) && ProperAddrs(s)
    ensures ProperAddrs(After(cfg, s, e))
  {
    var t := After(cfg, s, e);
    OnlyTheActorChanges(cfg, s, e);
    if Actor(e).Some? {
      HeldAddrIsPooled(cfg, s, e);
    }
    hide After, IsUpstreamAddr, Wf, Enabled;
    forall i | 0 <= i < |t.pool.servers| ensures IsUpstreamAddr(t.pool.servers[i].addr) {
      PoolAddrsStay(cfg, s, e, i);
    }
    forall id | id in t.handlers && t.handlers[id].phase.Holding? ensures IsUpstreamAddr(t.handlers[id].phase.up) {
      if Some(id) != Actor(e) {
        assert t.handlers[id] == s.handlers[id];
      }
    }
  }

  lemma {:induction false} ProbesExtendLog(log: seq<Event>, p: Pool, q: Query, m: nat, threshold: int)
    requires p.servers != [] && m <= |p.servers| && TableOf(log, threshold) == p.failures
    ensures TableOf(log + Probes(p, q, m), threshold) == p.failures - DroppedKeys(p, q, m)
  {
    if m == 0 {
      assert log + Probes(p, q, 0) == log;
      assert p.failures - DroppedKeys(p, q, 0) == p.failures;
    } else {
      var fewer := log + Probes(p, q, m - 1);
      var up := p.servers[Order(p, m - 1)].addr;
      ProbesExtendLog(log, p, q, m - 1, threshold);
      ProbeStep(p, q, m - 1);
      if up in q.exclude {
        assert log + Probes(p, q, m) == fewer;
      } else {
        OneMoreEvent(fewer, Probed(up, q.target, q.now), threshold);
        assert log + Probes(p, q, m) == fewer + [Probed(up, q.target, q.now)];
      }
    }
  }

  lemma OneMoreEvent(log: seq<Event>, e: Event, threshold: int)
    ensures TableOf(log + [e], threshold) == Apply(TableOf(log, threshold), e, threshold)
    ensures ProperLog(log) && (e.Succeeded? || Clock(log) <= e.at) && (e.Cleaned? || IsUpstreamAddr(e.up))
      ==> ProperLog(log + [e])
    ensures Clock(log + [e]) == if e.Succeeded? then Clock(log) else e.at
  {
    assert (log + [e])[..|log + [e]| - 1] == log;
  }

  lemma {:induction false} ProbesAreProper(log: seq<Event>, p: Pool, q: Query, m: nat)
    requires p.servers != [] && ProperLog(log) && Clock(log) <= q.now
    requires forall i :: 0 <= i < |p.servers| ==> IsUpstreamAddr(p.servers[i].addr)
    ensures ProperLog(log + Probes(p, q, m)) && Clock(log + Probes(p, q, m)) <= q.now
  {
    hide IsUpstreamAddr, ProperLog, Clock, Order;
    if m == 0 {
      assert log + Probes(p, q, 0) == log;
    } else {
      var fewer := log + Probes(p, q, m - 1);
      var up := p.servers[Order(p, m - 1)].addr;
      ProbesAreProper(log, p, q, m - 1);
      if up in q.exclude {
        assert log + Probes(p, q, m) == fewer;
      } else {
        OneMoreEvent(fewer, Probed(up, q.target, q.now), 1);
        assert log + Probes(p, q, m) == fewer + [Probed(up, q.target, q.now)];
      }
    }
  }

  // ---------- the table is the table of the log ----------

  /** The state's table is what the log makes, and the log is older than the state. */
  ghost predicate Logged(cfg: Config, s: State, log: seq<Event>) {
    && s.pool.failures == TableOf(log, cfg.threshold)
    && ProperLog(log)
    && Clock(log) <= s.clock
  }

  lemma ChoiceIsLogged(cfg: Config, s: State, id: nat, now: nat, dial: nat -> bool, log: seq<Event>)
    requires Logged(cfg, s, log) && ProperAddrs(s) && id in s.handlers && s.clock <= now && s.pool.servers != []
    ensures var q := Request(s.handlers[id], now, dial);
      Logged(cfg, AfterChoice(s, id, now, dial), log + Probes(s.pool, q, Seen(s.pool, q)))
  {
    var q := Request(s.handlers[id], now, dial);
    ProbesExtendLog(log, s.pool, q, Seen(s.pool, q), cfg.threshold);
    ProbesAreProper(log, s.pool, q, Seen(s.pool, q));
  }

  /** Reports and cleanups log one event each, which is what they do to the table. */
  lemma ReportIsLogged(cfg: Config, s: State, e: Step)
    requires Enabled(cfg, s, e) && (e.Fail? || e.EndTunnel? || e.CleanUp?)
    ensures var t, more := After(cfg, s, e), EventsOf(cfg, s, e);
      && |more| == 1
      && t.pool.failures == Apply(s.pool.failures, more[0], cfg.threshold)
      && t.clock == e.now >= s.clock
      && (more[0].Succeeded? || more[0].at == e.now)
      && (more[0].Cleaned? || (Holds(s, e.id) && more[0].up == s.handlers[e.id].phase.up))
  {
  }

  lemma OneEventIsLogged(cfg: Config, s: State, t: State, log: seq<Event>, more: Event)
    requires Logged(cfg, s, log)
    requires t.pool.failures == Apply(s.pool.failures, more, cfg.threshold) && s.clock <= t.clock
    requires (more.Succeeded? || more.at == t.clock) && (more.Cleaned? || IsUpstreamAddr(more.up))
    ensures Logged(cfg, t, log + [more])
  {
    hide IsUpstreamAddr, Apply;
    OneMoreEvent(log, more, cfg.threshold);
  }

  lemma StepIsLogged(cfg: Config, s: State, e: Step, log: seq<Event>)
    requires Enabled(cfg, s, e) && Logged(cfg, s, log) && ProperAddrs(s)
    ensures Logged(cfg, After(cfg, s, e), log + EventsOf(cfg, s, e))
  {
    if e.Choose? {
      hide IsUpstreamAddr, AfterChoice, Probes, ProperLog, TableOf, Clock;
      if s.pool.servers == [] {
        EmptyChoice(s, e.id, e.now, e.dial);
        assert log + EventsOf(cfg, s, e) == log;
      } else {
        ChoiceIsLogged(cfg, s, e.id, e.now, e.dial, log);
      }
    } else if e.Fail? || e.EndTunnel? || e.CleanUp? {
      ReportIsLogged(cfg, s, e);
      hide After, EventsOf, Logged, IsUpstreamAddr, Enabled;
      var more := EventsOf(cfg, s, e);
      assert more == [more[0]];
      OneEventIsLogged(cfg, s, After(cfg, s, e), log, more[0]);
    } else {
      StepsWithoutEvents(cfg, s, e);
      hide After, IsUpstreamAddr, ProperLog, TableOf, Clock;
      assert log + EventsOf(cfg, s, e) == log;
    }
  }

  lemma EmptyChoice(s: State, id: nat, now: nat, dial: nat -> bool)
    requires id in s.handlers && s.pool.servers == []
    ensures AfterChoice(s, id, now, dial).pool.failures == s.pool.failures
    ensures AfterChoice(s, id, now, dial).clock == now
  {
  }

  lemma StepsWithoutEvents(cfg: Config, s: State, e: Step)
    requires Enabled(cfg, s, e) && !e.Choose? && !e.Fail? && !e.EndTunnel? && !e.CleanUp?
    ensures After(cfg, s, e).pool.failures == s.pool.failures && After(cfg, s, e).clock == s.clock
    ensures EventsOf(cfg, s, e) == []
  {
  }

  lemma {:induction false} RunIsLogged(cfg: Config, s: State, run: seq<Step>)
    requires Initial(s) && ProperAddrs(s) && Possible(cfg, s, run)
    ensures Logged(cfg, Final(cfg, s, run).value, Log(cfg, s, run)) && ProperAddrs(Final(cfg, s, run).value)
  {
    if run != [] {
      var before := run[..|run| - 1];
      RunIsLogged(cfg, s, before);
      RunKeepsInv(cfg, s, before);
      var t := Final(cfg, s, before).value;
      StepKeepsAddrs(cfg, t, run[|run| - 1]);
      StepIsLogged(cfg, t, run[|run| - 1], Log(cfg, s, before));
    }
  }

  /**
   In every state of every run with the default threshold of 1 a pair is blocked exactly while
   its last report is an unexpired failure, whatever selections and cleanups came between.
   */
  lemma RunBlocksAsDocumented(cfg: Config, s: State, run: seq<Step>, up: string, target: string, now: nat)
    requires Initial(s) && ProperAddrs(s) && Possible(cfg, s, run) && cfg.threshold <= 1
    requires IsUpstreamAddr(up) && Final(cfg, s, run).value.clock <= now
    ensures Blocked(Final(cfg, s, run).value.pool.failures, up, target, now)
      <==> ShouldBlock(Log(cfg, s, run), up, target, cfg.threshold, now)
  {
    RunIsLogged(cfg, s, run);
    TableRefinesLog(Log(cfg, s, run), up, target, cfg.threshold, now);
  }

  /** For any threshold a run blocks no pair that the documented rule leaves open. */
  lemma RunNeverBlocksTooMuch(cfg: Config, s: State, run: seq<Step>, up: string, target: string, now: nat)
    requires Initial(s) && ProperAddrs(s) && Possible(cfg, s, run) && IsUpstreamAddr(up)
    requires Blocked(Final(cfg, s, run).value.pool.failures, up, target, now)
    ensures ShouldBlock(Log(cfg, s, run), up, target, cfg.threshold, now)
  {
    RunIsLogged(cfg, s, run);
    NeverBlocksTooMuch(Log(cfg, s, run), up, target, cfg.threshold, now);
  }

  /** Whatever the servers file says, the failure keys of the pool it fills cannot collide. */
  lemma StartupIsProper(lines: seq<string>, strategy: Strategy, maxActive: int, dial: nat -> bool, clock: nat)
    ensures ProperAddrs(FileStart(lines, strategy, maxActive, dial, clock))
  {
    FileAddrsAreProper(lines);
    hide IsUpstreamAddr;
    var s := FileStart(lines, strategy, maxActive, dial, clock);
    forall i | 0 <= i < |s.pool.servers| ensures IsUpstreamAddr(s.pool.servers[i].addr) {
      assert s.pool.servers[i].addr == FileAddrs(lines)[i];
    }
  }
}
