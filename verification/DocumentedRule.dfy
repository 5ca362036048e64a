/**
 The documented meaning of the failure threshold against what runs of the program do. The
 witness for larger thresholds is one client whose requests come one at a time.
 */
module DocumentedRule {
  import opened Basics
  import opened Addresses
  import opened FailureTable
  import opened Selector
  import opened Protocol
  import opened ProtocolLaws
  import opened Startup
  import opened Overlap
  import opened RunLog

  /** At the end of this run every pair is blocked exactly when the documented rule demands it. */
  ghost predicate EndsAsDocumented(cfg: Config, s: State, run: seq<Step>) {
    Possible(cfg, s, run) ==>
      forall up, target, now: nat :: IsUpstreamAddr(up) && Final(cfg, s, run).value.clock <= now ==>
        Blocked(Final(cfg, s, run).value.pool.failures, up, target, now)
          == ShouldBlock(Log(cfg, s, run), up, target, cfg.threshold, now)
  }

  /** The program does what its documentation says, in every run, for every servers file and startup. */
  ghost predicate RunsAsDocumented(cfg: Config) {
    forall lines, strategy, maxActive, dial, clock, run ::
      EndsAsDocumented(cfg, FileStart(lines, strategy, maxActive, dial, clock), run)
  }

  // ---------- requests that come one at a time ----------

  const ONE_FAILURE: Table := map[Key(UP, TARGET) := FailureState(1, ZERO_TIME)]

  /** `r` requests, one after the other, whose tunnels all end suspiciously, at time 1. */
  function Rounds(r: nat): seq<Step> {
    if r == 0 then []
    else
      Rounds(r - 1) + [Accept(0, "t", 80)] + [Begin(0)] + [Choose(0, 1, NO_DIAL)] + [EndTunnel(0, true, 1)]
        + [Release(0)]
  }

  /** The program after that: the table never counts further than one. */
  function AfterRounds(r: nat): State {
    State(OneServer(r, if r == 0 then map[] else ONE_FAILURE), [], map[], 1, 0, r)
  }

  /** The run leads to this state, and its log has `r` unexpired failures of the pair. */
  ghost predicate Reached(cfg: Config, run: seq<Step>, s: State, r: nat) {
    && Final(cfg, OneServerStart(), run) == Some(s)
    && FailureRun(Log(cfg, OneServerStart(), run), UP, TARGET) == r
    && (r > 0 ==> Expiry(Log(cfg, OneServerStart(), run), UP, TARGET) > 1)
  }

  lemma Goes(cfg: Config, run: seq<Step>, s: State, r: nat, e: Step)
    requires Reached(cfg, run, s, r) && Enabled(cfg, s, e)
    requires var more := EventsOf(cfg, s, e);
      more == [] || more == [Probed(UP, TARGET, 1)] || more == [Failed(UP, TARGET, 1, cfg.ttl)]
    ensures Reached(cfg, run + [e], After(cfg, s, e),
                    if EventsOf(cfg, s, e) == [Failed(UP, TARGET, 1, cfg.ttl)] then r + 1 else r)
  {
    hide Enabled, After, EventsOf, OneServerStart;
    RunGrows(cfg, OneServerStart(), run, s, e);
    assert (run + [e])[..|run|] == run;
    var log, more := Log(cfg, OneServerStart(), run), EventsOf(cfg, s, e);
    if more != [] {
      assert (log + more)[..|log|] == log;
    } else {
      assert log + more == log;
    }
  }

  /** A failure below the threshold does not keep the server from being taken again, and is forgotten by that. */
  lemma TakenAgain(r: nat)
    ensures var p, q := AfterRounds(r).pool, Query(TARGET, {}, 1, NO_DIAL);
      && Select(p, q) == Selection(OneServer(r + 1, map[]), Some(0), [])
      && Probes(p, q, Seen(p, q)) == [Probed(UP, TARGET, 1)]
  {
    var p, q := AfterRounds(r).pool, Query(TARGET, {}, 1, NO_DIAL);
    assert Order(p, 0) == 0 && Accepts(p, q, 0);
    assert Winner(p, q) == 0;
    assert Increment(r % TWO_TO_64) == (r + 1) % TWO_TO_64;
    assert Probes(p, q, 0) == [];
    assert Key(p.servers[Order(p, 0)].addr, q.target) in DroppedKeys(p, q, 1);
    assert p.failures - DroppedKeys(p, q, 1) == map[];
  }

  /** The states inside round `r`: the request is about to select, in its tunnel, and finished. */
  function Asking(cfg: Config, r: nat): State {
    AfterRounds(r).(handlers := map[0 := Handler(TARGET, MaxUpstreams(cfg.retryUpstreams, 1), [], Ready)])
  }

  function Tunnelling(cfg: Config, r: nat): State {
    State(OneServer(r + 1, map[]), [], map[0 := Handling(cfg, Holding(UP))], 1, 0, r)
  }

  function Leaving(cfg: Config, r: nat): State {
    AfterRounds(r + 1).(handlers := map[0 := Handling(cfg, Finished)])
  }

  lemma RoundArrives(cfg: Config, r: nat)
    requires cfg.capacity >= 1
    ensures var s, e1, e2 := AfterRounds(r), Accept(0, "t", 80), Begin(0);
      && Enabled(cfg, s, e1) && EventsOf(cfg, s, e1) == []
      && Enabled(cfg, After(cfg, s, e1), e2) && EventsOf(cfg, After(cfg, s, e1), e2) == []
      && After(cfg, After(cfg, s, e1), e2) == Asking(cfg, r)
  {
    var s1 := After(cfg, AfterRounds(r), Accept(0, "t", 80));
    assert s1.handlers == map[0 := Handler(TARGET, 0, [], Starting)];
    assert After(cfg, s1, Begin(0)).handlers == Asking(cfg, r).handlers;
  }

  lemma RoundChoice(cfg: Config, r: nat)
    ensures var s, e := Asking(cfg, r), Choose(0, 1, NO_DIAL);
      && Enabled(cfg, s, e) && EventsOf(cfg, s, e) == [Probed(UP, TARGET, 1)]
      && After(cfg, s, e) == Tunnelling(cfg, r)
  {
    var s := Asking(cfg, r);
    assert Elements<string>([]) == {};
    assert [] + [UP] == [UP];
    TakenAgain(r);
    assert |s.pool.servers| == 1 && s.pool.servers[0].addr == UP;
    hide Select, Probes, Seen, OneServer;
    assert Request(s.handlers[0], 1, NO_DIAL) == Query(TARGET, {}, 1, NO_DIAL);
  }

  lemma RoundReport(cfg: Config, r: nat)
    requires cfg.threshold >= 2
    ensures var s, e := Tunnelling(cfg, r), EndTunnel(0, true, 1);
      && Enabled(cfg, s, e) && EventsOf(cfg, s, e) == [Failed(UP, TARGET, 1, cfg.ttl)]
      && After(cfg, s, e) == Leaving(cfg, r)
  {
    assert AfterFailure(map[], UP, TARGET, cfg.threshold, cfg.ttl, 1) == ONE_FAILURE;
  }

  lemma RoundLeaves(cfg: Config, r: nat)
    ensures var s, e := Leaving(cfg, r), Release(0);
      && Enabled(cfg, s, e) && EventsOf(cfg, s, e) == []
      && After(cfg, s, e) == AfterRounds(r + 1)
  {
    assert Leaving(cfg, r).handlers - {0} == map[];
  }

  lemma OneRound(cfg: Config, r: nat)
    requires cfg.threshold >= 2 && cfg.capacity >= 1 && Reached(cfg, Rounds(r), AfterRounds(r), r)
    ensures Reached(cfg, Rounds(r + 1), AfterRounds(r + 1), r + 1)
  {
    hide Reached, After, Enabled, EventsOf, AfterRounds, Asking, Tunnelling, Leaving;
    var run := Rounds(r);
    var e1, e2, e3, e4, e5 := Accept(0, "t", 80), Begin(0), Choose(0, 1, NO_DIAL), EndTunnel(0, true, 1), Release(0);
    RoundArrives(cfg, r);
    Goes(cfg, run, AfterRounds(r), r, e1);
    Goes(cfg, run + [e1], After(cfg, AfterRounds(r), e1), r, e2);
    RoundChoice(cfg, r);
    Goes(cfg, run + [e1] + [e2], Asking(cfg, r), r, e3);
    RoundReport(cfg, r);
    Goes(cfg, run + [e1] + [e2] + [e3], Tunnelling(cfg, r), r, e4);
    RoundLeaves(cfg, r);
    Goes(cfg, run + [e1] + [e2] + [e3] + [e4], Leaving(cfg, r), r + 1, e5);
  }

  lemma NoRounds(cfg: Config)
    ensures Reached(cfg, Rounds(0), AfterRounds(0), 0)
  {
    assert Connectable(ALL_DIAL, 0) == 0;
    assert AfterRounds(0) == OneServerStart();
  }

  lemma {:induction false} RoundsReached(cfg: Config, r: nat)
    requires cfg.threshold >= 2 && cfg.capacity >= 1
    ensures Reached(cfg, Rounds(r), AfterRounds(r), r)
  {
    hide Reached, AfterRounds;
    if r == 0 {
      NoRounds(cfg);
    } else {
      RoundsReached(cfg, r - 1);
      OneRound(cfg, r - 1);
    }
  }

  // ---------- the rule ----------

  /** A threshold of 2 or more: after that many failures in a row, none expired, nothing is blocked. */
  lemma RoundsAreNotBlocked(cfg: Config)
    requires cfg.threshold >= 2 && cfg.capacity >= 1
    ensures !EndsAsDocumented(cfg, OneServerStart(), Rounds(cfg.threshold))
  {
    var s, run := OneServerStart(), Rounds(cfg.threshold);
    RoundsReached(cfg, cfg.threshold);
    assert IsUpstreamAddr(UP) by { assert UP == HostPort("u", 22); }
    hide Log, Final, IsUpstreamAddr;
    assert !Blocked(AfterRounds(cfg.threshold).pool.failures, UP, TARGET, 1);
    assert ShouldBlock(Log(cfg, s, run), UP, TARGET, cfg.threshold, 1);
  }

  /**
   The documented threshold, "failures before temporary block", is what the program does in
   every run, for every servers file and startup, for thresholds up to 1 and for no larger one.
   */
  lemma RunsAsDocumentedIff(cfg: Config)
    requires cfg.capacity >= 1
    ensures RunsAsDocumented(cfg) <==> cfg.threshold <= 1
  {
    if cfg.threshold <= 1 {
      forall lines, strategy, maxActive, dial, clock, run
        ensures EndsAsDocumented(cfg, FileStart(lines, strategy, maxActive, dial, clock), run)
      {
        StartupIsInitial(FileAddrs(lines), strategy, maxActive, dial, clock);
        StartupIsProper(lines, strategy, maxActive, dial, clock);
        OneRunAsDocumented(cfg, FileStart(lines, strategy, maxActive, dial, clock), run);
      }
    } else {
      RoundsAreNotBlocked(cfg);
      OneLineFile();
      assert !EndsAsDocumented(cfg, FileStart(["u"], Failover, 1, ALL_DIAL, 1), Rounds(cfg.threshold));
    }
  }

  lemma OneRunAsDocumented(cfg: Config, s: State, run: seq<Step>)
    requires Initial(s) && ProperAddrs(s) && cfg.threshold <= 1
    ensures EndsAsDocumented(cfg, s, run)
  {
    if Possible(cfg, s, run) {
      forall up, target, now: nat | IsUpstreamAddr(up) && Final(cfg, s, run).value.clock <= now
        ensures Blocked(Final(cfg, s, run).value.pool.failures, up, target, now)
          == ShouldBlock(Log(cfg, s, run), up, target, cfg.threshold, now)
      {
        RunBlocksAsDocumented(cfg, s, run, up, target, now);
      }
    }
  }

  /** The same in terms of the options. */
  lemma OptionsAsDocumentedIff(maxConnections: int, retryUpstreams: int, threshold: int, ttl: int)
    ensures RunsAsDocumented(ConfigOf(maxConnections, retryUpstreams, threshold, ttl)) <==> threshold <= 1
  {
    RunsAsDocumentedIff(ConfigOf(maxConnections, retryUpstreams, threshold, ttl));
  }

  // ---------- the table alone ----------

  /** For this threshold the table follows the documented rule on every log. */
  ghost predicate FollowsDocumentation(threshold: int) {
    forall log, up, target, now: nat ::
      ProperLog(log) && IsUpstreamAddr(up) && Clock(log) <= now ==>
        (Blocked(TableOf(log, threshold), up, target, now) <==> ShouldBlock(log, up, target, threshold, now))
  }

  /** The table follows the rule on every log for threshold 1 and no larger one: the failing log is a run's. */
  lemma FollowsDocumentationIff(threshold: int)
    ensures FollowsDocumentation(threshold) <==> threshold <= 1
  {
    if threshold <= 1 {
      forall log, up, target, now: nat | ProperLog(log) && IsUpstreamAddr(up) && Clock(log) <= now
        ensures Blocked(TableOf(log, threshold), up, target, now) <==> ShouldBlock(log, up, target, threshold, now)
      {
        TableRefinesLog(log, up, target, threshold, now);
      }
    } else {
      var cfg := Config(1, 0, threshold, 0);
      RoundsAreNotBlocked(cfg);
      var s, run := OneServerStart(), Rounds(threshold);
      StartupIsInitial([UP], Failover, 1, ALL_DIAL, 1);
      OneLineFile();
      StartupIsProper(["u"], Failover, 1, ALL_DIAL, 1);
      RunIsLogged(cfg, s, run);
    }
  }
}
