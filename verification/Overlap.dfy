/**
 The failure count of a pair can only grow while selections of that pair overlap, so the
 threshold means something only up to the number of simultaneous handlers.
 */
module Overlap {
  import opened Basics
  import opened Addresses
  import opened FailureTable
  import opened Selector
  import opened SelectorLaws
  import opened Protocol
  import opened ProtocolLaws
  import opened Startup

  predicate HoldsKey(s: State, id: nat, key: string) {
    Holds(s, id) && Key(s.handlers[id].phase.up, s.handlers[id].target) == key
  }

  /** This step makes its handler a holder of the pair, or ends its holding. */
  predicate Gains(cfg: Config, s: State, e: Step, key: string)
    requires Enabled(cfg, s, e)
  {
    Actor(e).Some? && HoldsKey(After(cfg, s, e), Actor(e).value, key) && !HoldsKey(s, Actor(e).value, key)
  }

  predicate Drops(cfg: Config, s: State, e: Step, key: string)
    requires Enabled(cfg, s, e)
  {
    Actor(e).Some? && HoldsKey(s, Actor(e).value, key) && !HoldsKey(After(cfg, s, e), Actor(e).value, key)
  }

  lemma OutstandingChange(cfg: Config, s: State, e: Step, key: string)
    requires Enabled(cfg, s, e)
    ensures var t := After(cfg, s, e);
      Outstanding(t, key) == Outstanding(s, key)
        + (if Gains(cfg, s, e, key) then 1 else 0) - (if Drops(cfg, s, e, key) then 1 else 0)
  {
    hide Enabled;
    OnlyTheActorChanges(cfg, s, e);
    hide After;
    var t := After(cfg, s, e);
    if Actor(e).Some? {
      var id := Actor(e).value;
      HandlerChanges(s, t, id, key);
      SetGains(Holders(s, key), Holders(t, key), id);
      assert id in Holders(s, key) <==> HoldsKey(s, id, key);
      assert id in Holders(t, key) <==> HoldsKey(t, id, key);
    } else {
      SameHandlers(s, t, key);
    }
  }

  /** A selection forgets the pair it hands out, and adds to no count. */
  lemma ChoiceForgetsCount(s: State, id: nat, now: nat, dial: nat -> bool, key: string)
    requires id in s.handlers && Wf(s.pool) && !Holds(s, id) && s.handlers[id].target != ""
    ensures var t := AfterChoice(s, id, now, dial);
      && CountOf(t.pool.failures, key) <= CountOf(s.pool.failures, key)
      && (HoldsKey(t, id, key) ==> CountOf(t.pool.failures, key) == 0)
  {
    ChoiceOutcome(s, id, now, dial);
    var q := Request(s.handlers[id], now, dial);
    SelectionForgets(s.pool, q);
    if Select(s.pool, q).chosen.Some? {
      SelectionServes(s.pool, q);
    }
  }

  lemma ReportCounts(cfg: Config, s: State, id: nat, now: nat, phase: Phase, key: string)
    requires Holds(s, id)
    ensures CountOf(AfterFailed(cfg, s, id, now, phase).pool.failures, key)
      <= CountOf(s.pool.failures, key) + (if HoldsKey(s, id, key) then 1 else 0)
    ensures CountOf(AfterServed(s, id, now).pool.failures, key) <= CountOf(s.pool.failures, key)
  {
  }

  /** Only the end of a holding adds to the count, and the start of one finds it forgotten. */
  lemma StepCounts(cfg: Config, s: State, e: Step, key: string)
    requires Enabled(cfg, s, e) && Inv(cfg, s)
    ensures var t := After(cfg, s, e);
      && CountOf(t.pool.failures, key) <= CountOf(s.pool.failures, key) + (if Drops(cfg, s, e, key) then 1 else 0)
      && (Gains(cfg, s, e, key) ==> CountOf(t.pool.failures, key) == 0)
  {
    hide Wf, WithinCap, TableOk, Conserved, AfterChoice;
    match e
    case Choose(id, now, dial) =>
      assert HandlerOk(s.handlers[id]);
      ChoiceForgetsCount(s, id, now, dial, key);
    case Fail(id, now) =>
      ReportCounts(cfg, s, id, now, Ready, key);
    case EndTunnel(id, suspicious, now) =>
      ReportCounts(cfg, s, id, now, Finished, key);
    case _ =>
  }

  /** One step: the count plus what is outstanding stays within what it was, or within what is now outstanding. */
  lemma StepBoundsCount(cfg: Config, s: State, e: Step, key: string)
    requires Enabled(cfg, s, e) && Inv(cfg, s)
    ensures var t := After(cfg, s, e);
      var was := CountOf(s.pool.failures, key) + Outstanding(s, key);
      CountOf(t.pool.failures, key) + Outstanding(t, key)
        <= if was < Outstanding(t, key) then Outstanding(t, key) else was
  {
    hide Enabled, After, Inv, Outstanding, Gains, Drops, CountOf;
    OutstandingChange(cfg, s, e, key);
    StepCounts(cfg, s, e, key);
  }

  /**
   Over every interleaving and for every pair: failures counted plus selections outstanding
   never exceed the largest number of selections of that pair that were outstanding at once,
   which never exceeds the semaphore.
   */
  lemma {:induction false} FailuresNeedOverlap(cfg: Config, s: State, run: seq<Step>, key: string)
    requires Initial(s) && Possible(cfg, s, run)
    ensures var t := Final(cfg, s, run).value;
      CountOf(t.pool.failures, key) + Outstanding(t, key) <= Peak(cfg, s, run, key) <= cfg.capacity
  {
    RunKeepsInv(cfg, s, run);
    HoldersAreHandlers(Final(cfg, s, run).value, key);
    if run != [] {
      var before := run[..|run| - 1];
      FailuresNeedOverlap(cfg, s, before, key);
      RunKeepsInv(cfg, s, before);
      StepBoundsCount(cfg, Final(cfg, s, before).value, run[|run| - 1], key);
    }
  }

  /** A pair that is blocked has been outstanding at least `threshold` times at once. */
  lemma BlockNeedsOverlap(cfg: Config, s: State, run: seq<Step>, up: string, target: string, now: nat)
    requires Initial(s) && Possible(cfg, s, run)
    requires Blocked(Final(cfg, s, run).value.pool.failures, up, target, now)
    ensures cfg.threshold <= Peak(cfg, s, run, Key(up, target)) && 1 <= Peak(cfg, s, run, Key(up, target))
  {
    FailuresNeedOverlap(cfg, s, run, Key(up, target));
    RunKeepsInv(cfg, s, run);
  }

  // ---------- failures with a cleanup between them ----------

  /** A failure report of the pair with this key. */
  predicate FailsPair(s: State, e: Step, key: string) {
    (e.Fail? || (e.EndTunnel? && e.suspicious)) && HoldsKey(s, e.id, key)
  }

  /** At threshold 1 a failure report in a running program blocks its pair for exactly the option's time. */
  lemma ReportBlocksFor(cfg: Config, s: State, e: Step, later: nat)
    requires Enabled(cfg, s, e) && Inv(cfg, s) && cfg.threshold <= 1 && (e.Fail? || (e.EndTunnel? && e.suspicious))
    ensures var h := s.handlers[e.id];
      Blocked(After(cfg, s, e).pool.failures, h.phase.up, h.target, later)
        == (later < e.now + (if cfg.ttl > 0 then cfg.ttl else 600_000_000_000))
  {
    hide Wf, WithinCap, TableOk, Conserved, Blocked;
    assert HandlerOk(s.handlers[e.id]);
    var h := s.handlers[e.id];
    FailureBlocksIff(s.pool.failures, h.phase.up, h.target, cfg.threshold, cfg.ttl, e.now, later);
  }

  /** How many failure reports of the pair a run makes. */
  function FailuresOf(cfg: Config, s: State, run: seq<Step>, key: string): nat
    requires Possible(cfg, s, run)
  {
    if run == [] then 0
    else
      var before, e := run[..|run| - 1], run[|run| - 1];
      FailuresOf(cfg, s, before, key) + (if FailsPair(Final(cfg, s, before).value, e, key) then 1 else 0)
  }

  lemma StepCountsFailure(cfg: Config, s: State, e: Step, key: string)
    requires Enabled(cfg, s, e) && Inv(cfg, s)
    ensures CountOf(After(cfg, s, e).pool.failures, key)
      <= CountOf(s.pool.failures, key) + (if FailsPair(s, e, key) then 1 else 0)
  {
    hide Wf, WithinCap, TableOk, Conserved, AfterChoice;
    match e
    case Choose(id, now, dial) =>
      assert HandlerOk(s.handlers[id]);
      ChoiceForgetsCount(s, id, now, dial, key);
    case Fail(id, now) =>
      ReportCounts(cfg, s, id, now, Ready, key);
    case EndTunnel(id, suspicious, now) =>
      ReportCounts(cfg, s, id, now, Finished, key);
    case _ =>
  }

  lemma {:induction false} CountWithinFailures(cfg: Config, s: State, run: seq<Step>, key: string)
    requires Inv(cfg, s) && Possible(cfg, s, run)
    ensures CountOf(Final(cfg, s, run).value.pool.failures, key)
      <= CountOf(s.pool.failures, key) + FailuresOf(cfg, s, run, key)
  {
    hide Inv, Enabled, After, FailsPair, CountOf;
    if run != [] {
      var before := run[..|run| - 1];
      CountWithinFailures(cfg, s, before, key);
      PartKeepsInv(cfg, s, before);
      StepCountsFailure(cfg, Final(cfg, s, before).value, run[|run| - 1], key);
    }
  }

  lemma BlockIsCounted(cfg: Config, s: State, up: string, target: string, now: nat)
    requires Inv(cfg, s) && Blocked(s.pool.failures, up, target, now)
    ensures CountOf(s.pool.failures, Key(up, target)) >= 1
    ensures CountOf(s.pool.failures, Key(up, target)) >= cfg.threshold
  {
  }

  /**
   A cleanup makes the program forget: if no block of a pair stands at a cleanup, then it takes
   the whole threshold of failures again after it to block the pair, whatever came before. With a
   threshold of 2, two failures with such a cleanup between them never block.
   */
  lemma CleanupForgets(cfg: Config, s: State, before: seq<Step>, now: nat, after: seq<Step>,
                       up: string, target: string, later: nat)
    requires Initial(s) && Possible(cfg, s, before) && Possible(cfg, s, before + [CleanUp(now)])
    requires var t := Final(cfg, s, before).value.pool.failures;
      up + "|" + target in t ==> t[up + "|" + target].blockedUntil < now
    requires Possible(cfg, Final(cfg, s, before + [CleanUp(now)]).value, after)
    requires var failures := FailuresOf(cfg, Final(cfg, s, before + [CleanUp(now)]).value, after, up + "|" + target);
      failures == 0 || failures < cfg.threshold
    ensures Final(cfg, s, before + [CleanUp(now)] + after).Some?
    ensures !Blocked(Final(cfg, s, before + [CleanUp(now)] + after).value.pool.failures, up, target, later)
  {
    hide Wf, WithinCap, TableOk, HandlerOk, Conserved, FailuresOf, Initial, Blocked, AfterCleanup, CountOf;
    var cleaned := before + [CleanUp(now)];
    assert cleaned[..|cleaned| - 1] == before;
    var was, t := Final(cfg, s, before).value, Final(cfg, s, cleaned).value;
    FinalSplit(cfg, s, cleaned, after);
    RunKeepsInv(cfg, s, cleaned);
    assert t.pool.failures == AfterCleanup(was.pool.failures, now);
    CleanedCount(was.pool.failures, now, up + "|" + target);
    CountWithinFailures(cfg, t, after, Key(up, target));
    PartKeepsInv(cfg, t, after);
    if Blocked(Final(cfg, t, after).value.pool.failures, up, target, later) {
      BlockIsCounted(cfg, Final(cfg, t, after).value, up, target, later);
    }
  }

  lemma CleanedCount(t: Table, now: nat, key: string)
    requires key in t ==> t[key].blockedUntil < now
    ensures CountOf(AfterCleanup(t, now), key) == 0
  {
    CleanupKeepsIff(t, now, key);
  }

  // ---------- serial runs ----------

  /** At no moment of the run do two handlers hold the semaphore. */
  ghost predicate Serial(cfg: Config, s: State, run: seq<Step>) {
    forall k :: 0 <= k <= |run| && Final(cfg, s, run[..k]).Some? ==> |Final(cfg, s, run[..k]).value.handlers| <= 1
  }

  lemma {:induction false} SerialPeak(cfg: Config, s: State, run: seq<Step>, key: string)
    requires Serial(cfg, s, run)
    ensures Peak(cfg, s, run, key) <= 1
  {
    assert run[..|run|] == run;
    if Final(cfg, s, run).Some? {
      HoldersAreHandlers(Final(cfg, s, run).value, key);
    }
    if run != [] {
      var before := run[..|run| - 1];
      assert forall k :: 0 <= k <= |before| ==> before[..k] == run[..k];
      SerialPeak(cfg, s, before, key);
    }
  }

  /** One request at a time never blocks anything, however many fail, for any threshold of 2 or more. */
  lemma SerialRunsNeverBlock(cfg: Config, s: State, run: seq<Step>, up: string, target: string, now: nat)
    requires Initial(s) && Possible(cfg, s, run) && Serial(cfg, s, run) && cfg.threshold >= 2
    ensures !Blocked(Final(cfg, s, run).value.pool.failures, up, target, now)
  {
    SerialPeak(cfg, s, run, Key(up, target));
    if Blocked(Final(cfg, s, run).value.pool.failures, up, target, now) {
      BlockNeedsOverlap(cfg, s, run, up, target, now);
    }
  }

  // ---------- the bound is reached ----------

  /** Some run of the program, with some servers file and some outcome of startup, blocks some pair. */
  ghost predicate BlockingPossible(cfg: Config) {
    exists lines, strategy, maxActive, dial, clock, run ::
      EndsBlocked(cfg, FileStart(lines, strategy, maxActive, dial, clock), run)
  }

  ghost predicate EndsBlocked(cfg: Config, s: State, run: seq<Step>) {
    Possible(cfg, s, run) && SomethingBlocked(Final(cfg, s, run).value)
  }

  ghost predicate SomethingBlocked(s: State) {
    exists up, target :: Blocked(s.pool.failures, up, target, s.clock)
  }

  const UP := HostPort("u", 22)
  const TARGET := HostPort("t", 80)

  /** The program with one server that was connected at startup, at time 1. */
  function OneServerStart(): State {
    StartState([UP], Failover, 1, ALL_DIAL, 1)
  }

  lemma OneLineFile()
    ensures FileStart(["u"], Failover, 1, ALL_DIAL, 1) == OneServerStart()
  {
    SplitWithoutSeparator("u", ':');
    assert ["u"][..0] == [];
    assert FileAddrs(["u"]) == [UP];
  }

  /** That server after `a` requests have selected it: the first one makes it active. */
  function OneServer(a: nat, failures: Table): Pool {
    Pool([Upstream(UP, true, true, a % TWO_TO_64, 0, 0)], if a == 0 then 0 else 1, Failover, 1, 0, a > 0, failures)
  }

  function Handling(cfg: Config, phase: Phase): Handler {
    Handler(TARGET, MaxUpstreams(cfg.retryUpstreams, 1), [UP], phase)
  }

  /** Handlers 0 to a - 1 have selected the upstream; the first `b` of them have reported a failure. */
  function Crew(cfg: Config, a: nat, b: nat): map<nat, Handler> {
    if b > 0 then Crew(cfg, a, b - 1)[b - 1 := Handling(cfg, Ready)]
    else if a > 0 then Crew(cfg, a - 1, 0)[a - 1 := Handling(cfg, Holding(UP))]
    else map[]
  }

  function Counted(cfg: Config, b: nat): Table {
    if b == 0 then map[]
    else map[Key(UP, TARGET) := FailureState(b,
      if b >= NormalThreshold(cfg.threshold) then 1 + NormalTtl(cfg.ttl) else ZERO_TIME)]
  }

  function Crowd(cfg: Config, a: nat, b: nat): State {
    State(OneServer(a, Counted(cfg, b)), [], Crew(cfg, a, b), 1, 0, b)
  }

  const NO_DIAL: nat -> bool := (_: nat) => false

  function Arrivals(a: nat): seq<Step> {
    if a == 0 then []
    else Arrivals(a - 1) + [Accept(a - 1, "t", 80)] + [Begin(a - 1)] + [Choose(a - 1, 1, NO_DIAL)]
  }

  function Reports(a: nat, b: nat): seq<Step> {
    if b == 0 then Arrivals(a) else Reports(a, b - 1) + [Fail(b - 1, 1)]
  }

  lemma {:induction false} CrewKeys(cfg: Config, a: nat, b: nat)
    requires b <= a
    ensures forall id: nat :: id in Crew(cfg, a, b) <==> id < a
    ensures forall id: nat :: b <= id < a ==> Crew(cfg, a, b)[id] == Handling(cfg, Holding(UP))
    ensures |Crew(cfg, a, b)| == a
  {
    if b > 0 {
      CrewKeys(cfg, a, b - 1);
    } else if a > 0 {
      CrewKeys(cfg, a - 1, 0);
    }
  }

  /** The only server is taken again. */
  lemma OneServerServes(a: nat)
    ensures Select(OneServer(a, map[]), Query(TARGET, {}, 1, NO_DIAL))
      == Selection(OneServer(a + 1, map[]), Some(0), [])
  {
    var p, q := OneServer(a, map[]), Query(TARGET, {}, 1, NO_DIAL);
    assert Order(p, 0) == 0 && Accepts(p, q, 0);
    assert Winner(p, q) == 0;
    assert Increment(a % TWO_TO_64) == (a + 1) % TWO_TO_64;
  }

  /** The next request is about to select. */
  function Arriving(cfg: Config, a: nat): State {
    var ready := Handler(TARGET, MaxUpstreams(cfg.retryUpstreams, 1), [], Ready);
    Crowd(cfg, a, 0).(handlers := Crew(cfg, a, 0)[a := ready])
  }

  lemma ArrivalBegins(cfg: Config, a: nat)
    requires a < cfg.capacity
    ensures var s, e1, e2 := Crowd(cfg, a, 0), Accept(a, "t", 80), Begin(a);
      && Enabled(cfg, s, e1) && Enabled(cfg, After(cfg, s, e1), e2)
      && After(cfg, After(cfg, s, e1), e2) == Arriving(cfg, a)
  {
    CrewKeys(cfg, a, 0);
    hide Crew, MaxUpstreams;
    var first := Handler(TARGET, 0, [], Starting);
    var ready := Handler(TARGET, MaxUpstreams(cfg.retryUpstreams, 1), [], Ready);
    assert Crew(cfg, a, 0)[a := first][a := ready] == Crew(cfg, a, 0)[a := ready];
  }

  lemma ArrivalChooses(cfg: Config, a: nat)
    ensures Enabled(cfg, Arriving(cfg, a), Choose(a, 1, NO_DIAL))
    ensures After(cfg, Arriving(cfg, a), Choose(a, 1, NO_DIAL)) == Crowd(cfg, a + 1, 0)
  {
    OneServerServes(a);
    EmptyExclusion();
    NextCrew(cfg, a);
    hide Select, OneServer, Crew;
    assert Request(Arriving(cfg, a).handlers[a], 1, NO_DIAL) == Query(TARGET, {}, 1, NO_DIAL);
    OneServerHasIt(a, map[]);
  }

  lemma EmptyExclusion()
    ensures Elements<string>([]) == {} && [] + [UP] == [UP]
  {
  }

  lemma NextCrew(cfg: Config, a: nat)
    ensures var ready := Handler(TARGET, MaxUpstreams(cfg.retryUpstreams, 1), [], Ready);
      Crew(cfg, a + 1, 0) == Crew(cfg, a, 0)[a := ready][a := Handling(cfg, Holding(UP))]
  {
  }

  lemma OneServerHasIt(a: nat, failures: Table)
    ensures |OneServer(a, failures).servers| == 1 && OneServer(a, failures).servers[0].addr == UP
  {
  }

  lemma NoArrivals(cfg: Config)
    ensures Final(cfg, OneServerStart(), Arrivals(0)) == Some(Crowd(cfg, 0, 0))
  {
    assert Connectable(ALL_DIAL, 0) == 0;
    assert Crowd(cfg, 0, 0) == OneServerStart();
    assert Arrivals(0) == [];
  }

  lemma {:induction false} ArrivalsCrowd(cfg: Config, a: nat)
    requires a <= cfg.capacity
    ensures Final(cfg, OneServerStart(), Arrivals(a)) == Some(Crowd(cfg, a, 0))
  {
    hide Arrivals, Crowd, Final, OneServerStart;
    if a == 0 {
      NoArrivals(cfg);
    } else {
      ArrivalsCrowd(cfg, a - 1);
      OneArrival(cfg, a - 1);
    }
  }

  lemma OneArrival(cfg: Config, a: nat)
    requires a < cfg.capacity && Final(cfg, OneServerStart(), Arrivals(a)) == Some(Crowd(cfg, a, 0))
    ensures Final(cfg, OneServerStart(), Arrivals(a + 1)) == Some(Crowd(cfg, a + 1, 0))
  {
    hide Enabled, After, Crowd, Arriving, Final, OneServerStart;
    var start, run, e1, e2, e3 := OneServerStart(), Arrivals(a), Accept(a, "t", 80), Begin(a), Choose(a, 1, NO_DIAL);
    ArrivalBegins(cfg, a);
    RunGrows(cfg, start, run, Crowd(cfg, a, 0), e1);
    RunGrows(cfg, start, run + [e1], After(cfg, Crowd(cfg, a, 0), e1), e2);
    ArrivalChooses(cfg, a);
    RunGrows(cfg, start, run + [e1] + [e2], Arriving(cfg, a), e3);
  }

  lemma OneReport(cfg: Config, a: nat, b: nat)
    requires b < a && b < NormalThreshold(cfg.threshold)
    ensures Enabled(cfg, Crowd(cfg, a, b), Fail(b, 1))
    ensures After(cfg, Crowd(cfg, a, b), Fail(b, 1)) == Crowd(cfg, a, b + 1)
  {
    CrewKeys(cfg, a, b);
    var s := Crowd(cfg, a, b);
    assert s.handlers[b] == Handling(cfg, Holding(UP));
    assert AfterFailure(Counted(cfg, b), UP, TARGET, cfg.threshold, cfg.ttl, 1) == Counted(cfg, b + 1);
  }

  lemma {:induction false} ReportsCount(cfg: Config, a: nat, b: nat)
    requires b <= a <= cfg.capacity && b <= NormalThreshold(cfg.threshold)
    ensures Final(cfg, OneServerStart(), Reports(a, b)) == Some(Crowd(cfg, a, b))
  {
    hide Crowd, Final, Enabled, After, NormalThreshold;
    if b == 0 {
      ArrivalsCrowd(cfg, a);
    } else {
      ReportsCount(cfg, a, b - 1);
      OneReport(cfg, a, b - 1);
      RunGrows(cfg, OneServerStart(), Reports(a, b - 1), Crowd(cfg, a, b - 1), Fail(b - 1, 1));
    }
  }

  lemma CrowdedBlock(cfg: Config)
    requires NormalThreshold(cfg.threshold) <= cfg.capacity
    ensures BlockingPossible(cfg)
  {
    var n := NormalThreshold(cfg.threshold);
    ReportsCount(cfg, n, n);
    assert Blocked(Crowd(cfg, n, n).pool.failures, UP, TARGET, 1);
    assert SomethingBlocked(Crowd(cfg, n, n));
    OneLineFile();
    assert EndsBlocked(cfg, FileStart(["u"], Failover, 1, ALL_DIAL, 1), Reports(n, n));
  }

  /** A threshold can ever block something exactly if it does not exceed the size of the semaphore. */
  lemma BlockingPossibleIff(cfg: Config)
    ensures BlockingPossible(cfg) <==> NormalThreshold(cfg.threshold) <= cfg.capacity
  {
    if NormalThreshold(cfg.threshold) <= cfg.capacity {
      CrowdedBlock(cfg);
    } else if BlockingPossible(cfg) {
      var lines, strategy, maxActive, dial, clock, run :|
        EndsBlocked(cfg, FileStart(lines, strategy, maxActive, dial, clock), run);
      var s := FileStart(lines, strategy, maxActive, dial, clock);
      StartupIsInitial(FileAddrs(lines), strategy, maxActive, dial, clock);
      var t := Final(cfg, s, run).value;
      var up, target :| Blocked(t.pool.failures, up, target, t.clock);
      BlockNeedsOverlap(cfg, s, run, up, target, t.clock);
      FailuresNeedOverlap(cfg, s, run, Key(up, target));
    }
  }

  /**
   In terms of the options: the threshold must not exceed MAX_CONNECTIONS, and leaving that at
   0 does not lift the bound.
   */
  lemma ThresholdsThatCanBlock(maxConnections: int, retryUpstreams: int, threshold: int, ttl: int)
    ensures BlockingPossible(ConfigOf(maxConnections, retryUpstreams, threshold, ttl))
      <==> threshold <= 1 || threshold <= if maxConnections <= 0 then 100 else maxConnections
  {
    BlockingPossibleIff(ConfigOf(maxConnections, retryUpstreams, threshold, ttl));
  }

  // ---------- the limit on connections ----------

  /** Every connection that comes now is turned away. */
  ghost predicate Full(cfg: Config, s: State) {
    forall id, host, port :: !Enabled(cfg, s, Accept(id, host, port))
  }

  /** Some run of the program comes to a state with exactly `n` handlers that turns every connection away. */
  ghost predicate FillsUpAt(cfg: Config, n: nat) {
    exists lines, strategy, maxActive, dial, clock, run ::
      EndsFull(cfg, FileStart(lines, strategy, maxActive, dial, clock), run, n)
  }

  ghost predicate EndsFull(cfg: Config, s: State, run: seq<Step>, n: nat) {
    Possible(cfg, s, run) && |Final(cfg, s, run).value.handlers| == n && Full(cfg, Final(cfg, s, run).value)
  }

  lemma FreeId(ids: set<nat>) returns (id: nat)
    ensures id !in ids
  {
    var first := seq(|ids| + 1, x => x);
    ElementsOfDistinct(first);
    if Elements(first) <= ids {
      SubsetSize(Elements(first), ids);
      assert false;
    }
    id :| id in Elements(first) && id !in ids;
  }

  /** A program can fill up, and does so with as many handlers as its semaphore has places. */
  lemma FillsUpAtIff(cfg: Config, n: nat)
    ensures FillsUpAt(cfg, n) <==> n == cfg.capacity
  {
    if n == cfg.capacity {
      hide Final;
      OneLineFile();
      ArrivalsCrowd(cfg, n);
      CrewKeys(cfg, n, 0);
      assert EndsFull(cfg, FileStart(["u"], Failover, 1, ALL_DIAL, 1), Arrivals(n), n);
    } else if FillsUpAt(cfg, n) {
      var lines, strategy, maxActive, dial, clock, run :|
        EndsFull(cfg, FileStart(lines, strategy, maxActive, dial, clock), run, n);
      var s := FileStart(lines, strategy, maxActive, dial, clock);
      StartupIsInitial(FileAddrs(lines), strategy, maxActive, dial, clock);
      RunKeepsInv(cfg, s, run);
      NotFull(cfg, Final(cfg, s, run).value);
    }
  }

  lemma NotFull(cfg: Config, s: State)
    requires |s.handlers| < cfg.capacity
    ensures !Full(cfg, s)
  {
    var id := FreeId(s.handlers.Keys);
    assert Enabled(cfg, s, Accept(id, "t", 80));
  }

  /** In terms of the option: 0 connections, called unlimited, are 100. */
  lemma ConnectionLimit(maxConnections: int, retryUpstreams: int, threshold: int, ttl: int, n: nat)
    ensures FillsUpAt(ConfigOf(maxConnections, retryUpstreams, threshold, ttl), n)
      <==> n == if maxConnections <= 0 then 100 else maxConnections
  {
    FillsUpAtIff(ConfigOf(maxConnections, retryUpstreams, threshold, ttl), n);
  }
}
