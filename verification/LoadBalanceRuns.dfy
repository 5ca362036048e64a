/** Loadbalance over whole runs: how requests are shared out, and when a free server is missed. */
module LoadBalanceRuns {
  import opened Basics
  import opened Addresses
  import opened CyclicScan
  import opened Selector
  import opened SelectorLaws
  import opened Protocol
  import opened ProtocolLaws
  import opened Startup
  import opened Requests

  // ---------- the counter ----------

  /** The selections of a run. */
  function Choices(run: seq<Step>): nat {
    if run == [] then 0 else Choices(run[..|run| - 1]) + (if run[|run| - 1].Choose? then 1 else 0)
  }

  /** How many of the selections of a run took the server at place `i`. */
  function ServedIn(cfg: Config, s: State, run: seq<Step>, i: nat): nat
    requires Possible(cfg, s, run)
  {
    if run == [] then 0
    else
      var before, e := run[..|run| - 1], run[|run| - 1];
      ServedIn(cfg, s, before, i)
        + (if e.Choose? && TakenPlace(Final(cfg, s, before).value, e) == Some(i) then 1 else 0)
  }

  /** A loadbalance pool of `n` servers with the counter at `index`. */
  ghost predicate Balances(cfg: Config, s: State, n: nat, index: nat) {
    Inv(cfg, s) && s.pool.strategy == LoadBalance && |s.pool.servers| == n && s.pool.index == index
  }

  /** Only selections move the counter. */
  lemma StepCountsOn(cfg: Config, s: State, e: Step)
    requires Enabled(cfg, s, e) && !TakesServers(e) && Wf(s.pool)
    requires s.pool.strategy == LoadBalance && s.pool.servers != []
    ensures var p := After(cfg, s, e).pool;
      && p.strategy == LoadBalance && |p.servers| == |s.pool.servers|
      && p.index == if e.Choose? then (s.pool.index + 1) % TWO_TO_32 else s.pool.index
  {
    if e.Choose? {
      SelectionAdvances(s.pool, Request(s.handlers[e.id], e.now, e.dial));
    }
  }

  lemma {:induction false} RunCountsOn(cfg: Config, s: State, run: seq<Step>, n: nat, index: nat)
    requires 0 < n && Balances(cfg, s, n, index) && Possible(cfg, s, run) && KeepsPool(run)
    ensures Balances(cfg, Final(cfg, s, run).value, n, (index + Choices(run)) % TWO_TO_32)
  {
    hide Wf, WithinCap, TableOk, HandlerOk, Conserved, After, Enabled;
    if run == [] {
      IndexInRange(cfg, s);
      Remainder(index, TWO_TO_32, 0, index);
    } else {
      var before, e := run[..|run| - 1], run[|run| - 1];
      RunCountsOn(cfg, s, before, n, index);
      var t := Final(cfg, s, before).value;
      StepKeepsInv(cfg, t, e);
      assert !TakesServers(e);
      StepCountsOn(cfg, t, e);
      CountsOn(index, Choices(before));
    }
  }

  lemma BalancedWf(cfg: Config, s: State)
    requires Inv(cfg, s)
    ensures Wf(s.pool)
  {
  }

  lemma ChoiceMade(cfg: Config, s: State, e: Step)
    requires Enabled(cfg, s, e) && e.Choose?
    ensures e.id in s.handlers
  {
  }

  lemma IndexInRange(cfg: Config, s: State)
    requires Inv(cfg, s)
    ensures s.pool.index < TWO_TO_32
  {
  }

  // ---------- shares ----------

  /** The servers that can serve this selection are the available ones. */
  ghost predicate SteadyAt(s: State, e: Step, avail: seq<bool>)
    requires e.Choose?
  {
    e.id in s.handlers && s.pool.servers != [] && |s.pool.servers| == |avail| ==>
      forall j :: 0 <= j < |avail| ==>
        (Accepts(s.pool, Request(s.handlers[e.id], e.now, e.dial), j) <==> avail[Order(s.pool, j)])
  }

  /** Which servers can serve is the same at every selection of the run, whatever else happens in between. */
  ghost predicate SteadyRun(cfg: Config, s: State, run: seq<Step>, avail: seq<bool>) {
    run != [] ==>
      var before, e := run[..|run| - 1], run[|run| - 1];
      && SteadyRun(cfg, s, before, avail)
      && (e.Choose? && Final(cfg, s, before).Some? ==> SteadyAt(Final(cfg, s, before).value, e, avail))
  }

  lemma ChoiceIsPick(cfg: Config, s: State, e: Step, avail: seq<bool>, i: nat, start: nat, m: nat, j: nat)
    requires e.Choose? && e.id in s.handlers && SteadyAt(s, e, avail) && i < |avail| && avail[i]
    requires Wf(s.pool) && s.pool.strategy == LoadBalance && |s.pool.servers| == |avail|
    requires start < TWO_TO_32 && s.pool.index == (start + j) % TWO_TO_32 && ScansAreWhole(start, |avail|, m) && j < m
    ensures TakenPlace(s, e) == Some(Pick(avail, start + j))
  {
    hide Accepts, Order, Select, Pick, Wf, ScanIsWhole;
    OneOfTheScans(start, |avail|, m, avail, j);
    SelectionIsPick(s.pool, Request(s.handlers[e.id], e.now, e.dial), avail, i);
  }

  lemma {:induction false} ServedInIsPicks(cfg: Config, s: State, run: seq<Step>, avail: seq<bool>, i: nat)
    requires i < |avail| && avail[i] && Balances(cfg, s, |avail|, s.pool.index)
    requires Possible(cfg, s, run) && KeepsPool(run) && SteadyRun(cfg, s, run, avail)
    requires ScansAreWhole(s.pool.index, |avail|, Choices(run))
    ensures ServedIn(cfg, s, run, i) == Picks(avail, i, s.pool.index, Choices(run))
  {
    hide Inv, Enabled, After, SteadyAt, TakenPlace, Pick;
    if run != [] {
      var before, e := run[..|run| - 1], run[|run| - 1];
      ServedInIsPicks(cfg, s, before, avail, i);
      if e.Choose? {
        var t, j := Final(cfg, s, before).value, Choices(before);
        RunCountsOn(cfg, s, before, |avail|, s.pool.index);
        IndexInRange(cfg, s);
        BalancedWf(cfg, t);
        ChoiceMade(cfg, t, e);
        ChoiceIsPick(cfg, t, e, avail, i, s.pool.index, j + 1, j);
        assert s.pool.index + (j + 1) - 1 == s.pool.index + j;
      }
    }
  }

  /**
   Shares over a run: in any part of a run with as many selections as servers, with reports,
   cleanups, health checks and other handlers in between, an available server serves one request
   plus one for each unavailable server standing uninterrupted before it.
   */
  lemma RunSharesAreExact(cfg: Config, s: State, run: seq<Step>, avail: seq<bool>, i: nat)
    requires i < |avail| && avail[i] && Balances(cfg, s, |avail|, s.pool.index)
    requires Possible(cfg, s, run) && KeepsPool(run) && SteadyRun(cfg, s, run, avail)
    requires Choices(run) == |avail| && ScansAreWhole(s.pool.index, |avail|, |avail|)
    ensures ServedIn(cfg, s, run, i) == 1 + Gap(avail, i)
  {
    ServedInIsPicks(cfg, s, run, avail, i);
    ExactShares(avail, i, s.pool.index);
  }

  /** With every server available any part of a run is shared evenly. */
  lemma RunSharesAreEven(cfg: Config, s: State, run: seq<Step>, avail: seq<bool>, i: nat, j: nat)
    requires i < |avail| && j < |avail| && forall x :: 0 <= x < |avail| ==> avail[x]
    requires Balances(cfg, s, |avail|, s.pool.index)
    requires Possible(cfg, s, run) && KeepsPool(run) && SteadyRun(cfg, s, run, avail)
    requires ScansAreWhole(s.pool.index, |avail|, Choices(run))
    ensures ServedIn(cfg, s, run, i) <= ServedIn(cfg, s, run, j) + 1
  {
    ServedInIsPicks(cfg, s, run, avail, i);
    ServedInIsPicks(cfg, s, run, avail, j);
    EvenShares(avail, i, j, s.pool.index, Choices(run));
  }

  // ---------- while nothing fails ----------

  /** A step at which nothing goes wrong: no failure report, no silent server, no removal. */
  ghost predicate IsCalm(e: Step) {
    && !e.Fail? && !TakesServers(e)
    && (e.EndTunnel? ==> !e.suspicious)
    && (e.CheckHealth? ==> forall i: nat :: e.probe.alive(i))
  }

  ghost predicate IsCalmRun(run: seq<Step>) {
    forall k :: 0 <= k < |run| ==> IsCalm(run[k])
  }

  /** Every server is connected, no failure is counted, and no request has tried anything in vain. */
  ghost predicate AllFree(s: State) {
    && (forall i :: 0 <= i < |s.pool.servers| ==> s.pool.servers[i].connected)
    && s.pool.failures == map[]
    && (forall id :: id in s.handlers ==> NothingFailed(s.handlers[id]))
  }

  predicate NothingFailed(h: Handler) {
    h.phase == Starting || h.phase == Ready ==> h.tried == []
  }

  lemma FreeChoice(s: State, e: Step)
    requires e.Choose? && e.id in s.handlers && Wf(s.pool) && AllFree(s) && s.handlers[e.id].phase == Ready
    ensures var t := AfterChoice(s, e.id, e.now, e.dial);
      && (forall i :: 0 <= i < |t.pool.servers| ==> t.pool.servers[i].connected)
      && t.pool.failures == map[] && e.id in t.handlers && NothingFailed(t.handlers[e.id])
    ensures s.pool.servers != [] ==>
      forall j :: 0 <= j < |s.pool.servers| ==> Accepts(s.pool, Request(s.handlers[e.id], e.now, e.dial), j)
  {
    ChoiceOutcome(s, e.id, e.now, e.dial);
    var q := Request(s.handlers[e.id], e.now, e.dial);
    SelectionForgets(s.pool, q);
    if Select(s.pool, q).chosen.Some? {
      SelectionServes(s.pool, q);
    }
  }

  /** What a calm step other than a selection does to the pool, and what it leaves of its handler. */
  lemma FreeStep(cfg: Config, s: State, e: Step)
    requires Enabled(cfg, s, e) && IsCalm(e) && !e.Choose? && AllFree(s)
    ensures var t := After(cfg, s, e);
      && (s.pool.strategy == LoadBalance ==>
           forall i :: 0 <= i < |t.pool.servers| ==> t.pool.servers[i].connected)
      && t.pool.failures == map[]
      && (Actor(e).Some? && Actor(e).value in t.handlers ==> NothingFailed(t.handlers[Actor(e).value]))
  {
  }

  lemma CalmStep(cfg: Config, s: State, e: Step)
    requires Enabled(cfg, s, e) && IsCalm(e) && AllFree(s) && Wf(s.pool) && s.pool.strategy == LoadBalance
    ensures AllFree(After(cfg, s, e))
    ensures e.Choose? ==> SteadyAt(s, e, seq(|s.pool.servers|, _ => true))
  {
    OnlyTheActorChanges(cfg, s, e);
    if e.Choose? {
      FreeChoice(s, e);
    } else {
      FreeStep(cfg, s, e);
    }
    hide Wf, Enabled, IsCalm, Accepts, NothingFailed, AfterChoice;
    var t := After(cfg, s, e);
    forall id | id in t.handlers ensures NothingFailed(t.handlers[id]) {
      if Actor(e) != Some(id) {
        assert t.handlers[id] == s.handlers[id];
      }
    }
  }

  /** As long as nothing fails every server is available. */
  lemma {:induction false} CalmRunIsSteady(cfg: Config, s: State, run: seq<Step>, n: nat, index: nat)
    requires 0 < n && Balances(cfg, s, n, index) && AllFree(s) && Possible(cfg, s, run) && IsCalmRun(run)
    ensures KeepsPool(run) && AllFree(Final(cfg, s, run).value) && SteadyRun(cfg, s, run, seq(n, _ => true))
  {
    hide Inv, Enabled, After, AllFree, SteadyAt;
    if run != [] {
      var before, e := run[..|run| - 1], run[|run| - 1];
      CalmRunIsSteady(cfg, s, before, n, index);
      RunCountsOn(cfg, s, before, n, index);
      assert IsCalm(e);
      BalancedWf(cfg, Final(cfg, s, before).value);
      CalmStep(cfg, Final(cfg, s, before).value, e);
    }
  }

  /** Started with every server connected, any number of requests is spread evenly as long as nothing fails. */
  lemma CalmRunsShareEvenly(cfg: Config, lines: seq<string>, maxActive: int, clock: nat, run: seq<Step>, i: nat, j: nat)
    requires i < |FileAddrs(lines)| <= maxActive && j < |FileAddrs(lines)|
    requires Possible(cfg, FileStart(lines, LoadBalance, maxActive, ALL_DIAL, clock), run) && IsCalmRun(run)
    requires ScansAreWhole(0, |FileAddrs(lines)|, Choices(run))
    ensures var s := FileStart(lines, LoadBalance, maxActive, ALL_DIAL, clock);
      ServedIn(cfg, s, run, i) <= ServedIn(cfg, s, run, j) + 1
  {
    hide Inv, Final, FileAddrs, AllFree, SteadyRun, IsCalmRun, ServedIn, Choices;
    var s, n := FileStart(lines, LoadBalance, maxActive, ALL_DIAL, clock), |FileAddrs(lines)|;
    StartupIsInitial(FileAddrs(lines), LoadBalance, maxActive, ALL_DIAL, clock);
    InitialInv(cfg, s);
    StartsFree(lines, maxActive, clock);
    CalmRunIsSteady(cfg, s, run, n, 0);
    RunSharesAreEven(cfg, s, run, seq(n, _ => true), i, j);
  }

  lemma {:induction false} EveryConnectable(m: nat)
    ensures Connectable(ALL_DIAL, m) == m
  {
    if m > 0 {
      EveryConnectable(m - 1);
    }
  }

  lemma StartsFree(lines: seq<string>, maxActive: int, clock: nat)
    requires |FileAddrs(lines)| <= maxActive
    ensures AllFree(FileStart(lines, LoadBalance, maxActive, ALL_DIAL, clock))
  {
    hide FileAddrs;
    var s := FileStart(lines, LoadBalance, maxActive, ALL_DIAL, clock);
    forall i | 0 <= i < |s.pool.servers| ensures s.pool.servers[i].connected {
      EveryConnectable(i);
    }
  }
}
