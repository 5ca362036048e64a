/**
 The upstream selector as values: what each critical section of the RoundRobin object does to
 its state. The class in RoundRobin.dfy runs the program's loops and is proved equal to these
 functions; SelectorLaws.dfy says what they guarantee.
 */
module Selector {
  import opened Basics
  import opened CyclicScan
  import opened FailureTable

  // ---------- one upstream ----------

  /** `connected` says that the ssh client is there; the counters are uint64. */
  datatype Upstream = Upstream(addr: string, connected: bool, healthy: bool,
                               selected: nat, reconnects: nat, checks: nat)

  function Increment(x: nat): nat {
    (x + 1) % TWO_TO_64
  }

  function Marked(u: Upstream): Upstream {
    u.(selected := Increment(u.selected))
  }

  function Closed(u: Upstream): Upstream {
    u.(connected := false, healthy := false)
  }

  function Reconnected(u: Upstream, ok: bool): Upstream {
    if ok then u.(connected := true, healthy := true, reconnects := Increment(u.reconnects)) else Closed(u)
  }

  function EnsuredConnected(u: Upstream, ok: bool): Upstream {
    if u.connected then u else Reconnected(u, ok)
  }

  /** A keepalive, sent only to a connected client; a client that does not answer is dropped. */
  function HealthChecked(u: Upstream, alive: bool): Upstream {
    var counted := u.(checks := Increment(u.checks));
    if u.connected && alive then counted.(healthy := true) else Closed(counted)
  }

  // ---------- the pool ----------

  datatype Strategy = LoadBalance | Failover

  datatype Pool = Pool(servers: seq<Upstream>, index: nat, strategy: Strategy, maxActive: nat,
                       activeIdx: nat, hasActive: bool, failures: Table)

  const CONNECTED: Upstream -> nat := (u: Upstream) => if u.connected then 1 else 0
  const SELECTED: Upstream -> nat := (u: Upstream) => u.selected

  function Total(us: seq<Upstream>, weight: Upstream -> nat): nat {
    if us == [] then 0 else Total(us[..|us| - 1], weight) + weight(us[|us| - 1])
  }

  function ConnectedCount(us: seq<Upstream>): nat {
    Total(us, CONNECTED)
  }

  function FirstTrue(flags: seq<bool>, from: nat := 0): (r: nat)
    requires from <= |flags|
    ensures from <= r <= |flags|
    ensures forall j :: from <= j < r ==> !flags[j]
    ensures r < |flags| ==> flags[r]
    decreases |flags| - from
  {
    if from == |flags| || flags[from] then from else FirstTrue(flags, from + 1)
  }

  /**
   What every step keeps. `healthy` is `connected`; the active index is in range while there
   is an active server and 0 otherwise; loadbalance never has an active server.
   */
  ghost predicate Wf(p: Pool) {
    && (forall i :: 0 <= i < |p.servers| ==> p.servers[i].healthy == p.servers[i].connected)
    && p.index < TWO_TO_32
    && p.maxActive > 0
    && (p.hasActive ==> p.activeIdx < |p.servers|)
    && (!p.hasActive ==> p.activeIdx == 0)
    && (p.strategy == LoadBalance ==> !p.hasActive)
  }

  /** The promise of the loadbalance strategy on simultaneous connections. */
  ghost predicate WithinCap(p: Pool) {
    p.strategy == LoadBalance ==> ConnectedCount(p.servers) <= p.maxActive
  }

  // ---------- selection ----------

  /** A request for an upstream. `dial(j)` is the outcome of connecting to the j-th upstream in the trying order. */
  datatype Query = Query(target: string, exclude: set<string>, now: nat, dial: nat -> bool)

  /** `refused` lists the addresses reported to OnConnectionError, in order. */
  datatype Selection = Selection(pool: Pool, chosen: Option<nat>, refused: seq<string>)

  /** The server tried in place `j`: from the counter, or from the active server on. */
  function Order(p: Pool, j: nat): (i: nat)
    requires p.servers != []
    ensures i < |p.servers|
  {
    if p.strategy == LoadBalance then VisitIndex(p.index, |p.servers|, j)
    else if p.hasActive then (p.activeIdx + j) % |p.servers|
    else (p.index + j) % |p.servers|
  }

  predicate MayDial(p: Pool) {
    p.strategy == Failover || ConnectedCount(p.servers) < p.maxActive
  }

  predicate Eligible(p: Pool, q: Query, i: nat)
    requires i < |p.servers|
  {
    p.servers[i].addr !in q.exclude && !Blocked(p.failures, p.servers[i].addr, q.target, q.now)
  }

  /** The j-th server in order can serve the request: it is connected, or may and does connect now. */
  predicate Accepts(p: Pool, q: Query, j: nat)
    requires p.servers != []
  {
    var i := Order(p, j);
    Eligible(p, q, i) && (p.servers[i].connected || (MayDial(p) && q.dial(j)))
  }

  predicate Refuses(p: Pool, q: Query, j: nat)
    requires p.servers != []
  {
    var i := Order(p, j);
    Eligible(p, q, i) && !p.servers[i].connected && MayDial(p) && !q.dial(j)
  }

  /** The place of the first server in order that accepts, or the pool size. */
  function Winner(p: Pool, q: Query): (k: nat)
    requires p.servers != []
    ensures k <= |p.servers|
    ensures forall j :: 0 <= j < k ==> !Accepts(p, q, j)
    ensures k < |p.servers| ==> Accepts(p, q, k)
  {
    var flags := seq(|p.servers|, j requires 0 <= j => Accepts(p, q, j));
    var k := FirstTrue(flags);
    assert forall j {:trigger Accepts(p, q, j)} :: 0 <= j < k ==> flags[j] == Accepts(p, q, j);
    k
  }

  /** Table entries dropped by the first `m` places: those of eligible servers. */
  function DroppedKeys(p: Pool, q: Query, m: nat): set<string>
    requires p.servers != []
  {
    if q.target == "" then {}
    else set j: nat | j < m && Eligible(p, q, Order(p, j)) :: Key(p.servers[Order(p, j)].addr, q.target)
  }

  function RefusedAddrs(p: Pool, q: Query, m: nat): seq<string>
    requires p.servers != []
  {
    if m == 0 then []
    else RefusedAddrs(p, q, m - 1) + (if Refuses(p, q, m - 1) then [p.servers[Order(p, m - 1)].addr] else [])
  }

  /** GetForTarget under either strategy. */
  function Select(p: Pool, q: Query): Selection {
    if p.servers == [] then Selection(p, None, [])
    else
      var k := Winner(p, q);
      var seen := if k < |p.servers| then k + 1 else k;
      var scanned := p.(
        index := if p.strategy == Failover && p.hasActive then p.index else (p.index + 1) % TWO_TO_32,
        failures := p.failures - DroppedKeys(p, q, seen));
      if k < |p.servers| then
        var i := Order(p, k);
        var won := scanned.(servers := p.servers[i := Marked(EnsuredConnected(p.servers[i], true))]);
        Selection(if p.strategy == Failover then won.(hasActive := true, activeIdx := i) else won,
                  Some(i), RefusedAddrs(p, q, k))
      else
        Selection(if p.strategy == Failover then scanned.(hasActive := false, activeIdx := 0) else scanned,
                  None, RefusedAddrs(p, q, k))
  }

  // ---------- health checks ----------

  /** `alive(i)` and `dial(i)` are the outcomes of a keepalive and of a connect to server `i`. */
  datatype Probe = Probe(alive: nat -> bool, dial: nat -> bool)

  datatype HealthReport = HealthReport(checked: nat, recovered: seq<string>, failed: seq<string>,
                                       switchedFrom: string, switchedTo: string)

  function ProbedOne(u: Upstream, alive: bool): Upstream {
    if u.connected then HealthChecked(u, alive) else u
  }

  function ProbedAll(p: Pool, c: Probe): (us: seq<Upstream>)
    ensures |us| == |p.servers|
    ensures forall i :: 0 <= i < |us| ==> us[i] == ProbedOne(p.servers[i], c.alive(i))
  {
    seq(|p.servers|, i requires 0 <= i < |p.servers| => ProbedOne(p.servers[i], c.alive(i)))
  }

  predicate Survives(p: Pool, c: Probe, i: nat)
    requires i < |p.servers|
  {
    p.servers[i].connected && c.alive(i)
  }

  /** The addresses of connected servers whose keepalive failed, in pool order. */
  function Casualties(p: Pool, c: Probe, m: nat): seq<string>
    requires m <= |p.servers|
  {
    if m == 0 then []
    else
      var last := p.servers[m - 1];
      Casualties(p, c, m - 1) + (if last.connected && !c.alive(m - 1) then [last.addr] else [])
  }

  function FirstSurvivor(p: Pool, c: Probe): (r: nat)
    ensures r <= |p.servers|
    ensures forall j :: 0 <= j < r ==> !Survives(p, c, j)
    ensures r < |p.servers| ==> Survives(p, c, r)
  {
    var flags := seq(|p.servers|, i requires 0 <= i < |p.servers| => Survives(p, c, i));
    var r := FirstTrue(flags);
    assert forall j {:trigger Survives(p, c, j)} :: 0 <= j < r ==> flags[j] == Survives(p, c, j);
    r
  }

  function FirstDialled(n: nat, dial: nat -> bool): (r: nat)
    ensures r <= n
    ensures forall j :: 0 <= j < r ==> !dial(j)
    ensures r < n ==> dial(r)
  {
    var flags := seq(n, i requires 0 <= i => dial(i));
    var r := FirstTrue(flags);
    assert forall j {:trigger dial(j)} :: 0 <= j < r ==> flags[j] == dial(j);
    r
  }

  predicate KeepsActive(p: Pool, c: Probe) {
    p.hasActive && p.activeIdx < |p.servers| && Survives(p, c, p.activeIdx)
  }

  /** RunHealthChecks: the pool it leaves. */
  function HealthCheck(p: Pool, c: Probe): Pool {
    var us, n := ProbedAll(p, c), |p.servers|;
    var probed := p.(servers := us);
    if n == 0 || p.strategy == LoadBalance || KeepsActive(p, c) then probed
    else if FirstSurvivor(p, c) < n then probed.(hasActive := true, activeIdx := FirstSurvivor(p, c))
    else
      var d := FirstDialled(n, c.dial);
      if d < n then probed.(servers := us[d := Reconnected(us[d], true)], hasActive := true, activeIdx := d)
      else probed.(hasActive := false, activeIdx := 0)
  }

  /** RunHealthChecks: what it reports. */
  function HealthCheckReport(p: Pool, c: Probe): HealthReport {
    var n, after := |p.servers|, HealthCheck(p, c);
    var switches := n > 0 && p.strategy == Failover && !KeepsActive(p, c);
    HealthReport(ConnectedCount(p.servers), [], Casualties(p, c, n),
      if switches && p.hasActive && p.activeIdx < n then p.servers[p.activeIdx].addr else "",
      if switches && after.hasActive && after.activeIdx < n then p.servers[after.activeIdx].addr else "")
  }

  // ---------- membership ----------

  /** Add: a new server goes last. */
  function Added(p: Pool, u: Upstream): Pool {
    p.(servers := p.servers + [u])
  }

  /** Remove of the server at place `i`, which has been closed. */
  function Removed(p: Pool, i: nat): Pool
    requires i < |p.servers|
  {
    p.(servers := p.servers[..i] + p.servers[i + 1..],
       hasActive := p.hasActive && i != p.activeIdx,
       activeIdx := if !p.hasActive || i == p.activeIdx then 0
                    else if i < p.activeIdx then p.activeIdx - 1 else p.activeIdx)
  }

  /** CloseAll: the pool is emptied; the clients it held are closed. */
  function Emptied(p: Pool): Pool {
    p.(servers := [], hasActive := false, activeIdx := 0)
  }

  function ClosedAll(us: seq<Upstream>): (cs: seq<Upstream>)
    ensures |cs| == |us|
    ensures forall i :: 0 <= i < |cs| ==> cs[i] == Closed(us[i])
  {
    seq(|us|, i requires 0 <= i < |us| => Closed(us[i]))
  }

  // ---------- limits ----------

  /** maxUpstreams of one request: the option, or else the pool size, and never less than one. */
  function MaxUpstreams(option: int, poolSize: nat): nat {
    if option > 0 then option else if poolSize == 0 then 1 else poolSize
  }

  // ---------- the failure table of a pool ----------

  function TargetFailed(p: Pool, up: string, target: string, threshold: int, ttl: int, now: nat): Pool {
    p.(failures := AfterFailure(p.failures, up, target, threshold, ttl, now))
  }

  function TargetSucceeded(p: Pool, up: string, target: string): Pool {
    p.(failures := AfterSuccess(p.failures, up, target))
  }

  function CleanedUp(p: Pool, now: nat): Pool {
    p.(failures := AfterCleanup(p.failures, now))
  }
}
