/**
 The running program as a state machine: any number of connection handlers, the health checker
 and shutdown, interleaved at the critical sections of the shared selector. Every outcome of
 the network, every clock reading and every interleaving is a choice of the run.
 */
module Protocol {
  import opened Basics
  import opened Addresses
  import opened FailureTable
  import opened Selector

  /** The size of the accept semaphore and the options of a request. */
  datatype Config = Config(capacity: nat, retryUpstreams: int, threshold: int, ttl: int)

  /** The options as the program takes them: without a sensible number of connections there are 100. */
  function ConfigOf(maxConnections: int, retryUpstreams: int, threshold: int, ttl: int): Config {
    Config(if maxConnections <= 0 then 100 else maxConnections, retryUpstreams, threshold, ttl)
  }

  /** `Holding`: an upstream has been selected and the outcome of using it has not been reported. */
  datatype Phase = Starting | Ready | Holding(up: string) | Finished

  /** One handler goroutine: `tried` is its excluded set in order, `limit` its maxUpstreams. */
  datatype Handler = Handler(target: string, limit: nat, tried: seq<string>, phase: Phase)

  /** `handlers` are those that hold the semaphore; `retired` the clients that left the pool. */
  datatype State = State(pool: Pool, retired: seq<Upstream>, handlers: map<nat, Handler>, clock: nat,
                         successes: nat, failures: nat)

  datatype Step =
    | Accept(id: nat, host: string, port: int)              // a connection gets the semaphore
    | Abandon(id: nat)                                      // its request cannot be read
    | Begin(id: nat)                                        // maxUpstreams is fixed
    | Choose(id: nat, now: nat, dial: nat -> bool)          // GetForTarget
    | GiveUp(id: nat)                                       // the retry loop is over
    | Fail(id: nat, now: nat)                               // the dial fails, the loop goes on
    | EndTunnel(id: nat, suspicious: bool, now: nat)        // the tunnel ends, the last report
    | Release(id: nat)                                      // the handler returns
    | CheckHealth(probe: Probe)
    | CleanUp(now: nat)
    | RemoveServer(i: nat)
    | Shutdown

  predicate InPhase(s: State, id: nat, phase: Phase) {
    id in s.handlers && s.handlers[id].phase == phase
  }

  predicate Holds(s: State, id: nat) {
    id in s.handlers && s.handlers[id].phase.Holding?
  }

  predicate Enabled(cfg: Config, s: State, e: Step) {
    match e
    case Accept(id, _, _) => id !in s.handlers && |s.handlers| < cfg.capacity
    case Abandon(id) => InPhase(s, id, Starting)
    case Begin(id) => InPhase(s, id, Starting)
    case Choose(id, now, _) => InPhase(s, id, Ready) && |s.handlers[id].tried| < s.handlers[id].limit && s.clock <= now
    case GiveUp(id) => InPhase(s, id, Ready) && |s.handlers[id].tried| >= s.handlers[id].limit
    case Fail(id, now) => Holds(s, id) && s.clock <= now
    case EndTunnel(id, _, now) => Holds(s, id) && s.clock <= now
    case Release(id) => InPhase(s, id, Finished)
    case CheckHealth(_) => true
    case CleanUp(now) => s.clock <= now
    case RemoveServer(i) => i < |s.pool.servers|
    case Shutdown => true
  }

  function InPhaseNow(s: State, id: nat, phase: Phase): State
    requires id in s.handlers
  {
    s.(handlers := s.handlers[id := s.handlers[id].(phase := phase)])
  }

  function Request(h: Handler, now: nat, dial: nat -> bool): Query {
    Query(h.target, Elements(h.tried), now, dial)
  }

  function AfterChoice(s: State, id: nat, now: nat, dial: nat -> bool): State
    requires id in s.handlers
  {
    var h := s.handlers[id];
    var sel := Select(s.pool, Request(h, now, dial));
    var next :=
      if sel.chosen.Some? && sel.chosen.value < |s.pool.servers| then
        var up := s.pool.servers[sel.chosen.value].addr;
        h.(phase := Holding(up), tried := h.tried + [up])
      else h.(phase := Finished);
    s.(pool := sel.pool, handlers := s.handlers[id := next], clock := now)
  }

  /** A failure report, after which the handler is in `phase`. */
  function AfterFailed(cfg: Config, s: State, id: nat, now: nat, phase: Phase): State
    requires Holds(s, id)
  {
    var h := s.handlers[id];
    InPhaseNow(s, id, phase).(
      pool := TargetFailed(s.pool, h.phase.up, h.target, cfg.threshold, cfg.ttl, now),
      failures := s.failures + 1, clock := now)
  }

  function AfterServed(s: State, id: nat, now: nat): State
    requires Holds(s, id)
  {
    var h := s.handlers[id];
    InPhaseNow(s, id, Finished).(
      pool := TargetSucceeded(s.pool, h.phase.up, h.target), successes := s.successes + 1, clock := now)
  }

  function After(cfg: Config, s: State, e: Step): State
    requires Enabled(cfg, s, e)
  {
    match e
    case Accept(id, host, port) => s.(handlers := s.handlers[id := Handler(HostPort(host, port), 0, [], Starting)])
    case Abandon(id) => InPhaseNow(s, id, Finished)
    case Begin(id) =>
      var limit := MaxUpstreams(cfg.retryUpstreams, |s.pool.servers|);
      s.(handlers := s.handlers[id := s.handlers[id].(phase := Ready, limit := limit)])
    case Choose(id, now, dial) => AfterChoice(s, id, now, dial)
    case GiveUp(id) => InPhaseNow(s, id, Finished)
    case Fail(id, now) => AfterFailed(cfg, s, id, now, Ready)
    case EndTunnel(id, suspicious, now) =>
      if suspicious then AfterFailed(cfg, s, id, now, Finished) else AfterServed(s, id, now)
    case Release(id) => s.(handlers := s.handlers - {id})
    case CheckHealth(probe) => s.(pool := HealthCheck(s.pool, probe))
    case CleanUp(now) => s.(pool := CleanedUp(s.pool, now), clock := now)
    case RemoveServer(i) => s.(pool := Removed(s.pool, i), retired := s.retired + [Closed(s.pool.servers[i])])
    case Shutdown => s.(pool := Emptied(s.pool), retired := s.retired + ClosedAll(s.pool.servers))
  }

  /** The handler that a step belongs to, if any. */
  function Actor(e: Step): Option<nat> {
    match e
    case Accept(id, _, _) => Some(id)
    case Abandon(id) => Some(id)
    case Begin(id) => Some(id)
    case Choose(id, _, _) => Some(id)
    case GiveUp(id) => Some(id)
    case Fail(id, _) => Some(id)
    case EndTunnel(id, _, _) => Some(id)
    case Release(id) => Some(id)
    case _ => None
  }

  /** A step without its clock reading. */
  function Untimed(e: Step): Step {
    match e
    case Choose(id, _, dial) => Choose(id, 0, dial)
    case Fail(id, _) => Fail(id, 0)
    case EndTunnel(id, suspicious, _) => EndTunnel(id, suspicious, 0)
    case CleanUp(_) => CleanUp(0)
    case _ => e
  }

  /** What one handler did during a run, in order. */
  function Mine(run: seq<Step>, id: nat): seq<Step> {
    if run == [] then []
    else
      var last := run[|run| - 1];
      Mine(run[..|run| - 1], id) + (if Actor(last) == Some(id) then [Untimed(last)] else [])
  }

  /** Steps after which the pool may have lost a server. */
  predicate TakesServers(e: Step) {
    e.RemoveServer? || e.Shutdown?
  }

  /** Steps after which a connected client may be disconnected. */
  predicate Disconnects(e: Step) {
    e.CheckHealth? || TakesServers(e)
  }

  /** What a step leaves of the list of servers. */
  function Kept<T>(xs: seq<T>, e: Step): seq<T> {
    match e
    case RemoveServer(i) => if i < |xs| then xs[..i] + xs[i + 1..] else xs
    case Shutdown => []
    case _ => xs
  }

  /** What a step takes out of it. */
  function Gone<T>(xs: seq<T>, e: Step): seq<T> {
    match e
    case RemoveServer(i) => if i < |xs| then [xs[i]] else []
    case Shutdown => xs
    case _ => []
  }

  predicate KeepsPool(steps: seq<Step>) {
    forall k :: 0 <= k < |steps| ==> !TakesServers(steps[k])
  }

  predicate KeepsConnections(steps: seq<Step>) {
    forall k :: 0 <= k < |steps| ==> !Disconnects(steps[k])
  }

  predicate Shuts(steps: seq<Step>) {
    exists k :: 0 <= k < |steps| && steps[k].Shutdown?
  }

  /** A fresh program: a pool as startup leaves it, nothing selected or reported yet. */
  ghost predicate Initial(s: State) {
    && Wf(s.pool) && WithinCap(s.pool)
    && s.pool.failures == map[]
    && (forall i :: 0 <= i < |s.pool.servers| ==> s.pool.servers[i].selected == 0)
    && s.retired == [] && s.handlers == map[]
    && s.successes == 0 && s.failures == 0
  }

  /** The state after a run, or None once a step was not enabled. */
  function Final(cfg: Config, s: State, run: seq<Step>): Option<State> {
    if run == [] then Some(s)
    else
      var before := Final(cfg, s, run[..|run| - 1]);
      var e := run[|run| - 1];
      if before.Some? && Enabled(cfg, before.value, e) then Some(After(cfg, before.value, e)) else None
  }

  ghost predicate Possible(cfg: Config, s: State, run: seq<Step>) {
    Final(cfg, s, run).Some?
  }

  // ---------- what is outstanding ----------

  /** The handlers whose selection of the pair with this key is still unreported. */
  function Holders(s: State, key: string): set<nat> {
    set id | id in s.handlers && Holds(s, id) && Key(s.handlers[id].phase.up, s.handlers[id].target) == key
  }

  function Outstanding(s: State, key: string): nat {
    |Holders(s, key)|
  }

  function AllHolders(s: State): set<nat> {
    set id | id in s.handlers && Holds(s, id)
  }

  /** The largest number of simultaneously outstanding selections of one pair during a run. */
  function Peak(cfg: Config, s: State, run: seq<Step>, key: string): nat {
    var now := if Final(cfg, s, run).Some? then Outstanding(Final(cfg, s, run).value, key) else 0;
    if run == [] then now
    else
      var before := Peak(cfg, s, run[..|run| - 1], key);
      if before < now then now else before
  }

  /** Requests that got an upstream, as the counters of all clients ever in the pool tell it. */
  function Issued(s: State): nat {
    Total(s.pool.servers, SELECTED) + Total(s.retired, SELECTED)
  }
}
