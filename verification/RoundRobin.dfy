/**
 The selector as the program runs it: mutable clients, a mutable pool and the loops over it.
 Each method is one critical section and is proved equal to its function in Selector.dfy.
 */
module RoundRobins {
  import opened Basics
  import opened CyclicScan
  import opened FailureTable
  import opened Selector
  import opened ScanSteps
  import opened SelectorLaws

  /** A client of one upstream. `connected` stands for a non-nil ssh client with a live Conn. */
  class SSHClient {
    const addr: string
    var connected: bool
    var healthy: bool
    var selectedCount: nat
    var reconnectCount: nat
    var healthcheckCount: nat

    function State(): Upstream
      reads this
    {
      Upstream(addr, connected, healthy, selectedCount, reconnectCount, healthcheckCount)
    }

    /** NewSSHClient, once the connection is up. */
    constructor Connected(addr: string)
      ensures State() == Upstream(addr, true, true, 0, 0, 0)
    {
      this.addr, connected, healthy := addr, true, true;
      selectedCount, reconnectCount, healthcheckCount := 0, 0, 0;
    }

    /** NewSSHClientLazy. */
    constructor Lazy(addr: string)
      ensures State() == Upstream(addr, false, false, 0, 0, 0)
    {
      this.addr, connected, healthy := addr, false, false;
      selectedCount, reconnectCount, healthcheckCount := 0, 0, 0;
    }

    method IsConnected() returns (yes: bool)
      modifies this`healthy
      ensures yes == connected
      ensures healthy == (connected && old(healthy))
    {
      if !connected {
        healthy := false;
        return false;
      }
      return true;
    }

    method MarkSelected()
      modifies this`selectedCount
      ensures State() == Marked(old(State()))
      ensures selectedCount == (old(selectedCount) + 1) % 0x1_0000_0000_0000_0000
    {
      selectedCount := Increment(selectedCount);
    }

    method Close()
      modifies this
      ensures State() == Closed(old(State())) && !connected && !healthy
      ensures unchanged(`selectedCount, `reconnectCount, `healthcheckCount)
    {
      healthy := false;
      if connected {
        connected := false;
      }
    }

    /** `dialled` is the outcome of the connect, made while the client lock is free. */
    method Reconnect(dialled: bool) returns (ok: bool)
      modifies this
      ensures ok == dialled
      ensures State() == Reconnected(old(State()), dialled) && connected == healthy == dialled
      ensures reconnectCount
        == (if dialled then (old(reconnectCount) + 1) % 0x1_0000_0000_0000_0000 else old(reconnectCount))
      ensures unchanged(`selectedCount, `healthcheckCount)
    {
      connected := false;
      healthy := false;
      assert healthy == connected;
      if !dialled {
        return false;
      }
      connected := true;
      healthy := true;
      reconnectCount := Increment(reconnectCount);
      return true;
    }

    method EnsureConnected(dialled: bool) returns (ok: bool)
      modifies this
      ensures ok == (old(connected) || dialled) && connected == ok
      ensures State() == EnsuredConnected(old(State()), dialled)
      ensures old(connected) ==> State() == old(State())
    {
      var yes := IsConnected();
      if yes {
        return true;
      }
      ok := Reconnect(dialled);
    }

    /** `answered` is the outcome of the keepalive request. */
    method HealthCheck(answered: bool) returns (ok: bool)
      modifies this
      ensures ok == (old(connected) && answered)
      ensures State() == HealthChecked(old(State()), answered) && connected == healthy == ok
      ensures healthcheckCount == (old(healthcheckCount) + 1) % 0x1_0000_0000_0000_0000
      ensures unchanged(`selectedCount, `reconnectCount)
    {
      healthcheckCount := Increment(healthcheckCount);
      if !connected {
        healthy := false;
        return false;
      }
      if !answered {
        healthy := false;
        connected := false;
        return false;
      }
      healthy := true;
      return true;
    }
  }

  function States(cs: seq<SSHClient>): (us: seq<Upstream>)
    reads cs
    ensures |us| == |cs|
    ensures forall i :: 0 <= i < |cs| ==> us[i] == cs[i].State()
  {
    seq(|cs|, i requires 0 <= i < |cs| reads cs => cs[i].State())
  }

  class RoundRobin {
    var servers: seq<SSHClient>
    var index: nat
    const strategy: Strategy
    const maxActive: nat
    var activeIdx: nat
    var hasActive: bool
    var targetFailures: Table

    function Model(): Pool
      reads this, servers
    {
      Pool(States(servers), index, strategy, maxActive, activeIdx, hasActive, targetFailures)
    }

    ghost predicate Valid()
      reads this, servers
    {
      Distinct(servers) && Wf(Model())
    }

    /** NewRoundRobin: a cap that makes no sense becomes 1. */
    constructor (strategy: Strategy, maxActive: int)
      ensures Valid() && servers == []
      ensures Model() == Pool([], 0, strategy, if maxActive <= 0 then 1 else maxActive, 0, false, map[])
    {
      this.strategy := strategy;
      this.maxActive := if maxActive <= 0 then 1 else maxActive;
      servers, index, activeIdx, hasActive, targetFailures := [], 0, 0, false, map[];
    }

    method Add(client: SSHClient)
      requires Valid() && client !in servers && client.healthy == client.connected
      modifies this`servers
      ensures Valid() && servers == old(servers) + [client]
      ensures Model() == Added(old(Model()), client.State())
    {
      servers := servers + [client];
      assert States(servers) == old(States(servers)) + [client.State()];
    }

    method ConnectedCountLocked() returns (count: nat)
      requires Valid()
      modifies servers
      ensures Valid() && Model() == old(Model())
      ensures count == ConnectedCount(Model().servers)
    {
      count := 0;
      for i := 0 to |servers|
        invariant Model() == old(Model())
        invariant count == ConnectedCount(Model().servers[..i])
      {
        var yes := servers[i].IsConnected();
        assert States(servers) == old(States(servers));
        assert Model().servers[..i + 1][..i] == Model().servers[..i];
        if yes {
          count := count + 1;
        }
      }
      assert Model().servers[..|servers|] == Model().servers;
    }

    method IsTargetBlockedLocked(client: SSHClient?, target: string, now: nat) returns (blocked: bool)
      modifies this`targetFailures
      ensures client == null ==> !blocked && targetFailures == old(targetFailures)
      ensures client != null ==>
        && blocked == Blocked(old(targetFailures), client.addr, target, now)
        && targetFailures == AfterProbe(old(targetFailures), client.addr, target, now)
    {
      if target == "" || client == null {
        return false;
      }
      var key := Key(client.addr, target);
      if key !in targetFailures {
        return false;
      }
      if targetFailures[key].blockedUntil > now {
        return true;
      }
      targetFailures := targetFailures - {key};
      return false;
    }

    /** The first `m` places of the trying order of `p` have been passed without an answer. */
    ghost predicate Passed(p: Pool, q: Query, m: nat, refused: seq<string>)
      requires p.servers != []
      reads this`servers, this`targetFailures, servers
    {
      && States(servers) == p.servers
      && targetFailures == p.failures - DroppedKeys(p, q, m)
      && refused == RefusedAddrs(p, q, m)
      && forall j :: 0 <= j < m ==> !Accepts(p, q, j)
    }

    lemma PassedNone(p: Pool, q: Query)
      requires p.servers != [] && States(servers) == p.servers && targetFailures == p.failures
      ensures Passed(p, q, 0, [])
    {
      assert p.failures - DroppedKeys(p, q, 0) == p.failures;
    }

    /** The server at place `k` has been taken, after `k` places without an answer. */
    ghost predicate Taken(p: Pool, q: Query, k: nat, refused: seq<string>)
      requires k < |p.servers|
      reads this`servers, this`targetFailures, servers
    {
      && States(servers) == Serving(p.servers, Order(p, k))
      && targetFailures == p.failures - DroppedKeys(p, q, k + 1)
      && refused == RefusedAddrs(p, q, k)
      && Winner(p, q) == k
    }

    /** Takes the server at `idx` if it is connected, or else if it may be dialled and answers. */
    method Acquire(idx: nat, mayDial: bool, dialled: bool) returns (won: bool, failed: bool)
      requires Distinct(servers) && idx < |servers| && servers[idx].healthy == servers[idx].connected
      modifies servers[idx]
      ensures won <==> old(servers[idx].connected) || (mayDial && dialled)
      ensures failed <==> !won && mayDial
      ensures States(servers) == if won then Serving(old(States(servers)), idx) else old(States(servers))
    {
      var client := servers[idx];
      var yes := client.IsConnected();
      if yes {
        client.MarkSelected();
        return true, false;
      }
      if !mayDial {
        return false, false;
      }
      var ok := client.EnsureConnected(dialled);
      if ok {
        client.MarkSelected();
        return true, false;
      }
      return false, true;
    }

    /**
     What both scans do with the server at `idx`, which stands at `place` in the trying order
     of `p`: skip it if excluded or blocked, take it if connected, else dial it if allowed.
     */
    method TryServer(idx: nat, q: Query, place: nat, mayDial: bool, soFar: seq<string>, ghost p: Pool)
      returns (won: bool, refused: seq<string>)
      requires Distinct(servers) && Wf(p) && place < |p.servers| == |servers|
      requires Passed(p, q, place, soFar)
      requires idx == Order(p, place) && mayDial == MayDial(p)
      modifies this`targetFailures, servers
      ensures won ==> Taken(p, q, place, refused)
      ensures !won ==> Passed(p, q, place + 1, refused)
    {
      hide Order, Select, MayDial, Winner, DroppedKeys, Blocked, AfterProbe;
      ProbeStep(p, q, place);
      var client := servers[idx];
      assert client.State() == p.servers[idx];
      refused := soFar;
      if client.addr in q.exclude {
        return false, refused;
      }
      var blocked := IsTargetBlockedLocked(client, q.target, q.now);
      if blocked {
        return false, refused;
      }
      var won', failed := Acquire(idx, mayDial, q.dial(place));
      if won' {
        WinnerIs(p, q, place);
        return true, refused;
      }
      return false, if failed then refused + [client.addr] else refused;
    }

    /** The answer and the state agree with a selection of the specification. */
    ghost predicate Answers(s: Selection, client: SSHClient?, refused: seq<string>)
      reads this, servers
    {
      && Model() == s.pool
      && refused == s.refused
      && (client == null <==> s.chosen == None)
      && (client != null ==> s.chosen.value < |servers| && client == servers[s.chosen.value])
    }

    lemma FoundAnswer(p: Pool, q: Query, k: nat, refused: seq<string>)
      requires k < |p.servers| == |servers| && Taken(p, q, k, refused)
      requires strategy == p.strategy && maxActive == p.maxActive && index == NextIndex(p)
      requires hasActive == (strategy == Failover || p.hasActive)
      requires activeIdx == if strategy == Failover then Order(p, k) else p.activeIdx
      ensures Answers(Select(p, q), servers[Order(p, k)], refused)
    {
      SelectionAt(p, q, k);
      var pool := Select(p, q).pool;
      assert Model().servers == pool.servers;
    }

    lemma NoAnswer(p: Pool, q: Query, refused: seq<string>)
      requires Wf(p) && 0 < |p.servers| == |servers| && Passed(p, q, |p.servers|, refused)
      requires strategy == p.strategy && maxActive == p.maxActive && index == NextIndex(p)
      requires hasActive == (strategy == LoadBalance && p.hasActive)
      requires activeIdx == if strategy == LoadBalance then p.activeIdx else 0
      ensures Answers(Select(p, q), null, refused)
    {
      SelectionOfNone(p, q);
    }

    method GetLoadBalanceLocked(q: Query) returns (client: SSHClient?, refused: seq<string>)
      requires Valid() && servers != [] && strategy == LoadBalance
      modifies this`index, this`targetFailures, servers
      ensures Answers(Select(old(Model()), q), client, refused)
    {
      hide Order, Accepts, Winner, Select, Taken, Passed, Wf, Distinct, ConnectedCount, MayDial, VisitIndex;
      ghost var p := Model();
      var connectedCount := ConnectedCountLocked();
      var startIdx := index;
      index := (index + 1) % TWO_TO_32;
      var checked := 0;
      refused := [];
      PassedNone(p, q);
      while checked < |servers|
        invariant checked <= |servers|
        invariant index == NextIndex(p)
        invariant Passed(p, q, checked, refused)
      {
        var idx := VisitIndex(startIdx, |servers|, checked);
        OrderOfScan(p, checked);
        var won;
        won, refused := TryServer(idx, q, checked, connectedCount < maxActive, refused, p);
        if won {
          FoundAnswer(p, q, checked, refused);
          return servers[idx], refused;
        }
        checked := checked + 1;
      }
      NoAnswer(p, q, refused);
      return null, refused;
    }

    /** The part of failover selection after the label scanNext. */
    method ScanNext(q: Query, soFar: seq<string>, ghost p: Pool)
      returns (client: SSHClient?, refused: seq<string>)
      requires Valid() && servers != [] && strategy == Failover
      requires Wf(p) && Model() == p.(failures := targetFailures)
      requires Passed(p, q, if hasActive then 1 else 0, soFar)
      modifies this`index, this`targetFailures, this`activeIdx, this`hasActive, servers
      ensures Answers(Select(p, q), client, refused)
    {
      hide Order, Accepts, Winner, Select, Taken, Passed, Distinct, OnRing, Wf, Answers, NextIndex, MayDial, States;
      FailoverScan(p);
      var n := |servers|;
      var startIdx;
      if hasActive {
        startIdx := OnRing(activeIdx + 1, n);
      } else {
        startIdx := OnRing(index, n);
        index := (index + 1) % TWO_TO_32;
      }
      ghost var tried := if hasActive then 1 else 0;
      var checked := 0;
      refused := soFar;
      while checked < n
        invariant checked <= n
        invariant index == NextIndex(p) && hasActive == p.hasActive && activeIdx == p.activeIdx
        invariant tried == if p.hasActive && checked < n then checked + 1 else checked
        invariant Passed(p, q, tried, refused)
      {
        var idx := OnRing(startIdx + checked, n);
        ScanPlace(p, startIdx, checked);
        if hasActive && idx == activeIdx {
          checked := checked + 1;
          continue;
        }
        var place := if hasActive then checked + 1 else checked;
        var won;
        won, refused := TryServer(idx, q, place, true, refused, p);
        if won {
          activeIdx := idx;
          hasActive := true;
          FoundAnswer(p, q, place, refused);
          return servers[idx], refused;
        }
        tried := tried + 1;
        checked := checked + 1;
      }
      hasActive := false;
      activeIdx := 0;
      NoAnswer(p, q, refused);
      return null, refused;
    }

    method GetFailoverLocked(q: Query) returns (client: SSHClient?, refused: seq<string>)
      requires Valid() && servers != [] && strategy == Failover
      modifies this`index, this`targetFailures, this`activeIdx, this`hasActive, servers
      ensures Answers(Select(old(Model()), q), client, refused)
    {
      ghost var p := Model();
      refused := [];
      PassedNone(p, q);
      if hasActive {
        Remainder(activeIdx, |servers|, 0, activeIdx);
        var won;
        won, refused := TryServer(activeIdx, q, 0, true, refused, p);
        if won {
          FoundAnswer(p, q, 0, refused);
          return servers[activeIdx], refused;
        }
      }
      client, refused := ScanNext(q, refused, p);
    }

    method GetForTarget(q: Query) returns (client: SSHClient?, refused: seq<string>)
      requires Valid()
      modifies this`index, this`targetFailures, this`activeIdx, this`hasActive, servers
      ensures Valid()
      ensures Answers(Select(old(Model()), q), client, refused)
    {
      SelectionKeepsWf(Model(), q);
      if servers == [] {
        return null, [];
      }
      if strategy == Failover {
        client, refused := GetFailoverLocked(q);
      } else {
        client, refused := GetLoadBalanceLocked(q);
      }
    }

    // ---------- health checks ----------

    /** The first `m` servers have been probed, the others have not. */
    ghost predicate ProbedUpTo(p: Pool, c: Probe, m: nat)
      requires m <= |p.servers|
      reads this`servers, servers
    {
      && |servers| == |p.servers|
      && forall i :: 0 <= i < |servers| ==>
           servers[i].State() == if i < m then ProbedAll(p, c)[i] else p.servers[i]
    }

    lemma NothingProbed(p: Pool, c: Probe)
      requires Model() == p
      ensures ProbedUpTo(p, c, 0) && ProbeReport(p, c, 0) == HealthReport(0, [], [], "", "")
    {
    }

    lemma AllProbed(p: Pool, c: Probe)
      requires ProbedUpTo(p, c, |p.servers|)
      ensures States(servers) == ProbedAll(p, c)
    {
    }

    /** The first loop of a health check: every connected server is probed once. */
    method ProbeServers(c: Probe) returns (healthy: array<bool>, report: HealthReport)
      requires Valid()
      modifies servers
      ensures fresh(healthy) && healthy.Length == |servers|
      ensures var p := old(Model());
        && States(servers) == ProbedAll(p, c)
        && (forall i :: 0 <= i < |p.servers| ==> healthy[i] == Survives(p, c, i))
        && report == ProbeReport(p, c, |p.servers|)
    {
      hide ProbedUpTo, ProbedAll, Survives, Distinct, ProbeReport, Wf;
      ghost var p := Model();
      NothingProbed(p, c);
      healthy := new bool[|servers|];
      report := HealthReport(0, [], [], "", "");
      for idx := 0 to |servers|
        invariant ProbedUpTo(p, c, idx) && report == ProbeReport(p, c, idx)
        invariant forall i :: 0 <= i < idx ==> healthy[i] == Survives(p, c, i)
      {
        healthy[idx], report := ProbeServer(p, idx, c, report);
      }
      AllProbed(p, c);
    }

    /** One step of that loop: a disconnected server is left alone. */
    method ProbeServer(ghost p: Pool, idx: nat, c: Probe, soFar: HealthReport) returns (ok: bool, report: HealthReport)
      requires Distinct(servers) && Wf(p) && idx < |servers| == |p.servers|
      requires ProbedUpTo(p, c, idx) && soFar == ProbeReport(p, c, idx)
      modifies servers[idx]
      ensures ok == Survives(p, c, idx)
      ensures ProbedUpTo(p, c, idx + 1) && report == ProbeReport(p, c, idx + 1)
    {
      ProbeReportStep(p, c, idx);
      var client := servers[idx];
      assert client.State() == p.servers[idx];
      hide ProbeReport;
      ok, report := ProbeClient(client, c.alive(idx), soFar);
      assert client.State() == ProbedAll(p, c)[idx];
    }

    /** The body of that loop. Nothing recovers: a connected client is always healthy before its probe. */
    static method ProbeClient(client: SSHClient, alive: bool, soFar: HealthReport)
      returns (ok: bool, report: HealthReport)
      requires client.healthy == client.connected
      modifies client
      ensures client.State() == ProbedOne(old(client.State()), alive)
      ensures ok == (old(client.connected) && alive)
      ensures report == soFar.(
        checked := soFar.checked + (if old(client.connected) then 1 else 0),
        failed := soFar.failed + (if old(client.connected) && !alive then [client.addr] else []))
    {
      report := soFar;
      var sent := client.IsConnected();
      if !sent {
        return false, report;
      }
      report := report.(checked := report.checked + 1);
      var wasHealthy := client.healthy;
      ok := client.HealthCheck(alive);
      var addr := client.addr;
      if !ok {
        if wasHealthy {
          report := report.(failed := report.failed + [addr]);
        }
        return;
      }
      if !wasHealthy {
        report := report.(recovered := report.recovered + [addr]);
      }
    }

    method RunHealthChecks(c: Probe) returns (report: HealthReport)
      requires Valid()
      modifies this`activeIdx, this`hasActive, servers
      ensures Valid()
      ensures Model() == HealthCheck(old(Model()), c)
      ensures report == HealthCheckReport(old(Model()), c)
    {
      ghost var p := Model();
      HealthCheckKeepsWf(p, c);
      if |servers| == 0 {
        return HealthReport(0, [], [], "", "");
      }
      ActiveAnswered(p, c);
      ActiveInRange(p);
      hide Wf, HealthCheck, HealthCheckReport, ProbedAll, Survives, ProbeReport;
      var healthy;
      healthy, report := ProbeServers(c);
      if strategy != Failover {
        return;
      }
      if hasActive && activeIdx < healthy.Length && healthy[activeIdx] {
        return;
      }
      report := SwitchActive(p, c, healthy, report);
    }

    /** The failover part of a health check, when the active server did not answer or none is active. */
    method SwitchActive(ghost p: Pool, c: Probe, healthy: array<bool>, soFar: HealthReport)
      returns (report: HealthReport)
      requires Distinct(servers) && Wf(p) && p.strategy == Failover && p.servers != []
      requires Model() == p.(servers := ProbedAll(p, c)) && soFar == ProbeReport(p, c, |p.servers|)
      requires !(p.hasActive && Survives(p, c, p.activeIdx))
      requires healthy.Length == |servers|
      requires forall i :: 0 <= i < |p.servers| ==> healthy[i] == Survives(p, c, i)
      modifies this`activeIdx, this`hasActive, servers
      ensures Model() == HealthCheck(p, c)
      ensures report == HealthCheckReport(p, c)
    {
      hide HealthCheck, HealthCheckReport, ProbedAll, Survives, ProbeReport, Wf, Distinct;
      ActiveInRange(p);
      NoSwitchYet(p, c);
      AddressesStay(p, c);
      report := soFar;
      if hasActive && activeIdx < |servers| {
        report := report.(switchedFrom := servers[activeIdx].addr);
      }
      var answering := FirstHealthy(healthy);
      assert answering == FirstSurvivor(p, c);
      if answering < |servers| {
        SurvivorTakesOver(p, c);
        activeIdx := answering;
        hasActive := true;
        report := report.(switchedTo := servers[answering].addr);
        return;
      }
      report := DialReplacement(p, c, report);
    }

    /** The end of a health check when no server answered. */
    method DialReplacement(ghost p: Pool, c: Probe, soFar: HealthReport) returns (report: HealthReport)
      requires Distinct(servers) && Wf(p) && p.strategy == Failover && p.servers != []
      requires Model() == p.(servers := ProbedAll(p, c)) && FirstSurvivor(p, c) == |p.servers|
      requires soFar == ProbeReport(p, c, |p.servers|).(switchedFrom := ActiveAddr(p))
      modifies this`activeIdx, this`hasActive, servers
      ensures Model() == HealthCheck(p, c)
      ensures report == HealthCheckReport(p, c)
    {
      hide HealthCheck, HealthCheckReport, ProbedAll, ProbeReport, Reconnected, Wf, Distinct;
      NoSurvivor(p, c);
      AddressesStay(p, c);
      report := soFar;
      var dialled := DialUntilConnected(p, c);
      if dialled < |servers| {
        activeIdx := dialled;
        hasActive := true;
        report := report.(switchedTo := servers[dialled].addr);
        return;
      }
      activeIdx := 0;
      hasActive := false;
    }

    lemma AddressesStay(p: Pool, c: Probe)
      requires States(servers) == ProbedAll(p, c)
      ensures forall i :: 0 <= i < |servers| ==> servers[i].addr == p.servers[i].addr
    {
      assert forall i :: 0 <= i < |servers| ==> servers[i].State() == ProbedAll(p, c)[i];
    }

    method FirstHealthy(healthy: array<bool>) returns (first: nat)
      ensures first <= healthy.Length
      ensures forall i :: 0 <= i < first ==> !healthy[i]
      ensures first < healthy.Length ==> healthy[first]
    {
      for idx := 0 to healthy.Length
        invariant forall i :: 0 <= i < idx ==> !healthy[i]
      {
        if healthy[idx] {
          return idx;
        }
      }
      return healthy.Length;
    }

    /** The last loop of a health check: servers are dialled in order until one connects. */
    method DialUntilConnected(ghost p: Pool, c: Probe) returns (dialled: nat)
      requires Distinct(servers) && States(servers) == ProbedAll(p, c)
      requires Wf(p) && forall i :: 0 <= i < |p.servers| ==> !Survives(p, c, i)
      modifies servers
      ensures dialled == FirstDialled(|p.servers|, c.dial)
      ensures States(servers) ==
        if dialled < |p.servers| then ProbedAll(p, c)[dialled := Reconnected(ProbedAll(p, c)[dialled], true)]
        else ProbedAll(p, c)
    {
      for idx := 0 to |servers|
        invariant States(servers) == ProbedAll(p, c)
        invariant forall i :: 0 <= i < idx ==> !c.dial(i)
      {
        assert servers[idx].State() == ProbedOne(p.servers[idx], c.alive(idx));
        assert !Survives(p, c, idx);
        var ok := servers[idx].EnsureConnected(c.dial(idx));
        if ok {
          return idx;
        }
        assert servers[idx].State() == ProbedAll(p, c)[idx];
      }
      return |servers|;
    }

    // ---------- membership ----------

    method Remove(client: SSHClient)
      requires Valid()
      modifies this`servers, this`activeIdx, this`hasActive, client
      ensures Valid()
      ensures client !in old(servers) ==> Model() == old(Model()) && servers == old(servers)
      ensures client in old(servers) ==>
        exists i :: 0 <= i < |old(servers)| && old(servers[i]) == client
          && servers == old(servers[..i]) + old(servers[i + 1..])
          && Model() == Removed(old(Model()), i)
      ensures client in old(servers) ==> client.State() == Closed(old(client.State()))
      ensures old(hasActive) && old(activeIdx) < |old(servers)| && old(servers[activeIdx]) != client ==>
        hasActive && activeIdx < |servers| && servers[activeIdx] == old(servers[activeIdx])
    {
      hide Wf, Removed;
      for i := 0 to |servers|
        invariant client !in servers[..i]
      {
        if servers[i] == client {
          RemoveAt(i);
          return;
        }
      }
    }

    /** The body of Remove's loop once the client is found. */
    method RemoveAt(i: nat)
      requires Valid() && i < |servers|
      modifies this`servers, this`activeIdx, this`hasActive, servers[i]
      ensures Valid()
      ensures servers == old(servers[..i]) + old(servers[i + 1..])
      ensures Model() == Removed(old(Model()), i)
      ensures old(servers[i]).State() == Closed(old(servers[i].State()))
      ensures old(hasActive) && old(activeIdx) != i ==>
        hasActive && activeIdx < |servers| && servers[activeIdx] == old(servers[activeIdx])
    {
      ghost var p := Model();
      hide Wf, Distinct, Closed;
      RemovalKeepsWf(p, i);
      ActiveInRange(p);
      Detach(i);
      if |servers| == 0 {
        hasActive := false;
        activeIdx := 0;
        return;
      }
      if hasActive {
        if i == activeIdx {
          hasActive := false;
          activeIdx := 0;
        } else if i < activeIdx {
          activeIdx := activeIdx - 1;
        }
      }
    }

    method Detach(i: nat)
      requires Distinct(servers) && i < |servers|
      modifies this`servers, servers[i]
      ensures Distinct(servers)
      ensures servers == old(servers[..i]) + old(servers[i + 1..])
      ensures States(servers) == old(States(servers)[..i]) + old(States(servers)[i + 1..])
      ensures old(servers[i]).State() == Closed(old(servers[i].State()))
    {
      DistinctWithout(servers, i);
      servers[i].Close();
      servers := servers[..i] + servers[i + 1..];
    }

    method CloseAll()
      requires Valid()
      modifies this`servers, this`activeIdx, this`hasActive, servers
      ensures Valid()
      ensures servers == [] && Model() == Emptied(old(Model()))
      ensures States(old(servers)) == ClosedAll(old(States(servers)))
    {
      CloseServers();
      ghost var closed := servers;
      servers := [];
      hasActive := false;
      activeIdx := 0;
      assert forall i :: 0 <= i < |closed| ==> States(closed)[i] == closed[i].State();
    }

    method CloseServers()
      requires Distinct(servers)
      modifies servers
      ensures States(servers) == ClosedAll(old(States(servers)))
    {
      ghost var before := States(servers);
      for i := 0 to |servers|
        invariant forall j :: 0 <= j < |servers| ==>
          servers[j].State() == if j < i then Closed(before[j]) else before[j]
      {
        servers[i].Close();
      }
    }

    // ---------- the failure table ----------

    method ReportTargetFailure(client: SSHClient?, target: string, threshold: int, ttl: int, now: nat)
      requires Valid()
      modifies this`targetFailures
      ensures Valid()
      ensures Model() == if client == null then old(Model())
        else TargetFailed(old(Model()), client.addr, target, threshold, ttl, now)
    {
      if client == null || target == "" {
        return;
      }
      var limit, duration := threshold, ttl;
      if limit <= 0 {
        limit := 1;
      }
      if duration <= 0 {
        duration := DEFAULT_TTL;
      }
      var key := Key(client.addr, target);
      var state := if key in targetFailures then targetFailures[key] else FailureState(0, ZERO_TIME);
      state := state.(failCount := state.failCount + 1);
      if state.failCount >= limit {
        state := state.(blockedUntil := now + duration);
      }
      targetFailures := targetFailures[key := state];
    }

    method ReportTargetSuccess(client: SSHClient?, target: string)
      requires Valid()
      modifies this`targetFailures
      ensures Valid()
      ensures Model() == if client == null then old(Model()) else TargetSucceeded(old(Model()), client.addr, target)
    {
      if client == null || target == "" {
        return;
      }
      targetFailures := targetFailures - {Key(client.addr, target)};
    }

    /** The keys are visited in no particular order. */
    method CleanupExpiredTargets(now: nat)
      requires Valid()
      modifies this`targetFailures
      ensures Valid()
      ensures Model() == CleanedUp(old(Model()), now)
    {
      ghost var t := targetFailures;
      var pending := targetFailures.Keys;
      while pending != {}
        invariant pending <= t.Keys
        invariant forall key :: key in targetFailures <==>
          key in t && (key in pending || !Before(t[key].blockedUntil, now))
        invariant forall key :: key in targetFailures ==> targetFailures[key] == t[key]
      {
        var key :| key in pending;
        if Before(targetFailures[key].blockedUntil, now) {
          targetFailures := targetFailures - {key};
        }
        pending := pending - {key};
      }
      assert targetFailures == AfterCleanup(t, now);
    }
  }
}
