/** How the pool is filled at startup, and the state from which every run begins. */
module Startup {
  import opened Basics
  import opened Addresses
  import opened Selector
  import opened RoundRobins
  import opened Protocol
  import opened ProtocolLaws
  import opened Programs

  /** How many of the first `m` servers can be connected to. */
  function Connectable(dial: nat -> bool, m: nat): nat {
    if m == 0 then 0 else Connectable(dial, m - 1) + (if dial(m - 1) then 1 else 0)
  }

  /** Failover starts with one connection, loadbalance with as many as the option says. */
  function EagerLimit(strategy: Strategy, maxActive: int): nat {
    if strategy == Failover then 1 else if maxActive < 0 then 0 else maxActive
  }

  /** Server `i` is among the first `limit` connectable servers in file order. */
  predicate AmongFirst(dial: nat -> bool, limit: nat, i: nat) {
    dial(i) && Connectable(dial, i) < limit
  }

  function StartupServer(addr: string, connected: bool): Upstream {
    Upstream(addr, connected, connected, 0, 0, 0)
  }

  /** One upstream per line of the servers file, in its order; exactly the first connectable ones are connected. */
  function StartupPool(addrs: seq<string>, strategy: Strategy, maxActive: int, dial: nat -> bool): (p: Pool)
    ensures |p.servers| == |addrs|
    ensures forall i :: 0 <= i < |addrs| ==>
      p.servers[i] == StartupServer(addrs[i], AmongFirst(dial, EagerLimit(strategy, maxActive), i))
  {
    Pool(seq(|addrs|, i requires 0 <= i < |addrs| =>
           StartupServer(addrs[i], AmongFirst(dial, EagerLimit(strategy, maxActive), i))),
         0, strategy, if maxActive <= 0 then 1 else maxActive, 0, false, map[])
  }

  /** Addresses recorded as failed: those dialled before the limit was reached, in order. */
  function FailedAtStartup(addrs: seq<string>, limit: nat, dial: nat -> bool, m: nat): seq<string>
    requires m <= |addrs|
  {
    if m == 0 then []
    else
      var dialled := Connectable(dial, m - 1) < limit;
      FailedAtStartup(addrs, limit, dial, m - 1) + (if dialled && !dial(m - 1) then [addrs[m - 1]] else [])
  }

  function Least(a: nat, b: nat): nat {
    if a < b then a else b
  }

  /** How the loop's counter, the failures and the connected servers follow from one another. */
  lemma EagerStep(addrs: seq<string>, limit: nat, dial: nat -> bool, i: nat)
    requires i < |addrs|
    ensures var eager := Least(Connectable(dial, i), limit) < limit;
      && AmongFirst(dial, limit, i) == (eager && dial(i))
      && Least(Connectable(dial, i + 1), limit)
           == Least(Connectable(dial, i), limit) + (if eager && dial(i) then 1 else 0)
      && FailedAtStartup(addrs, limit, dial, i + 1)
           == FailedAtStartup(addrs, limit, dial, i) + (if eager && !dial(i) then [addrs[i]] else [])
  {
  }

  /** One line of the file: an eager server that connects, or else a lazy one, goes last. */
  method Register(rr: RoundRobin, addr: string, eager: bool, dialled: bool)
    returns (client: SSHClient, failed: seq<string>)
    requires rr.Valid()
    modifies rr
    ensures rr.Valid() && fresh(client) && rr.servers == old(rr.servers) + [client]
    ensures rr.Model() == Added(old(rr.Model()), StartupServer(addr, eager && dialled))
    ensures client.connected == (eager && dialled)
    ensures failed == if eager && !dialled then [addr] else []
  {
    failed := [];
    if eager && dialled {
      client := new SSHClient.Connected(addr);
    } else {
      if eager {
        failed := [addr];
      }
      client := new SSHClient.Lazy(addr);
    }
    assert client !in rr.servers;
    rr.Add(client);
  }

  /** One more server: the pool grows by the one that belongs there. */
  lemma OneMoreStarted(addrs: seq<string>, strategy: Strategy, maxActive: int, dial: nat -> bool, i: nat)
    requires i < |addrs|
    ensures var goal, limit := StartupPool(addrs, strategy, maxActive, dial), EagerLimit(strategy, maxActive);
      goal.(servers := goal.servers[..i + 1])
        == Added(goal.(servers := goal.servers[..i]), StartupServer(addrs[i], AmongFirst(dial, limit, i)))
  {
    PrefixGrows(StartupPool(addrs, strategy, maxActive, dial).servers, i);
  }

  lemma NothingStarted(addrs: seq<string>, strategy: Strategy, maxActive: int, dial: nat -> bool)
    ensures var eager := if strategy == Failover then 1 else maxActive;
      var goal := StartupPool(addrs, strategy, maxActive, dial);
      && EagerLimit(strategy, maxActive) == (if eager < 0 then 0 else eager)
      && Least(Connectable(dial, 0), EagerLimit(strategy, maxActive)) == 0
      && FailedAtStartup(addrs, EagerLimit(strategy, maxActive), dial, 0) == []
      && goal.(servers := goal.servers[..0])
           == Pool([], 0, strategy, if maxActive <= 0 then 1 else maxActive, 0, false, map[])
  {
  }

  /** connectServers: null is the fatal exit for an empty servers file. */
  method ConnectServers(addrs: seq<string>, strategy: Strategy, maxActive: int, dial: nat -> bool)
    returns (rr: RoundRobin?, failed: seq<string>)
    ensures rr == null <==> addrs == []
    ensures rr != null ==>
      && fresh(rr) && fresh(rr.servers) && rr.Valid()
      && rr.Model() == StartupPool(addrs, strategy, maxActive, dial)
      && failed == FailedAtStartup(addrs, EagerLimit(strategy, maxActive), dial, |addrs|)
  {
    hide Distinct, StartupPool, EagerLimit, StartupServer, AmongFirst, Connectable, Least, FailedAtStartup, Added, Wf,
      RoundRobin.Valid, RoundRobin.Model, States;
    if |addrs| == 0 {
      return null, [];
    }
    NothingStarted(addrs, strategy, maxActive, dial);
    rr := new RoundRobin(strategy, maxActive);
    var eagerLimit := maxActive;
    if strategy == Failover {
      eagerLimit := 1;
    }
    var connected := 0;
    failed := [];
    ghost var limit := EagerLimit(strategy, maxActive);
    ghost var goal := StartupPool(addrs, strategy, maxActive, dial);
    for i := 0 to |addrs|
      invariant fresh(rr) && fresh(rr.servers) && rr.Valid()
      invariant rr.Model() == goal.(servers := goal.servers[..i])
      invariant connected == Least(Connectable(dial, i), limit)
      invariant failed == FailedAtStartup(addrs, limit, dial, i)
    {
      var client, more := Register(rr, addrs[i], connected < eagerLimit, dial(i));
      if client.connected {
        connected := connected + 1;
      }
      failed := failed + more;
      EagerStep(addrs, limit, dial, i);
      OneMoreStarted(addrs, strategy, maxActive, dial, i);
    }
    assert goal.servers[..|addrs|] == goal.servers;
  }

  /** The number of connections after startup: the limit, or all that can be connected to. */
  lemma {:induction false} StartupConnections(addrs: seq<string>, strategy: Strategy, maxActive: int,
                                              dial: nat -> bool, m: nat)
    requires m <= |addrs|
    ensures ConnectedCount(StartupPool(addrs, strategy, maxActive, dial).servers[..m])
      == Least(Connectable(dial, m), EagerLimit(strategy, maxActive))
  {
    if m > 0 {
      StartupConnections(addrs, strategy, maxActive, dial, m - 1);
      var us := StartupPool(addrs, strategy, maxActive, dial).servers;
      assert us[..m][..m - 1] == us[..m - 1];
    }
  }

  /**
   What startup does with server `i`: it is dialled while fewer connections are up than failover's
   one or loadbalance's option, and connected exactly if that dial succeeds.
   */
  lemma StartupConnectsFirst(addrs: seq<string>, strategy: Strategy, maxActive: int, dial: nat -> bool, i: nat)
    requires i < |addrs|
    ensures var us := StartupPool(addrs, strategy, maxActive, dial).servers;
      && us[i].addr == addrs[i] && us[i].healthy == us[i].connected
      && us[i].selected == us[i].reconnects == us[i].checks == 0
      && us[i].connected
           == (dial(i) && ConnectedCount(us[..i]) < if strategy == Failover then 1 else maxActive)
  {
    StartupConnections(addrs, strategy, maxActive, dial, i);
  }

  /** The pool starts with nothing active, its counter at 0, no failures, and a cap of at least one. */
  lemma StartupLeavesRest(addrs: seq<string>, strategy: Strategy, maxActive: int, dial: nat -> bool)
    ensures var p := StartupPool(addrs, strategy, maxActive, dial);
      && p.index == 0 && !p.hasActive && p.failures == map[] && p.strategy == strategy
      && p.maxActive == (if maxActive > 0 then maxActive else 1)
  {
  }

  /** The failures recorded at startup are exactly the dials that failed, in file order. */
  lemma {:induction false} RecordedAtStartup(addrs: seq<string>, strategy: Strategy, maxActive: int, dial: nat -> bool,
                                             m: nat)
    returns (js: seq<nat>)
    requires m <= |addrs|
    ensures Increasing(js)
    ensures forall j: nat :: j in js <==> j < m && !dial(j) && DialledAtStartup(addrs, strategy, maxActive, dial, j)
    ensures |js| == |FailedAtStartup(addrs, EagerLimit(strategy, maxActive), dial, m)|
    ensures forall x :: 0 <= x < |js| ==>
      js[x] < m && FailedAtStartup(addrs, EagerLimit(strategy, maxActive), dial, m)[x] == addrs[js[x]]
  {
    hide DialledAtStartup, EagerLimit, Connectable, Increasing;
    js := NoPlaces();
    if m > 0 {
      js := RecordedAtStartup(addrs, strategy, maxActive, dial, m - 1);
      DialledWhile(addrs, strategy, maxActive, dial, m - 1);
      if DialledAtStartup(addrs, strategy, maxActive, dial, m - 1) && !dial(m - 1) {
        OneMorePlace(js, m - 1);
        js := js + [m - 1];
      }
    }
  }

  /** Fewer connections are up before server `j` than failover's one or loadbalance's option. */
  predicate DialledAtStartup(addrs: seq<string>, strategy: Strategy, maxActive: int, dial: nat -> bool, j: nat) {
    j < |addrs| && ConnectedCount(StartupPool(addrs, strategy, maxActive, dial).servers[..j])
      < if strategy == Failover then 1 else maxActive
  }

  lemma DialledWhile(addrs: seq<string>, strategy: Strategy, maxActive: int, dial: nat -> bool, j: nat)
    requires j < |addrs|
    ensures DialledAtStartup(addrs, strategy, maxActive, dial, j)
      <==> Connectable(dial, j) < EagerLimit(strategy, maxActive)
  {
    StartupConnections(addrs, strategy, maxActive, dial, j);
  }

  function StartState(addrs: seq<string>, strategy: Strategy, maxActive: int, dial: nat -> bool, clock: nat): State {
    State(StartupPool(addrs, strategy, maxActive, dial), [], map[], clock, 0, 0)
  }

  lemma StartupIsInitial(addrs: seq<string>, strategy: Strategy, maxActive: int, dial: nat -> bool, clock: nat)
    ensures Initial(StartState(addrs, strategy, maxActive, dial, clock))
  {
    StartupConnections(addrs, strategy, maxActive, dial, |addrs|);
    var p := StartupPool(addrs, strategy, maxActive, dial);
    assert p.servers[..|addrs|] == p.servers;
    assert Wf(p);
  }

  /** Every server can be connected to. */
  const ALL_DIAL: nat -> bool := (_: nat) => true

  /** The state in which a run begins, with this servers file and these dial outcomes at startup. */
  function FileStart(lines: seq<string>, strategy: Strategy, maxActive: int, dial: nat -> bool, clock: nat): State {
    StartState(FileAddrs(lines), strategy, maxActive, dial, clock)
  }

  /** The upstream addresses of the servers file, or None if the program refuses it. */
  method ReadServers(lines: seq<string>, o: Options) returns (addrs: Option<seq<string>>)
    ensures addrs == if Accepted(lines, o) then Some(FileAddrs(lines)) else None
  {
    var parsed := ParseServersFile(lines, o);
    return if parsed.Servers? && parsed.servers != [] then Some(ServerAddrs(parsed.servers)) else None;
  }

  ghost predicate Accepted(lines: seq<string>, o: Options) {
    Acceptable(lines, o) && FileAddrs(lines) != [] && !(o.forceCloudflared && o.proxyCommand == "")
  }

  /** The program, started from its servers file; null is a fatal exit. */
  method StartProgram(lines: seq<string>, o: Options, strategy: Strategy, maxActive: int, dial: nat -> bool,
                      cfg: Config, clock: nat)
    returns (prog: Program?, failed: seq<string>)
    ensures prog != null <==> Accepted(lines, o)
    ensures prog != null ==>
      && fresh(prog) && fresh(prog.rr) && fresh(prog.clients) && prog.Valid()
      && prog.cfg == cfg && prog.run == []
      && prog.state == prog.start == FileStart(lines, strategy, maxActive, dial, clock)
  {
    StartupIsInitial(FileAddrs(lines), strategy, maxActive, dial, clock);
    hide Wf, Distinct, Initial, StartupPool, EagerLimit, FailedAtStartup, FileAddrs, Final, HoldersHaveClients;
    var addrs := ReadServers(lines, o);
    if addrs == None {
      return null, [];
    }
    var rr;
    rr, failed := ConnectServers(addrs.value, strategy, maxActive, dial);
    prog := new Program(rr, cfg, clock);
  }

  /**
   The cap on simultaneous connections: from startup on, across selections, failed reconnects,
   health checks, removals and shutdown, loadbalance has at most maxActive connected upstreams.
   */
  lemma CapHoldsFromStartup(addrs: seq<string>, maxActive: int, dial: nat -> bool, clock: nat,
                            cfg: Config, run: seq<Step>)
    requires maxActive > 0 && Possible(cfg, StartState(addrs, LoadBalance, maxActive, dial, clock), run)
    ensures var p := Final(cfg, StartState(addrs, LoadBalance, maxActive, dial, clock), run).value.pool;
      ConnectedCount(p.servers) <= maxActive && !p.hasActive
  {
    var s := StartState(addrs, LoadBalance, maxActive, dial, clock);
    StartupIsInitial(addrs, LoadBalance, maxActive, dial, clock);
    RunKeepsInv(cfg, s, run);
    OptionsStay(cfg, s, run);
  }

  lemma StepKeepsOptions(cfg: Config, s: State, e: Step)
    requires Enabled(cfg, s, e)
    ensures var p := After(cfg, s, e).pool; p.strategy == s.pool.strategy && p.maxActive == s.pool.maxActive
  {
  }

  lemma {:induction false} OptionsStay(cfg: Config, s: State, run: seq<Step>)
    requires Possible(cfg, s, run)
    ensures var p := Final(cfg, s, run).value.pool;
      p.strategy == s.pool.strategy && p.maxActive == s.pool.maxActive
  {
    if run != [] {
      hide After, Enabled;
      OptionsStay(cfg, s, run[..|run| - 1]);
      StepKeepsOptions(cfg, Final(cfg, s, run[..|run| - 1]).value, run[|run| - 1]);
    }
  }
}
