/**
 The running program: the selector object and its clients, the handlers with the client each
 one holds, and the run of the protocol that they have made so far.
 */
module Programs {
  import opened Basics
  import opened Selector
  import opened RoundRobins
  import opened Protocol
  import opened ProtocolLaws

  // ---------- which clients are in the pool ----------

  /** Each of these clients is in the pool or has left it, once. */
  ghost predicate Partition(servers: seq<SSHClient>, retired: seq<SSHClient>, clients: set<SSHClient>) {
    Distinct(servers + retired) && clients == set c | c in servers + retired
  }

  ghost predicate Apart<T>(ys: seq<T>, xs: seq<T>) {
    forall j :: 0 <= j < |ys| ==> ys[j] !in xs
  }

  lemma DistinctParts<T>(xs: seq<T>, ys: seq<T>)
    requires Distinct(xs + ys)
    ensures Apart(ys, xs)
  {
    forall i, j | 0 <= i < |xs| && 0 <= j < |ys| ensures xs[i] != ys[j] {
      assert (xs + ys)[i] == xs[i] && (xs + ys)[|xs| + j] == ys[j];
    }
  }

  lemma PartitionFacts(servers: seq<SSHClient>, retired: seq<SSHClient>, clients: set<SSHClient>)
    requires Partition(servers, retired, clients)
    ensures Apart(retired, servers) && forall c :: c in retired ==> c in clients
    ensures forall c :: c in servers ==> c in clients
    ensures forall c :: c in clients && c !in servers ==> c in retired
  {
    DistinctParts(servers, retired);
  }

  /** The elements of a list without repeats, in another order. */
  lemma DistinctAlong<T>(was: seq<T>, now: seq<T>, at: seq<nat>)
    requires Distinct(was) && Distinct(at) && |at| == |now|
    requires forall j :: 0 <= j < |now| ==> at[j] < |was| && now[j] == was[at[j]]
    ensures Distinct(now)
  {
    forall i, j | 0 <= i < j < |now| ensures now[i] != now[j] {
      assert at[i] != at[j];
    }
  }

  lemma DistinctWithoutOne<T>(xs: seq<T>, ys: seq<T>, i: nat)
    requires Distinct(xs + ys) && i < |xs|
    ensures Distinct(xs[..i] + xs[i + 1..] + (ys + [xs[i]]))
  {
    var n := |xs + ys|;
    var at := seq(n, j requires 0 <= j => if j < i then j else if j < n - 1 then j + 1 else i);
    DistinctAlong(xs + ys, xs[..i] + xs[i + 1..] + (ys + [xs[i]]), at);
  }

  lemma DistinctSwapped<T>(xs: seq<T>, ys: seq<T>)
    requires Distinct(xs + ys)
    ensures Distinct(ys + xs)
  {
    var at := seq(|xs + ys|, j requires 0 <= j => if j < |ys| then |xs| + j else j - |ys|);
    DistinctAlong(xs + ys, ys + xs, at);
  }

  lemma DistinctMoved<T>(xs: seq<T>, ys: seq<T>, e: Step)
    requires Distinct(xs + ys)
    ensures Distinct(Kept(xs, e) + (ys + Gone(xs, e)))
  {
    hide Distinct;
    if e.RemoveServer? && e.i < |xs| {
      DistinctWithoutOne(xs, ys, e.i);
    } else if e.Shutdown? {
      DistinctSwapped(xs, ys);
      assert [] + (ys + xs) == ys + xs;
    } else {
      assert xs + (ys + []) == xs + ys;
    }
  }

  lemma PartitionMoves(servers: seq<SSHClient>, retired: seq<SSHClient>, clients: set<SSHClient>, e: Step)
    requires Partition(servers, retired, clients)
    ensures Partition(Kept(servers, e), retired + Gone(servers, e), clients)
  {
    DistinctMoved(servers, retired, e);
    assert forall c :: c in servers ==> c in Kept(servers, e) || c in Gone(servers, e) by {
      if e.RemoveServer? && e.i < |servers| {
        assert servers == servers[..e.i] + [servers[e.i]] + servers[e.i + 1..];
      }
    }
  }

  // ---------- the handlers' clients ----------

  ghost predicate HoldersHaveClients(s: State, held: map<nat, SSHClient>, clients: set<SSHClient>) {
    forall id :: Holds(s, id) ==>
      id in held && held[id] in clients && s.handlers[id].phase == Holding(held[id].addr)
  }

  class Program {
    const cfg: Config
    const rr: RoundRobin
    var state: State
    var held: map<nat, SSHClient>            // the client variable of each handler
    ghost const start: State
    ghost const clients: set<SSHClient>      // all clients the pool ever had
    ghost var retired: seq<SSHClient>        // those that left it
    ghost var run: seq<Step>

    /**
     The selector object is in the state that the run leads to, the clients that left the pool
     are the retired ones of that state, and each handler that holds a selection has a client
     with that address.
     */
    ghost predicate Valid()
      reads this, rr, rr.servers, retired
    {
      && rr.Valid()
      && Partition(rr.servers, retired, clients)
      && state.pool == rr.Model()
      && state.retired == States(retired)
      && Initial(start)
      && Final(cfg, start, run) == Some(state)
      && HoldersHaveClients(state, held, clients)
    }

    constructor (rr: RoundRobin, cfg: Config, clock: nat)
      requires rr.Valid() && Initial(State(rr.Model(), [], map[], clock, 0, 0))
      ensures Valid() && run == [] && this.rr == rr && this.cfg == cfg
      ensures state == start == State(rr.Model(), [], map[], clock, 0, 0)
      ensures clients == set c | c in rr.servers
    {
      this.rr, this.cfg, held := rr, cfg, map[];
      state := State(rr.Model(), [], map[], clock, 0, 0);
      start := State(rr.Model(), [], map[], clock, 0, 0);
      clients := set c | c in rr.servers;
      run, retired := [], [];
      assert rr.servers + [] == rr.servers;
    }

    /** What holds in every state of every run holds of the selector object and of its clients at any time. */
    lemma SelectorKeepsInv()
      requires Valid()
      ensures Inv(cfg, state)
      ensures rr.strategy == LoadBalance ==> ConnectedCount(States(rr.servers)) <= rr.maxActive
      ensures forall c :: c in clients ==> c in rr.servers || !c.connected
      ensures SameCount(Total(States(rr.servers), SELECTED) + Total(States(retired), SELECTED),
                        state.successes + state.failures + |AllHolders(state)|)
    {
      hide Wf, Final, Initial, HoldersHaveClients, Partition, Total, SameCount;
      PartitionFacts(rr.servers, retired, clients);
      RunKeepsInv(cfg, start, run);
      assert forall i :: 0 <= i < |retired| ==> retired[i].connected == state.retired[i].connected;
    }

    /** The run goes on by one step. */
    method Advance(e: Step)
      requires Final(cfg, start, run) == Some(state) && Enabled(cfg, state, e)
      modifies this`state, this`run
      ensures state == After(cfg, old(state), e) && run == old(run) + [e]
      ensures Final(cfg, start, run) == Some(state)
    {
      RunGrows(cfg, start, run, state, e);
      state := After(cfg, state, e);
      run := run + [e];
    }

    /** A step that the handler makes alone. */
    method Control(e: Step)
      requires Valid() && Enabled(cfg, state, e)
      requires e.Accept? || e.Abandon? || e.Begin? || e.GiveUp? || e.Release?
      modifies this
      ensures Valid() && held == old(held)
      ensures state == After(cfg, old(state), e) && run == old(run) + [e]
    {
      hide Wf, Final, After, Initial, Enabled, HoldersHaveClients, Partition;
      HoldersKept(cfg, state, e, held, clients);
      ControlLeavesPool(cfg, state, e);
      Advance(e);
    }

    /** The selector's part of a selection. */
    method Pick(q: Query) returns (client: SSHClient?)
      requires rr.Valid() && Apart(retired, rr.servers)
      modifies rr, rr.servers
      ensures rr.Valid() && rr.servers == old(rr.servers) && States(retired) == old(States(retired))
      ensures rr.Model() == Select(old(rr.Model()), q).pool
      ensures client == null <==> Select(old(rr.Model()), q).chosen == None
      ensures client != null ==> var i := Select(old(rr.Model()), q).chosen.value;
        i < |rr.servers| && client == rr.servers[i] && client.addr == old(rr.Model()).servers[i].addr
    {
      hide Wf, Select, Distinct;
      var refused;
      client, refused := rr.GetForTarget(q);
      assert forall j :: 0 <= j < |retired| ==> retired[j].State() == old(retired[j].State());
    }

    /** The handler's part: it holds the client it got. */
    method Hold(e: Step, client: SSHClient?)
      requires Final(cfg, start, run) == Some(state) && Enabled(cfg, state, e) && e.Choose?
      requires HoldersHaveClients(state, held, clients) && e.id in After(cfg, state, e).handlers
      requires After(cfg, state, e).handlers[e.id].phase == if client == null then Finished else Holding(client.addr)
      requires client != null ==> client in clients
      modifies this`state, this`run, this`held
      ensures Final(cfg, start, run) == Some(state) && HoldersHaveClients(state, held, clients)
      ensures state == After(cfg, old(state), e) && run == old(run) + [e]
      ensures held == if client == null then old(held) else old(held)[e.id := client]
    {
      hide Final, After, Enabled, HoldersHaveClients;
      if client == null {
        HoldersKept(cfg, state, e, held, clients);
      } else {
        HolderGained(cfg, state, e, held, clients, client);
        held := held[e.id := client];
      }
      Advance(e);
    }

    /** GetForTarget, called by a handler in its retry loop. */
    method GetForTarget(id: nat, target: string, excluded: set<string>, now: nat, dial: nat -> bool)
      returns (client: SSHClient?)
      requires Valid() && Enabled(cfg, state, Choose(id, now, dial))
      requires state.handlers[id].target == target && Elements(state.handlers[id].tried) == excluded
      modifies this, rr, clients
      ensures Valid() && rr.servers == old(rr.servers)
      ensures state == After(cfg, old(state), Choose(id, now, dial)) && run == old(run) + [Choose(id, now, dial)]
      ensures var chosen := Select(old(state).pool, Query(target, excluded, now, dial)).chosen;
        && (client == null <==> chosen == None)
        && (client != null ==> chosen.value < |rr.servers| && client == rr.servers[chosen.value] && client in clients)
      ensures held == if client == null then old(held) else old(held)[id := client]
    {
      hide Wf, Final, After, Select, Initial, Request, Distinct, Elements, Enabled, HoldersHaveClients, Partition,
        Apart, RoundRobin.Valid, States;
      PartitionFacts(rr.servers, retired, clients);
      ValidPool(rr);
      ChoiceLeaves(cfg, state, Choose(id, now, dial), target, excluded);
      client := Pick(Query(target, excluded, now, dial));
      Hold(Choose(id, now, dial), client);
    }

    /** A failure report, after which the handler goes on or is finished. */
    method ReportFailure(e: Step, client: SSHClient, target: string)
      requires Valid() && Enabled(cfg, state, e)
      requires e.Fail? || (e.EndTunnel? && e.suspicious)
      requires state.handlers[e.id].phase == Holding(client.addr) && state.handlers[e.id].target == target
      modifies this, rr
      ensures Valid() && rr.servers == old(rr.servers) && held == old(held)
      ensures state == After(cfg, old(state), e) && run == old(run) + [e]
    {
      hide Wf, Final, After, Initial, Distinct, Enabled, HoldersHaveClients, TargetFailed, Partition;
      FailureLeaves(cfg, state, e, client.addr, target);
      HoldersKept(cfg, state, e, held, clients);
      rr.ReportTargetFailure(client, target, cfg.threshold, cfg.ttl, e.now);
      Advance(e);
    }

    /** The report of a tunnel that went well. */
    method ReportSuccess(e: Step, client: SSHClient, target: string)
      requires Valid() && Enabled(cfg, state, e) && e.EndTunnel? && !e.suspicious
      requires state.handlers[e.id].phase == Holding(client.addr) && state.handlers[e.id].target == target
      modifies this, rr
      ensures Valid() && rr.servers == old(rr.servers) && held == old(held)
      ensures state == After(cfg, old(state), e) && run == old(run) + [e]
    {
      hide Wf, Final, After, Initial, Distinct, Enabled, HoldersHaveClients, TargetSucceeded, Partition;
      SuccessLeaves(cfg, state, e, client.addr, target);
      HoldersKept(cfg, state, e, held, clients);
      rr.ReportTargetSuccess(client, target);
      Advance(e);
    }

    /** The selector's part of a step of the health checker or of shutdown. */
    method MaintainSelector(e: Step)
      requires rr.Valid() && Apart(retired, rr.servers) && Actor(e) == None
      requires e.RemoveServer? ==> e.i < |rr.servers|
      modifies rr, rr.servers
      ensures rr.Valid() && States(retired) == old(States(retired))
      ensures rr.Model() == Maintained(old(rr.Model()), e)
      ensures rr.servers == Kept(old(rr.servers), e)
      ensures States(Gone(old(rr.servers), e)) == ClosedAll(Gone(old(rr.Model().servers), e))
    {
      hide Wf, HealthCheck, HealthCheckReport, Removed, Emptied;
      match e {
        case CheckHealth(probe) =>
          var report := rr.RunHealthChecks(probe);
        case CleanUp(now) =>
          rr.CleanupExpiredTargets(now);
        case RemoveServer(i) =>
          RemoveServerAt(i);
        case Shutdown =>
          rr.CloseAll();
      }
      assert forall j :: 0 <= j < |retired| ==> retired[j].State() == old(retired[j].State());
    }

    method RemoveServerAt(i: nat)
      requires rr.Valid() && i < |rr.servers|
      modifies rr, rr.servers
      ensures rr.Valid()
      ensures rr.Model() == Removed(old(rr.Model()), i)
      ensures rr.servers == old(rr.servers[..i]) + old(rr.servers[i + 1..])
      ensures old(rr.servers[i]).State() == Closed(old(rr.servers[i].State()))
    {
      hide Wf, Removed, Closed;
      rr.Remove(rr.servers[i]);
    }

    /** A step of the health checker or of shutdown. */
    method Maintain(e: Step)
      requires Valid() && Enabled(cfg, state, e) && Actor(e) == None
      modifies this, rr, clients
      ensures Valid() && held == old(held)
      ensures state == After(cfg, old(state), e) && run == old(run) + [e]
      ensures rr.servers == Kept(old(rr.servers), e)
    {
      hide Wf, Final, After, Initial, Distinct, Enabled, HoldersHaveClients, Maintained, Partition, Apart, Kept, Gone,
        ClosedAll;
      MaintenanceLeaves(cfg, state, e);
      HoldersKept(cfg, state, e, held, clients);
      PartitionFacts(rr.servers, retired, clients);
      PartitionMoves(rr.servers, retired, clients, e);
      ghost var gone := Gone(rr.servers, e);
      MaintainSelector(e);
      assert States(retired + gone) == States(retired) + States(gone);
      retired := retired + gone;
      Advance(e);
    }

    /** Any step of the protocol, made on the selector. */
    method Perform(e: Step)
      requires Valid() && Enabled(cfg, state, e)
      modifies this, rr, clients
      ensures Valid()
      ensures state == After(cfg, old(state), e) && run == old(run) + [e]
      ensures rr.servers == Kept(old(rr.servers), e)
    {
      hide Wf, Final, After, Initial, Distinct, Select, Partition;
      if Actor(e) == None {
        Maintain(e);
      } else if e.Choose? {
        var h := state.handlers[e.id];
        var client := GetForTarget(e.id, h.target, Elements(h.tried), e.now, e.dial);
      } else if e.EndTunnel? && !e.suspicious {
        ReportSuccess(e, held[e.id], state.handlers[e.id].target);
      } else if e.Fail? || e.EndTunnel? {
        ReportFailure(e, held[e.id], state.handlers[e.id].target);
      } else {
        Control(e);
      }
    }
  }

  // ---------- what the steps leave, as the methods need it ----------

  /** What the steps of the health checker and of shutdown leave of the pool. */
  function Maintained(p: Pool, e: Step): Pool {
    match e
    case CheckHealth(probe) => HealthCheck(p, probe)
    case CleanUp(now) => CleanedUp(p, now)
    case RemoveServer(i) => if i < |p.servers| then Removed(p, i) else p
    case Shutdown => Emptied(p)
    case _ => p
  }

  lemma MaintenanceLeaves(cfg: Config, s: State, e: Step)
    requires Enabled(cfg, s, e) && Actor(e) == None
    ensures After(cfg, s, e).pool == Maintained(s.pool, e)
    ensures After(cfg, s, e).retired == s.retired + ClosedAll(Gone(s.pool.servers, e))
    ensures e.RemoveServer? ==> e.i < |s.pool.servers|
  {
  }

  /** A step makes its own handler a holder only by a selection, and leaves the other holders as they are. */
  lemma HoldersAfter(cfg: Config, s: State, e: Step)
    requires Enabled(cfg, s, e)
    ensures var t := After(cfg, s, e);
      forall id :: Holds(t, id) ==>
        (Holds(s, id) && t.handlers[id] == s.handlers[id]) || (e.Choose? && id == e.id)
  {
    OnlyTheActorChanges(cfg, s, e);
  }

  lemma HoldersKept(cfg: Config, s: State, e: Step, held: map<nat, SSHClient>, clients: set<SSHClient>)
    requires Enabled(cfg, s, e) && HoldersHaveClients(s, held, clients)
    requires e.Choose? ==> !Holds(After(cfg, s, e), e.id)
    ensures HoldersHaveClients(After(cfg, s, e), held, clients)
  {
    HoldersAfter(cfg, s, e);
  }

  lemma HolderGained(cfg: Config, s: State, e: Step, held: map<nat, SSHClient>, clients: set<SSHClient>,
                     client: SSHClient)
    requires Enabled(cfg, s, e) && HoldersHaveClients(s, held, clients) && e.Choose?
    requires After(cfg, s, e).handlers[e.id].phase == Holding(client.addr) && client in clients
    ensures HoldersHaveClients(After(cfg, s, e), held[e.id := client], clients)
  {
    HoldersAfter(cfg, s, e);
  }

  lemma FailureLeaves(cfg: Config, s: State, e: Step, up: string, target: string)
    requires Enabled(cfg, s, e) && (e.Fail? || (e.EndTunnel? && e.suspicious))
    requires s.handlers[e.id].phase == Holding(up) && s.handlers[e.id].target == target
    ensures After(cfg, s, e).pool == TargetFailed(s.pool, up, target, cfg.threshold, cfg.ttl, e.now)
    ensures After(cfg, s, e).retired == s.retired
  {
  }

  lemma SuccessLeaves(cfg: Config, s: State, e: Step, up: string, target: string)
    requires Enabled(cfg, s, e) && e.EndTunnel? && !e.suspicious
    requires s.handlers[e.id].phase == Holding(up) && s.handlers[e.id].target == target
    ensures After(cfg, s, e).pool == TargetSucceeded(s.pool, up, target)
    ensures After(cfg, s, e).retired == s.retired
  {
  }

  lemma ControlLeavesPool(cfg: Config, s: State, e: Step)
    requires Enabled(cfg, s, e)
    requires e.Accept? || e.Abandon? || e.Begin? || e.GiveUp? || e.Release?
    ensures After(cfg, s, e).pool == s.pool && After(cfg, s, e).retired == s.retired
  {
  }

  lemma ValidPool(rr: RoundRobin)
    requires rr.Valid()
    ensures Wf(rr.Model())
  {
  }

  lemma ChoiceLeaves(cfg: Config, s: State, e: Step, target: string, excluded: set<string>)
    requires Enabled(cfg, s, e) && e.Choose? && Wf(s.pool)
    requires s.handlers[e.id].target == target && Elements(s.handlers[e.id].tried) == excluded
    ensures var t, sel := After(cfg, s, e), Select(s.pool, Query(target, excluded, e.now, e.dial));
      && t.pool == sel.pool && t.retired == s.retired && e.id in t.handlers
      && (sel.chosen == None ==> t.handlers[e.id].phase == Finished)
      && (sel.chosen.Some? ==>
           && sel.chosen.value < |s.pool.servers|
           && t.handlers[e.id].phase == Holding(s.pool.servers[sel.chosen.value].addr))
  {
    ChoiceOutcome(s, e.id, e.now, e.dial);
  }
}
