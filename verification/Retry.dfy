/**
 One request on the running program: trying upstream after upstream, then the tunnel and the last
 report, while other goroutines make their own steps in between. The state it leads to is the one
 that the world's choices determine, and what it did is read off the run of the protocol.
 */
module Retry {
  import opened Basics
  import opened Addresses
  import opened FailureTable
  import opened Selector
  import opened SelectorLaws
  import opened RoundRobins
  import opened Protocol
  import opened ProtocolLaws
  import opened Programs
  import opened Requests

  lemma MineGrows(run: seq<Step>, e: Step, id: nat)
    ensures Mine(run + [e], id) == Mine(run, id) + (if Actor(e) == Some(id) then [Untimed(e)] else [])
  {
    assert (run + [e])[..|run|] == run;
  }

  // ---------- the other goroutines ----------

  /** A step of somebody else, if it can be made now. */
  method OtherStep(prog: Program, e: Step, me: nat)
    requires prog.Valid()
    modifies prog, prog.rr, prog.clients
    ensures prog.Valid() && Mine(prog.run, me) == old(Mine(prog.run, me))
    ensures prog.state == AfterOthers(prog.cfg, old(prog.state), [e], me)
    ensures prog.rr.servers == Left(prog.cfg, old(prog.state), [e], me, old(prog.rr.servers))
  {
    hide Program.Valid, Final, After, Enabled, Mine, AfterOthers, Left, Kept;
    OneOther(prog.cfg, prog.state, e, me, prog.rr.servers);
    MineGrows(prog.run, e, me);
    if Actor(e) != Some(me) && Enabled(prog.cfg, prog.state, e) {
      prog.Perform(e);
    }
  }

  /** Any number of steps of others, each as soon as it comes; none is a step of this handler. */
  method RunOthers(prog: Program, steps: seq<Step>, me: nat)
    requires prog.Valid()
    modifies prog, prog.rr, prog.clients
    ensures prog.Valid() && Mine(prog.run, me) == old(Mine(prog.run, me))
    ensures prog.state == AfterOthers(prog.cfg, old(prog.state), steps, me)
    ensures prog.rr.servers == Left(prog.cfg, old(prog.state), steps, me, old(prog.rr.servers))
  {
    hide Program.Valid, Mine, AfterOthers, Left;
    NoOthersYet(prog.cfg, prog.state, steps, me, prog.rr.servers);
    for k := 0 to |steps|
      invariant prog.Valid() && Mine(prog.run, me) == old(Mine(prog.run, me))
      invariant prog.state == AfterOthers(prog.cfg, old(prog.state), steps[..k], me)
      invariant prog.rr.servers == Left(prog.cfg, old(prog.state), steps[..k], me, old(prog.rr.servers))
    {
      OthersGoOn(prog.cfg, old(prog.state), steps, k, me, old(prog.rr.servers));
      OtherStep(prog, steps[k], me);
    }
    assert steps[..|steps|] == steps;
  }

  lemma NoOthersYet(cfg: Config, s: State, steps: seq<Step>, me: nat, servers: seq<SSHClient>)
    ensures AfterOthers(cfg, s, steps[..0], me) == s && Left(cfg, s, steps[..0], me, servers) == servers
  {
  }

  // ---------- a selection ----------

  /** Why a request did not get this server: tried, blocked, refused, or disconnected with no room to dial. */
  ghost predicate TurnedDown(p: Pool, q: Query, i: nat)
    requires i < |p.servers|
  {
    || p.servers[i].addr in q.exclude
    || Blocked(p.failures, p.servers[i].addr, q.target, q.now)
    || (!p.servers[i].connected && p.strategy == LoadBalance && ConnectedCount(p.servers) >= p.maxActive)
    || (!p.servers[i].connected && !q.dial(Place(p, i)))
  }

  lemma NothingUsable(p: Pool, q: Query)
    requires Wf(p) && p.servers != [] && WholeOrder(p) && Select(p, q).chosen == None
    ensures forall i :: 0 <= i < |p.servers| ==> TurnedDown(p, q, i)
  {
    SelectionIsFirstUsable(p, q);
    OrderIsPermutation(p);
    forall i | 0 <= i < |p.servers| ensures TurnedDown(p, q, i) {
      assert Order(p, Place(p, i)) == i && !Usable(p, q, i);
    }
  }

  ghost function Addrs(cs: seq<SSHClient>): (addrs: seq<string>)
    ensures |addrs| == |cs| && forall i :: 0 <= i < |cs| ==> addrs[i] == cs[i].addr
  {
    seq(|cs|, i requires 0 <= i < |cs| => cs[i].addr)
  }

  function PoolAddrs(p: Pool): (addrs: seq<string>)
    ensures |addrs| == |p.servers| && forall i :: 0 <= i < |addrs| ==> addrs[i] == p.servers[i].addr
  {
    seq(|p.servers|, i requires 0 <= i < |p.servers| => p.servers[i].addr)
  }

  /** A selection: the pool it looked at and what it asked for. */
  datatype Look = Look(pool: Pool, query: Query)

  /** The selection that a run ends with. */
  ghost function LastLook(cfg: Config, start: State, run: seq<Step>): Option<Look> {
    if run == [] || !run[|run| - 1].Choose? then None
    else
      var e, before := run[|run| - 1], Final(cfg, start, run[..|run| - 1]);
      if before.Some? && e.id in before.value.handlers then
        Some(Look(before.value.pool, Request(before.value.handlers[e.id], e.now, e.dial)))
      else None
  }

  /** A selection of this request found nothing; over a whole order every server was turned down. */
  ghost predicate InVain(look: Look, target: string, excluded: set<string>, dial: nat -> bool) {
    && look.query.target == target && look.query.exclude == excluded && look.query.dial == dial
    && Select(look.pool, look.query).chosen == None
    && (look.pool.servers != [] && WholeOrder(look.pool) ==>
         forall i :: 0 <= i < |look.pool.servers| ==> TurnedDown(look.pool, look.query, i))
  }

  lemma LookOf(cfg: Config, start: State, run: seq<Step>, s: State, e: Step)
    requires Final(cfg, start, run) == Some(s) && e.Choose? && e.id in s.handlers
    ensures LastLook(cfg, start, run + [e]) == Some(Look(s.pool, Request(s.handlers[e.id], e.now, e.dial)))
  {
    assert (run + [e])[..|run|] == run;
  }

  /** A request in the retry loop: it may select, for this target and with these addresses excluded. */
  ghost predicate AboutToAsk(s: State, me: nat, target: string, excluded: set<string>) {
    && InPhase(s, me, Ready) && |s.handlers[me].tried| < s.handlers[me].limit
    && s.handlers[me].target == target && Elements(s.handlers[me].tried) == excluded
  }

  /** What a selection of the request is, in the words of the state, before it is made. */
  lemma AboutToAskIs(cfg: Config, s: State, e: Step, target: string, excluded: set<string>)
    requires e.Choose? && AboutToAsk(s, e.id, target, excluded) && s.clock <= e.now && Wf(s.pool)
    ensures var q := Query(target, excluded, e.now, e.dial);
      && Enabled(cfg, s, e) && Request(s.handlers[e.id], e.now, e.dial) == q
      && TakenPlace(s, e) == Select(s.pool, q).chosen
      && (TakenPlace(s, e) == None ==> InVain(Look(s.pool, q), target, excluded, e.dial))
      && (TakenPlace(s, e).Some? ==>
           && TakenPlace(s, e).value < |s.pool.servers| && s.pool.servers[TakenPlace(s, e).value].addr !in excluded)
  {
    var q := Query(target, excluded, e.now, e.dial);
    if TakenPlace(s, e) == None {
      if s.pool.servers != [] && WholeOrder(s.pool) {
        NothingUsable(s.pool, q);
      }
    } else {
      SelectionServes(s.pool, q);
    }
  }

  /** GetForTarget, once the clock shows `waited` more. */
  method AskSelector(prog: Program, me: nat, target: string, excluded: set<string>, waited: nat, dial: nat -> bool)
    returns (client: SSHClient?)
    requires prog.Valid() && AboutToAsk(prog.state, me, target, excluded)
    modifies prog, prog.rr, prog.clients
    ensures prog.Valid() && prog.rr.servers == old(prog.rr.servers)
    ensures var s, e := old(prog.state), Choose(me, old(prog.state).clock + waited, dial);
      && Enabled(prog.cfg, s, e) && prog.state == After(prog.cfg, s, e)
      && (client == null <==> TakenPlace(s, e) == None)
      && (client != null ==>
           && TakenPlace(s, e).value < |prog.rr.servers| && client == prog.rr.servers[TakenPlace(s, e).value]
           && client in prog.clients && client.addr !in excluded)
      && (client == null ==>
           && LastLook(prog.cfg, prog.start, prog.run).Some?
           && var look := LastLook(prog.cfg, prog.start, prog.run).value;
              look.pool == s.pool && InVain(look, target, excluded, dial))
    ensures Mine(prog.run, me) == old(Mine(prog.run, me)) + [Choose(me, 0, dial)]
  {
    hide Wf, Select, InVain, Final, After, Initial, Request, Distinct, HoldersHaveClients, Partition, Mine, LastLook,
      AboutToAsk, Elements, Enabled, TakenPlace;
    var now := prog.state.clock + waited;
    ghost var e := Choose(me, now, dial);
    AboutToAskIs(prog.cfg, prog.state, e, target, excluded);
    AskedAs(prog.state, me, target, excluded);
    MineGrows(prog.run, e, me);
    LookOf(prog.cfg, prog.start, prog.run, prog.state, e);
    client := prog.GetForTarget(me, target, excluded, now, dial);
    assert client != null ==>
      client.addr == old(prog.state).pool.servers[TakenPlace(old(prog.state), e).value].addr;
  }

  lemma AskedAs(s: State, me: nat, target: string, excluded: set<string>)
    requires AboutToAsk(s, me, target, excluded)
    ensures me in s.handlers && s.handlers[me].target == target && Elements(s.handlers[me].tried) == excluded
  {
  }

  // ---------- one try ----------

  /** The failure report of a try, once the clock shows `waited` more. */
  method FailTry(prog: Program, me: nat, client: SSHClient, target: string, waited: nat)
    requires prog.Valid() && InPhase(prog.state, me, Holding(client.addr))
    requires prog.state.handlers[me].target == target
    modifies prog, prog.rr
    ensures prog.Valid() && prog.rr.servers == old(prog.rr.servers)
    ensures prog.state == Failing(prog.cfg, old(prog.state), me, waited)
    ensures Mine(prog.run, me) == old(Mine(prog.run, me)) + [Fail(me, 0)]
  {
    hide Program.Valid, Final, After, Mine;
    var e := Fail(me, prog.state.clock + waited);
    MineGrows(prog.run, e, me);
    prog.ReportFailure(e, client, target);
  }

  /** After steps of others a client is connected exactly if its server stayed in the pool and up. */
  lemma ClientUp(prog: Program, client: SSHClient, s: State, servers: seq<SSHClient>, i: nat, steps: seq<Step>, me: nat)
    requires prog.Valid() && client in prog.clients
    requires Distinct(servers) && i < |servers| == |s.pool.servers| && servers[i] == client
    requires prog.state == AfterOthers(prog.cfg, s, steps, me)
    requires prog.rr.servers == Left(prog.cfg, s, steps, me, servers)
    ensures client.connected <==> StaysUp(prog.cfg, s, steps, me, i)
  {
    hide Wf, Inv, Final, Initial, Distinct, HoldersHaveClients, Partition, AfterOthers, Left, OthersPlace,
      SameCount, Total;
    prog.SelectorKeepsInv();
    PlaceTells(prog.cfg, s, steps, me, servers, i);
    var p := OthersPlace(prog.cfg, s, steps, me, i);
    if p.Some? {
      assert prog.rr.servers[p.value].State() == prog.state.pool.servers[p.value];
    }
  }

  /** What the object says about the pool, in the words of its state. */
  lemma PoolFacts(prog: Program)
    requires prog.Valid()
    ensures Wf(prog.state.pool) && WithinCap(prog.state.pool) && Distinct(prog.rr.servers)
    ensures |prog.rr.servers| == |prog.state.pool.servers| && PoolAddrs(prog.state.pool) == Addrs(prog.rr.servers)
    ensures forall i :: 0 <= i < |prog.rr.servers| ==>
      prog.rr.servers[i].addr == prog.state.pool.servers[i].addr
      && prog.rr.servers[i].connected == prog.state.pool.servers[i].connected
  {
    hide Wf, Final, Initial, Distinct, HoldersHaveClients, Partition, SameCount, Total;
    prog.SelectorKeepsInv();
    assert forall i :: 0 <= i < |prog.rr.servers| ==> prog.rr.servers[i].State() == prog.state.pool.servers[i];
  }

  /**
   The loop body after a selection: the target is dialled through the upstream at place `i`, and
   a failure reported if the client is gone by now or the target does not answer.
   */
  method UseUpstream(prog: Program, me: nat, client: SSHClient, target: string, a: Attempt, ghost i: nat)
    returns (ok: bool)
    requires prog.Valid() && InPhase(prog.state, me, Holding(client.addr))
    requires prog.state.handlers[me].target == target
    requires i < |prog.rr.servers| && prog.rr.servers[i] == client && client in prog.clients && client.connected
    modifies prog, prog.rr, prog.clients
    ensures prog.Valid()
    ensures prog.state == Used(prog.cfg, old(prog.state), me, i, a).state
    ensures ok <==> a.targetAnswers && StaysUp(prog.cfg, old(prog.state), a.during, me, i)
    ensures ok == Used(prog.cfg, old(prog.state), me, i, a).ok
    ensures ok ==> client.connected && !Shuts(a.during)
    ensures a.targetAnswers && KeepsConnections(a.during) ==> ok
    ensures Mine(prog.run, me) == old(Mine(prog.run, me)) + if ok then [] else [Fail(me, 0)]
    ensures KeepsPool(a.during) && KeepsPool(a.meanwhile) ==> prog.rr.servers == old(prog.rr.servers)
  {
    hide Program.Valid, Mine, KeepsPool, KeepsConnections, Shuts, Wf, WithinCap, Distinct, AfterOthers, Left, StaysUp,
      Failing;
    ghost var s, servers := prog.state, prog.rr.servers;
    PoolFacts(prog);
    UseOutcome(prog.cfg, s, me, i, a);
    OthersKeepHandler(prog.cfg, s, a.during, me);
    RunOthers(prog, a.during, me);
    ClientUp(prog, client, s, servers, i, a.during, me);
    ghost var t := prog.state;
    if KeepsPool(a.during) && KeepsPool(a.meanwhile) {
      OthersKeepServers(prog.cfg, s, a.during, me, servers, i);
      OthersKeepServers(prog.cfg, t, a.meanwhile, me, servers, i);
    }
    if !client.connected {
      FailTry(prog, me, client, target, a.reportedAfter);
      return false;
    }
    if a.targetAnswers {
      return true;
    }
    OthersKeepHandler(prog.cfg, t, a.meanwhile, me);
    RunOthers(prog, a.meanwhile, me);
    FailTry(prog, me, client, target, a.reportedAfter);
    return false;
  }

  /** One turn of the retry loop: no client, a client whose failure has been reported, or a tunnel. */
  method TryNext(prog: Program, me: nat, target: string, excluded: set<string>, a: Attempt)
    returns (client: SSHClient?, ok: bool)
    requires prog.Valid() && AboutToAsk(prog.state, me, target, excluded)
    modifies prog, prog.rr, prog.clients
    ensures prog.Valid() && me in prog.state.handlers
    ensures Try(prog.cfg, old(prog.state), me, a) == Tried(prog.state, client != null, ok)
    ensures var h := old(prog.state).handlers[me];
      prog.state.handlers[me] ==
        if client == null then h.(phase := Finished)
        else h.(phase := if ok then Holding(client.addr) else Ready, tried := h.tried + [client.addr])
    ensures Mine(prog.run, me) == old(Mine(prog.run, me)) + StepsOfTry(me, a, client != null, ok)
    ensures client != null ==> client in prog.clients && client.addr !in excluded
    ensures ok ==> client != null && client.connected && a.targetAnswers && !Shuts(a.during)
    ensures client != null && a.targetAnswers && KeepsConnections(a.during) ==> ok
    ensures client == null ==>
      var look := LastLook(prog.cfg, prog.start, prog.run);
      && look.Some? && PoolAddrs(look.value.pool) == PoolAddrs(prog.state.pool)
      && InVain(look.value, target, excluded, a.dial)
    ensures LeavesPool(a) ==>
      prog.rr.servers == old(prog.rr.servers) && (client != null ==> client in prog.rr.servers)
  {
    hide Program.Valid, Mine, KeepsPool, KeepsConnections, Shuts, InVain, LastLook, AboutToAsk, AfterOthers, Left,
      After, Enabled, TakenPlace, Used, PoolAddrs;
    ghost var s, servers := prog.state, prog.rr.servers;
    if KeepsPool(a.before) {
      OthersKeepServers(prog.cfg, s, a.before, me, servers, 0);
    }
    StillAboutToAsk(prog.cfg, s, a.before, me, target, excluded);
    RunOthers(prog, a.before, me);
    ghost var t := prog.state;
    ghost var e := Asking(t, me, a);
    PoolFacts(prog);
    client := AskSelector(prog, me, target, excluded, a.waited, a.dial);
    ChoiceServes(prog.cfg, t, e);
    if client == null {
      SamePoolAddrs(prog.cfg, t, e);
      return client, false;
    }
    PoolFacts(prog);
    ghost var i := TakenPlace(t, e).value;
    UsedHandler(prog.cfg, prog.state, me, i, a);
    ok := UseUpstream(prog, me, client, target, a, i);
  }

  lemma StillAboutToAsk(cfg: Config, s: State, steps: seq<Step>, me: nat, target: string, excluded: set<string>)
    requires AboutToAsk(s, me, target, excluded)
    ensures AboutToAsk(AfterOthers(cfg, s, steps, me), me, target, excluded)
    ensures me in s.handlers && s.handlers[me].target == target
    ensures AfterOthers(cfg, s, steps, me).handlers[me] == s.handlers[me]
  {
    hide AfterOthers;
    OthersKeepHandler(cfg, s, steps, me);
  }

  lemma SamePoolAddrs(cfg: Config, s: State, e: Step)
    requires Enabled(cfg, s, e) && e.Choose? && Wf(s.pool)
    ensures PoolAddrs(After(cfg, s, e).pool) == PoolAddrs(s.pool)
  {
    var q := Request(s.handlers[e.id], e.now, e.dial);
    if Select(s.pool, q).chosen.Some? {
      SelectionServes(s.pool, q);
    }
  }

  // ---------- the retry loop ----------

  /** Every address has failed in this request, or the selection it ended with turned the server down. */
  ghost predicate NothingLeft(addrs: seq<string>, tried: seq<string>, last: Option<Look>) {
    forall i :: 0 <= i < |addrs| ==>
      || addrs[i] in tried
      || (last.Some? && PoolAddrs(last.value.pool) == addrs && TurnedDown(last.value.pool, last.value.query, i))
  }

  /**
   Why a request ended without a client. Below its limit the run ends with a selection that found
   nothing. If the pool kept its servers and that selection looked at all of them, or if the limit
   was the size of the pool, every address has failed in this request or was turned down by it.
   */
  ghost predicate GaveUp(cfg: Config, start: State, run: seq<Step>, target: string, tried: seq<string>, limit: nat,
                         world: nat -> Attempt, addrs: seq<string>)
  {
    var look := LastLook(cfg, start, run);
    && (|tried| < limit ==> look.Some? && InVain(look.value, target, Elements(tried), world(|tried|).dial))
    && ((|tried| < limit || cfg.retryUpstreams <= 0) && PoolStays(world)
          && (look.Some? && look.value.pool.servers != [] ==> WholeOrder(look.value.pool))
        ==> NothingLeft(addrs, tried, look))
  }

  /**
   The number of upstreams tried keeps to the option, or without one to the pool size; a request
   that ends without a client and without a last selection has tried that many.
   */
  ghost predicate KeepsToOption(option: int, poolSize: nat, n: nat, exhausted: bool) {
    && (option > 0 ==> n <= option && (exhausted ==> n == option))
    && (option <= 0 && poolSize > 0 ==> n <= poolSize && (exhausted ==> n == poolSize))
    && (option <= 0 && poolSize == 0 ==> n <= 1 && (exhausted ==> n == 1))
  }

  lemma LimitKeepsToOption(option: int, poolSize: nat, n: nat, exhausted: bool)
    requires n <= MaxUpstreams(option, poolSize) && (exhausted ==> n == MaxUpstreams(option, poolSize))
    ensures KeepsToOption(option, poolSize, n, exhausted)
  {
  }

  /**
   A request for this target, begun in this state, has tried these distinct upstreams within its
   limit and has this client now, or none and is finished. The state is the one that the world
   makes of it. Its part of the run since it began is Begin, a selection and a failure report for
   each try that failed, and then the selection that gave the client, or one that gave none, or
   giving up at the limit.
   */
  ghost predicate Ended(prog: Program, me: nat, target: string, world: nat -> Attempt, s: State, was: seq<Step>,
                        tried: seq<string>, client: SSHClient?)
    reads prog
  {
    var limit := MaxUpstreams(prog.cfg.retryUpstreams, |s.pool.servers|);
    && prog.state == AfterRequest(prog.cfg, s, me, world, |tried|, limit, client != null)
    && me in prog.state.handlers
    && prog.state.handlers[me]
         == Handler(target, limit, tried, if client == null then Finished else Holding(client.addr))
    && Mine(prog.run, me) == was + StepsOfRequest(me, world, |tried|, limit, client != null)
    && Distinct(tried) && |tried| <= limit
    && KeepsToOption(prog.cfg.retryUpstreams, |s.pool.servers|, |tried|,
                     client == null && LastLook(prog.cfg, prog.start, prog.run) == None)
    && (PoolStays(world) ==> PoolAddrs(prog.state.pool) == PoolAddrs(s.pool))
    && if client == null then
         && AllFailed(world, |tried|)
         && GaveUp(prog.cfg, prog.start, prog.run, target, tried, limit, world, PoolAddrs(s.pool))
       else
         && client in prog.clients && tried != [] && client.addr == tried[|tried| - 1]
         && world(|tried| - 1).targetAnswers && !Shuts(world(|tried| - 1).during)
         && AllFailed(world, |tried| - 1)
  }

  /** A request for this target, begun in this state, has tried these upstreams so far, none successfully. */
  ghost predicate Trying(prog: Program, me: nat, target: string, world: nat -> Attempt, s: State, was: seq<Step>,
                         tried: seq<string>)
    reads prog
  {
    var limit := MaxUpstreams(prog.cfg.retryUpstreams, |s.pool.servers|);
    && prog.state == AfterTries(prog.cfg, s, me, world, |tried|)
    && me in prog.state.handlers
    && prog.state.handlers[me] == Handler(target, limit, tried, Ready)
    && Mine(prog.run, me) == was + FailedTries(me, world, |tried|)
    && Distinct(tried) && |tried| <= limit
    && AllFailed(world, |tried|)
    && (PoolStays(world) ==> PoolAddrs(prog.state.pool) == PoolAddrs(s.pool) && FromPool(tried, PoolAddrs(s.pool)))
  }

  /** What one more turn of the loop adds to a request that has tried these upstreams in vain. */
  lemma OneMoreTry(me: nat, world: nat -> Attempt, was: seq<Step>, tried: seq<string>, found: bool, ok: bool)
    requires AllFailed(world, |tried|)
    ensures var i := |tried|;
      && was + FailedTries(me, world, i) + StepsOfTry(me, world(i), found, ok)
           == was + (FailedTries(me, world, i) + StepsOfTry(me, world(i), found, ok))
      && (found && !ok && (world(i).targetAnswers ==> !KeepsConnections(world(i).during)) ==> AllFailed(world, i + 1))
  {
    var i := |tried|;
    assert was + FailedTries(me, world, i) + StepsOfTry(me, world(i), found, ok)
           == was + (FailedTries(me, world, i) + StepsOfTry(me, world(i), found, ok));
  }

  lemma NothingTried(world: nat -> Attempt, addrs: seq<string>)
    ensures Distinct<string>([]) && Elements<string>([]) == {} && AllFailed(world, 0) && FromPool([], addrs)
  {
  }

  /** All of these are addresses of the pool. */
  ghost predicate FromPool(tried: seq<string>, addrs: seq<string>) {
    forall a :: a in tried ==> a in addrs
  }

  lemma OneMoreFromPool(tried: seq<string>, servers: seq<SSHClient>, client: SSHClient)
    requires FromPool(tried, Addrs(servers)) && client in servers
    ensures FromPool(tried + [client.addr], Addrs(servers))
  {
    var k :| 0 <= k < |servers| && servers[k] == client;
    assert Addrs(servers)[k] == client.addr;
  }

  lemma AllTurnedDown(look: Look, target: string, tried: seq<string>, dial: nat -> bool)
    requires InVain(look, target, Elements(tried), dial) && (look.pool.servers != [] ==> WholeOrder(look.pool))
    ensures NothingLeft(PoolAddrs(look.pool), tried, Some(look))
  {
  }

  lemma AllTried(addrs: seq<string>, tried: seq<string>, last: Option<Look>)
    requires Distinct(tried) && FromPool(tried, addrs) && |tried| >= |addrs|
    ensures NothingLeft(addrs, tried, last)
  {
    Pigeonhole(tried, addrs);
  }

  lemma GivesUpInVain(cfg: Config, start: State, run: seq<Step>, target: string, tried: seq<string>, limit: nat,
                      world: nat -> Attempt, addrs: seq<string>)
    requires |tried| < limit && LastLook(cfg, start, run).Some?
    requires InVain(LastLook(cfg, start, run).value, target, Elements(tried), world(|tried|).dial)
    requires PoolStays(world) ==> PoolAddrs(LastLook(cfg, start, run).value.pool) == addrs
    ensures GaveUp(cfg, start, run, target, tried, limit, world, addrs)
  {
    hide LastLook, InVain, NothingLeft, Elements, WholeOrder;
    var look := LastLook(cfg, start, run).value;
    if look.pool.servers != [] ==> WholeOrder(look.pool) {
      AllTurnedDown(look, target, tried, world(|tried|).dial);
    }
  }

  lemma GivesUpAtLimit(cfg: Config, start: State, run: seq<Step>, target: string, tried: seq<string>, limit: nat,
                       world: nat -> Attempt, addrs: seq<string>)
    requires Distinct(tried) && |tried| == limit == MaxUpstreams(cfg.retryUpstreams, |addrs|)
    requires PoolStays(world) ==> FromPool(tried, addrs)
    ensures GaveUp(cfg, start, run, target, tried, limit, world, addrs)
  {
    hide LastLook, InVain, NothingLeft, Distinct, FromPool;
    if cfg.retryUpstreams <= 0 && PoolStays(world) {
      AllTried(addrs, tried, LastLook(cfg, start, run));
    }
  }

  /** The loop body of DialTargetWithRetries. */
  method Turn(prog: Program, me: nat, target: string, excluded: set<string>, world: nat -> Attempt, i: nat,
              ghost s: State, ghost was: seq<Step>, ghost tried: seq<string>)
    returns (client: SSHClient?, ok: bool)
    requires prog.Valid() && Trying(prog, me, target, world, s, was, tried) && excluded == Elements(tried)
    requires i == |tried| < MaxUpstreams(prog.cfg.retryUpstreams, |s.pool.servers|)
    modifies prog, prog.rr, prog.clients
    ensures prog.Valid()
    ensures client == null ==> Ended(prog, me, target, world, s, was, tried, client)
    ensures client != null ==> Elements(tried + [client.addr]) == excluded + {client.addr}
    ensures client != null && ok ==>
      client.connected && Ended(prog, me, target, world, s, was, tried + [client.addr], client)
    ensures client != null && !ok ==> Trying(prog, me, target, world, s, was, tried + [client.addr])
  {
    hide Program.Valid, Mine, Distinct, Elements, LastLook, Shuts, KeepsConnections, InVain, LeavesPool, StepsOfTry,
      AllFailed, FromPool, Addrs, PoolAddrs, MaxUpstreams, Try, AfterTries, GaveUp, KeepsToOption;
    LimitKeepsToOption(prog.cfg.retryUpstreams, |s.pool.servers|, |tried|, false);
    LimitKeepsToOption(prog.cfg.retryUpstreams, |s.pool.servers|, |tried| + 1, false);
    PoolFacts(prog);
    client, ok := TryNext(prog, me, target, excluded, world(i));
    PoolFacts(prog);
    TriesGoOn(prog.cfg, s, me, world, i);
    OneMoreTry(me, world, was, tried, client != null, ok);
    if client == null {
      ghost var limit := MaxUpstreams(prog.cfg.retryUpstreams, |s.pool.servers|);
      GivesUpInVain(prog.cfg, prog.start, prog.run, target, tried, limit, world, PoolAddrs(s.pool));
    } else {
      DistinctAppend(tried, client.addr);
      if PoolStays(world) {
        OneMoreFromPool(tried, prog.rr.servers, client);
      }
    }
  }

  /** The start of the loop: a handler that has tried nothing gets its limit. */
  method BeginTries(prog: Program, me: nat, target: string, world: nat -> Attempt) returns (limit: nat)
    requires prog.Valid() && InPhase(prog.state, me, Starting) && prog.state.handlers[me].target == target
    modifies prog
    ensures prog.Valid() && limit == MaxUpstreams(prog.cfg.retryUpstreams, |old(prog.state).pool.servers|)
    ensures Trying(prog, me, target, world, old(prog.state), old(Mine(prog.run, me)), [])
  {
    hide Program.Valid, Final, After, Mine, Inv, Distinct, Elements, AllFailed, FromPool, Addrs, PoolAddrs;
    NothingTried(world, PoolAddrs(prog.state.pool));
    PoolFacts(prog);
    FreshHandler(prog, me);
    MineGrows(prog.run, Begin(me), me);
    BeginOf(prog.cfg, prog.state, me);
    limit := if prog.cfg.retryUpstreams <= 0 then |prog.rr.servers| else prog.cfg.retryUpstreams;
    if limit <= 0 {
      limit := 1;
    }
    prog.Control(Begin(me));
  }

  lemma FreshHandler(prog: Program, me: nat)
    requires prog.Valid() && InPhase(prog.state, me, Starting)
    ensures prog.state.handlers[me].tried == []
  {
    hide Wf, Final, Initial, HoldersHaveClients, Partition, SameCount, Total, Distinct;
    prog.SelectorKeepsInv();
    assert HandlerOk(prog.state.handlers[me]);
  }

  /** The end of the loop at its limit. */
  method StopAtLimit(prog: Program, me: nat, target: string, world: nat -> Attempt,
                     ghost s: State, ghost was: seq<Step>, ghost tried: seq<string>)
    requires prog.Valid() && Trying(prog, me, target, world, s, was, tried)
    requires |tried| == MaxUpstreams(prog.cfg.retryUpstreams, |s.pool.servers|)
    modifies prog
    ensures prog.Valid() && Ended(prog, me, target, world, s, was, tried, null)
  {
    hide Program.Valid, Final, After, Mine, Distinct, AllFailed, FromPool, PoolAddrs, MaxUpstreams, AfterTries, GaveUp,
      KeepsToOption;
    LimitKeepsToOption(prog.cfg.retryUpstreams, |s.pool.servers|, |tried|, true);
    LimitKeepsToOption(prog.cfg.retryUpstreams, |s.pool.servers|, |tried|, false);
    MineGrows(prog.run, GiveUp(me), me);
    GiveUpEnds(prog.cfg, prog.state, me);
    prog.Control(GiveUp(me));
    GivesUpAtLimit(prog.cfg, prog.start, prog.run, target, tried, |tried|, world, PoolAddrs(s.pool));
  }

  /** DialTargetWithRetries, with other goroutines making their steps between its own. */
  method DialTargetWithRetries(prog: Program, me: nat, target: string, world: nat -> Attempt)
    returns (client: SSHClient?, ghost tried: seq<string>)
    requires prog.Valid() && InPhase(prog.state, me, Starting) && prog.state.handlers[me].target == target
    modifies prog, prog.rr, prog.clients
    ensures prog.Valid()
    ensures Ended(prog, me, target, world, old(prog.state), old(Mine(prog.run, me)), tried, client)
    ensures client != null ==> client.connected
  {
    hide Program.Valid, Mine, Elements, MaxUpstreams, Trying, Ended;
    ghost var s, was := prog.state, Mine(prog.run, me);
    var excluded: set<string> := {};
    var limit := BeginTries(prog, me, target, world);
    tried := [];
    NoneTriedYet();
    for i := 0 to limit
      invariant prog.Valid() && Trying(prog, me, target, world, s, was, tried)
      invariant |tried| == i && excluded == Elements(tried)
    {
      var ok;
      client, ok := Turn(prog, me, target, excluded, world, i, s, was, tried);
      if client == null {
        return;
      }
      excluded := excluded + {client.addr};
      tried := tried + [client.addr];
      if ok {
        return;
      }
    }
    client := null;
    StopAtLimit(prog, me, target, world, s, was, tried);
  }

  lemma NoneTriedYet()
    ensures Elements<string>([]) == {}
  {
  }

  // ---------- one connection ----------

  /** The report after a tunnel: the pair has a failure entry afterwards exactly if the tunnel was suspicious. */
  method ReportTunnel(prog: Program, me: nat, client: SSHClient, target: string, suspicious: bool, waited: nat)
    requires prog.Valid() && InPhase(prog.state, me, Holding(client.addr))
    requires prog.state.handlers[me].target == target
    modifies prog, prog.rr
    ensures prog.Valid() && prog.state == Ending(prog.cfg, old(prog.state), me, suspicious, waited)
    ensures Mine(prog.run, me) == old(Mine(prog.run, me)) + [EndTunnel(me, suspicious, 0)]
    ensures me in prog.state.handlers
    ensures prog.state.handlers[me] == old(prog.state.handlers[me]).(phase := Finished)
    ensures Key(client.addr, target) in prog.rr.targetFailures <==> suspicious
  {
    hide Program.Valid, Final, After, Mine, Key;
    var e := EndTunnel(me, suspicious, prog.state.clock + waited);
    ProperHandler(prog, me);
    MineGrows(prog.run, e, me);
    TunnelEnds(prog.cfg, prog.state, me, suspicious, waited);
    if suspicious {
      prog.ReportFailure(e, client, target);
    } else {
      prog.ReportSuccess(e, client, target);
    }
    SameTable(prog);
  }

  lemma ProperHandler(prog: Program, me: nat)
    requires prog.Valid() && me in prog.state.handlers
    ensures prog.state.handlers[me].target != ""
  {
    hide Wf, Final, Initial, HoldersHaveClients, Partition, SameCount, Total, Distinct;
    prog.SelectorKeepsInv();
    assert HandlerOk(prog.state.handlers[me]);
  }

  lemma SameTable(prog: Program)
    requires prog.Valid()
    ensures prog.rr.targetFailures == prog.state.pool.failures
  {
  }

  /**
   HandleConnection and the end of HandleSocks5Connection: with a tunnel the last upstream tried
   gets the one report that is still missing, so every selection is answered by one report.
   */
  method HandleConnection(prog: Program, me: nat, target: string, world: nat -> Attempt,
                          tunnel: seq<Step>, suspicious: bool, waited: nat)
    returns (served: bool, ghost tried: seq<string>)
    requires prog.Valid() && InPhase(prog.state, me, Starting) && prog.state.handlers[me].target == target
    modifies prog, prog.rr, prog.clients
    ensures prog.Valid() && me in prog.state.handlers
    ensures var s, limit := old(prog.state), MaxUpstreams(prog.cfg.retryUpstreams, |old(prog.state).pool.servers|);
      && prog.state == AfterConnection(prog.cfg, s, me, world, |tried|, limit, served, tunnel, suspicious, waited)
      && prog.state.handlers[me] == Handler(target, limit, tried, Finished)
      && Mine(prog.run, me)
           == old(Mine(prog.run, me)) + StepsOfConnection(me, world, |tried|, limit, served, suspicious)
      && Distinct(tried) && |tried| <= limit
      && KeepsToOption(prog.cfg.retryUpstreams, |s.pool.servers|, |tried|,
                       !served && LastLook(prog.cfg, prog.start, prog.run) == None)
      && (!served ==>
            && AllFailed(world, |tried|)
            && GaveUp(prog.cfg, prog.start, prog.run, target, tried, limit, world, PoolAddrs(s.pool)))
    ensures served ==>
      && tried != [] && AllFailed(world, |tried| - 1)
      && world(|tried| - 1).targetAnswers && !Shuts(world(|tried| - 1).during)
      && (Key(tried[|tried| - 1], target) in prog.rr.targetFailures <==> suspicious)
  {
    hide Program.Valid, Mine, Distinct, AllFailed, GaveUp, KeepsToOption, LastLook, MaxUpstreams, StepsOfRequest,
      Shuts, AfterRequest, AfterOthers, Left, Ending, PoolAddrs, Key;
    var client;
    client, tried := DialTargetWithRetries(prog, me, target, world);
    if client == null {
      return false, tried;
    }
    OthersKeepHandler(prog.cfg, prog.state, tunnel, me);
    RunOthers(prog, tunnel, me);
    ReportTunnel(prog, me, client, target, suspicious, waited);
    return true, tried;
  }

  /** What a connection that is admitted in this state does, from its place in the semaphore to giving it back. */
  function Arrived(cfg: Config, s: State, id: nat, host: string, port: int, first: seq<Step>): State {
    AfterOthers(cfg, Made(cfg, s, Accept(id, host, port)), first, id)
  }

  /**
   The accept loop's part for one connection. With the semaphore full the connection is turned
   away; otherwise a handler serves it, while the others go on, and gives its place back.
   */
  method ServeConnection(prog: Program, id: nat, host: string, port: int, first: seq<Step>, world: nat -> Attempt,
                         tunnel: seq<Step>, suspicious: bool, waited: nat)
    returns (admitted: bool, served: bool, ghost tried: seq<string>)
    requires prog.Valid() && id !in prog.state.handlers
    modifies prog, prog.rr, prog.clients
    ensures prog.Valid() && id !in prog.state.handlers
    ensures admitted <==> |old(prog.state.handlers)| < prog.cfg.capacity
    ensures !admitted ==> prog.run == old(prog.run) && prog.state == old(prog.state)
    ensures admitted ==>
      var s := Arrived(prog.cfg, old(prog.state), id, host, port, first);
      var limit, n := MaxUpstreams(prog.cfg.retryUpstreams, |s.pool.servers|), |tried|;
      && Distinct(tried) && n <= limit && (served ==> n > 0)
      && prog.run != []
      && KeepsToOption(prog.cfg.retryUpstreams, |s.pool.servers|, n,
                       !served && LastLook(prog.cfg, prog.start, prog.run[..|prog.run| - 1]) == None)
      && prog.state == Made(prog.cfg,
           AfterConnection(prog.cfg, s, id, world, n, limit, served, tunnel, suspicious, waited), Release(id))
      && Mine(prog.run, id) == old(Mine(prog.run, id)) + [Accept(id, host, port)]
           + StepsOfConnection(id, world, n, limit, served, suspicious) + [Release(id)]
      && AllFailed(world, if served then n - 1 else n)
      && (!served ==> GaveUp(prog.cfg, prog.start, prog.run[..|prog.run| - 1], HostPort(host, port), tried, limit,
                             world, PoolAddrs(s.pool)))
  {
    hide Program.Valid, Final, After, Mine, StepsOfConnection, MaxUpstreams, AllFailed, GaveUp, KeepsToOption,
      LastLook, Shuts, AfterConnection, AfterOthers, Left, Distinct, PoolAddrs;
    if |prog.state.handlers| >= prog.cfg.capacity {
      return false, false, [];
    }
    var e := Accept(id, host, port);
    AcceptOf(prog.cfg, prog.state, id, host, port);
    MineGrows(prog.run, e, id);
    prog.Control(e);
    OthersKeepHandler(prog.cfg, prog.state, first, id);
    RunOthers(prog, first, id);
    served, tried := HandleConnection(prog, id, HostPort(host, port), world, tunnel, suspicious, waited);
    Leave(prog, id);
    return true, served, tried;
  }

  method Leave(prog: Program, id: nat)
    requires prog.Valid() && InPhase(prog.state, id, Finished)
    modifies prog
    ensures prog.Valid() && id !in prog.state.handlers && prog.state == Made(prog.cfg, old(prog.state), Release(id))
    ensures prog.run == old(prog.run) + [Release(id)]
    ensures Mine(prog.run, id) == old(Mine(prog.run, id)) + [Release(id)]
  {
    hide Program.Valid, Final, Mine;
    MineGrows(prog.run, Release(id), id);
    prog.Control(Release(id));
  }
}
