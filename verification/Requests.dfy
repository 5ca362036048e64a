/**
 What one request does to the program, as a function of what the world does around it: the steps
 of others, the waits and the outcomes of the network. Retry.dfy runs the loops and is proved
 equal to these functions.
 */
module Requests {
  import opened Basics
  import opened Addresses
  import opened FailureTable
  import opened Selector
  import opened SelectorLaws
  import opened Protocol
  import opened ProtocolLaws

  // ---------- the other goroutines ----------

  /** A step that comes when it can be made, or not at all. */
  function Made(cfg: Config, s: State, e: Step): State {
    if Enabled(cfg, s, e) then After(cfg, s, e) else s
  }

  /** A step of somebody else that can be made now. */
  predicate Happens(cfg: Config, s: State, e: Step, me: nat) {
    Actor(e) != Some(me) && Enabled(cfg, s, e)
  }

  /** The state after those of these steps that are not this handler's and can be made when they come. */
  function AfterOthers(cfg: Config, s: State, steps: seq<Step>, me: nat): State {
    if steps == [] then s
    else
      var before, e := AfterOthers(cfg, s, steps[..|steps| - 1], me), steps[|steps| - 1];
      if Happens(cfg, before, e, me) then After(cfg, before, e) else before
  }

  /** What these steps leave of a list that goes along with the servers of the pool. */
  function Left<T>(cfg: Config, s: State, steps: seq<Step>, me: nat, xs: seq<T>): seq<T> {
    if steps == [] then xs
    else
      var before, e := AfterOthers(cfg, s, steps[..|steps| - 1], me), steps[|steps| - 1];
      var ys := Left(cfg, s, steps[..|steps| - 1], me, xs);
      if Happens(cfg, before, e, me) then Kept(ys, e) else ys
  }

  /** Where a step leaves the server at place `i`, if it stays in the pool. */
  function PlaceAfter(e: Step, i: nat): Option<nat> {
    match e
    case RemoveServer(j) => if i == j then None else Some(if j < i then i - 1 else i)
    case Shutdown => None
    case _ => Some(i)
  }

  function OthersPlace(cfg: Config, s: State, steps: seq<Step>, me: nat, i: nat): Option<nat> {
    if steps == [] then Some(i)
    else
      var before, e := AfterOthers(cfg, s, steps[..|steps| - 1], me), steps[|steps| - 1];
      var p := OthersPlace(cfg, s, steps[..|steps| - 1], me, i);
      if p.Some? && Happens(cfg, before, e, me) then PlaceAfter(e, p.value) else p
  }

  /** The server at place `i` is still in the pool and connected after these steps. */
  predicate StaysUp(cfg: Config, s: State, steps: seq<Step>, me: nat, i: nat) {
    var t, p := AfterOthers(cfg, s, steps, me), OthersPlace(cfg, s, steps, me, i);
    p.Some? && p.value < |t.pool.servers| && t.pool.servers[p.value].connected
  }

  // ---------- one step of others ----------

  lemma OneOther<T>(cfg: Config, s: State, e: Step, me: nat, xs: seq<T>)
    ensures AfterOthers(cfg, s, [e], me) == if Happens(cfg, s, e, me) then After(cfg, s, e) else s
    ensures Left(cfg, s, [e], me, xs) == if Happens(cfg, s, e, me) then Kept(xs, e) else xs
  {
    assert [e][..0] == [];
    assert AfterOthers(cfg, s, [], me) == s && Left(cfg, s, [], me, xs) == xs;
  }

  lemma OthersGoOn<T>(cfg: Config, s: State, steps: seq<Step>, k: nat, me: nat, xs: seq<T>)
    requires k < |steps|
    ensures AfterOthers(cfg, s, steps[..k + 1], me)
      == AfterOthers(cfg, AfterOthers(cfg, s, steps[..k], me), [steps[k]], me)
    ensures Left(cfg, s, steps[..k + 1], me, xs)
      == Left(cfg, AfterOthers(cfg, s, steps[..k], me), [steps[k]], me, Left(cfg, s, steps[..k], me, xs))
  {
    hide After, Happens, Kept;
    assert steps[..k + 1][..k] == steps[..k];
    OneOther(cfg, AfterOthers(cfg, s, steps[..k], me), steps[k], me, Left(cfg, s, steps[..k], me, xs));
  }

  lemma KeptPlace<T>(xs: seq<T>, e: Step, i: nat)
    requires Distinct(xs) && i < |xs|
    ensures var p := PlaceAfter(e, i);
      && (p.Some? ==> p.value < |Kept(xs, e)| && Kept(xs, e)[p.value] == xs[i])
      && (p == None && (e.RemoveServer? ==> e.i < |xs|) ==> xs[i] !in Kept(xs, e))
  {
  }

  lemma KeptIsPart<T>(xs: seq<T>, e: Step, x: T)
    requires x !in xs
    ensures x !in Kept(xs, e)
  {
  }

  lemma KeptDistinct<T>(xs: seq<T>, e: Step)
    requires Distinct(xs)
    ensures Distinct(Kept(xs, e))
  {
  }

  lemma StepKeepsLength(cfg: Config, s: State, e: Step)
    requires Enabled(cfg, s, e)
    ensures |After(cfg, s, e).pool.servers| == |Kept(s.pool.servers, e)|
  {
    if e.Choose? && s.pool.servers != [] {
      var q := Request(s.handlers[e.id], e.now, e.dial);
      if Winner(s.pool, q) < |s.pool.servers| {
        assert |Select(s.pool, q).pool.servers| == |s.pool.servers|;
      }
    }
  }

  /** A server that stays is where its place says, and one that does not is gone. */
  lemma {:induction false} PlaceTells<T>(cfg: Config, s: State, steps: seq<Step>, me: nat, xs: seq<T>, i: nat)
    requires Distinct(xs) && i < |xs| == |s.pool.servers|
    ensures var ys, p := Left(cfg, s, steps, me, xs), OthersPlace(cfg, s, steps, me, i);
      && Distinct(ys) && |ys| == |AfterOthers(cfg, s, steps, me).pool.servers|
      && (p.Some? ==> p.value < |ys| && ys[p.value] == xs[i])
      && (p == None ==> xs[i] !in ys)
  {
    hide After, Distinct, Kept, PlaceAfter;
    if steps != [] {
      var fewer, e := steps[..|steps| - 1], steps[|steps| - 1];
      PlaceTells(cfg, s, fewer, me, xs, i);
      var before, ys := AfterOthers(cfg, s, fewer, me), Left(cfg, s, fewer, me, xs);
      var p := OthersPlace(cfg, s, fewer, me, i);
      if Happens(cfg, before, e, me) {
        StepKeepsLength(cfg, before, e);
        KeptLength(ys, before.pool.servers, e);
        KeptDistinct(ys, e);
        if p.Some? {
          KeptPlace(ys, e, p.value);
        } else {
          KeptIsPart(ys, e, xs[i]);
        }
      }
    }
  }

  lemma KeptLength<T, U>(xs: seq<T>, us: seq<U>, e: Step)
    requires |xs| == |us|
    ensures |Kept(xs, e)| == |Kept(us, e)|
  {
  }

  // ---------- what others leave alone ----------

  lemma {:induction false} OthersKeepHandler(cfg: Config, s: State, steps: seq<Step>, me: nat)
    requires me in s.handlers
    ensures var t := AfterOthers(cfg, s, steps, me); me in t.handlers && t.handlers[me] == s.handlers[me]
  {
    hide After, Enabled;
    if steps != [] {
      var fewer, e := steps[..|steps| - 1], steps[|steps| - 1];
      OthersKeepHandler(cfg, s, fewer, me);
      if Happens(cfg, AfterOthers(cfg, s, fewer, me), e, me) {
        OnlyTheActorChanges(cfg, AfterOthers(cfg, s, fewer, me), e);
      }
    }
  }

  /** Without removals and shutdown the pool keeps its servers in their places. */
  lemma {:induction false} OthersKeepServers<T>(cfg: Config, s: State, steps: seq<Step>, me: nat, xs: seq<T>, i: nat)
    requires KeepsPool(steps)
    ensures Left(cfg, s, steps, me, xs) == xs && OthersPlace(cfg, s, steps, me, i) == Some(i)
  {
    hide After, Enabled;
    if steps != [] {
      OthersKeepServers(cfg, s, steps[..|steps| - 1], me, xs, i);
    }
  }

  lemma {:induction false} ShutPoolIsEmpty(cfg: Config, s: State, steps: seq<Step>, me: nat)
    requires Shuts(steps) || s.pool.servers == []
    ensures AfterOthers(cfg, s, steps, me).pool.servers == []
  {
    if steps != [] {
      var fewer, e := steps[..|steps| - 1], steps[|steps| - 1];
      hide Enabled;
      if Shuts(fewer) || s.pool.servers == [] {
        ShutPoolIsEmpty(cfg, s, fewer, me);
        hide After;
        if Happens(cfg, AfterOthers(cfg, s, fewer, me), e, me) {
          StepKeepsClients(cfg, AfterOthers(cfg, s, fewer, me), e);
        }
      } else {
        assert forall k :: 0 <= k < |fewer| ==> fewer[k] == steps[k];
        assert e.Shutdown?;
        ShutdownHappens(cfg, AfterOthers(cfg, s, fewer, me), me);
      }
    }
  }

  lemma ShutdownHappens(cfg: Config, s: State, me: nat)
    ensures Happens(cfg, s, Shutdown, me) && After(cfg, s, Shutdown).pool.servers == []
  {
  }

  /** Nothing but a health check, a removal or shutdown disconnects a server. */
  lemma StepKeepsConnected(cfg: Config, s: State, e: Step, i: nat)
    requires Enabled(cfg, s, e) && !Disconnects(e) && Wf(s.pool)
    requires i < |s.pool.servers| && s.pool.servers[i].connected
    ensures i < |After(cfg, s, e).pool.servers| && After(cfg, s, e).pool.servers[i].connected
  {
    if e.Choose? {
      var q := Request(s.handlers[e.id], e.now, e.dial);
      if Select(s.pool, q).chosen.Some? {
        SelectionServes(s.pool, q);
      }
    }
  }

  lemma {:induction false} OthersKeepConnected(cfg: Config, s: State, steps: seq<Step>, me: nat, i: nat)
    requires KeepsConnections(steps) && Wf(s.pool) && WithinCap(s.pool)
    requires i < |s.pool.servers| && s.pool.servers[i].connected
    ensures var t := AfterOthers(cfg, s, steps, me);
      && Wf(t.pool) && WithinCap(t.pool)
      && OthersPlace(cfg, s, steps, me, i) == Some(i)
      && i < |t.pool.servers| && t.pool.servers[i].connected
  {
    hide After, Enabled, Wf, WithinCap;
    if steps != [] {
      var fewer, e := steps[..|steps| - 1], steps[|steps| - 1];
      assert !Disconnects(e);
      OthersKeepConnected(cfg, s, fewer, me, i);
      var before := AfterOthers(cfg, s, fewer, me);
      if Happens(cfg, before, e, me) {
        StepKeepsPool(cfg, before, e);
        StepKeepsConnected(cfg, before, e, i);
      }
    }
  }

  // ---------- one request ----------

  /** What the world does around one try: steps of others, the wait for the lock, outcomes of the network. */
  datatype Attempt = Attempt(before: seq<Step>, waited: nat, dial: nat -> bool, during: seq<Step>,
                             targetAnswers: bool, meanwhile: seq<Step>, reportedAfter: nat)

  /** The place of the server that a selection takes. */
  function TakenPlace(s: State, e: Step): Option<nat>
    requires e.Choose?
  {
    if e.id in s.handlers then Select(s.pool, Request(s.handlers[e.id], e.now, e.dial)).chosen else None
  }

  /** How a try ends: the state, whether there was a client, and whether it leads to the target. */
  datatype Tried = Tried(state: State, taken: bool, ok: bool)

  function Asked(cfg: Config, s: State, me: nat, a: Attempt): State {
    AfterOthers(cfg, s, a.before, me)
  }

  function Asking(s: State, me: nat, a: Attempt): Step {
    Choose(me, s.clock + a.waited, a.dial)
  }

  function Failing(cfg: Config, s: State, me: nat, waited: nat): State {
    Made(cfg, s, Fail(me, s.clock + waited))
  }

  /** From the selection of the server at place `i` on. */
  function Used(cfg: Config, s: State, me: nat, i: nat, a: Attempt): Tried {
    var t := AfterOthers(cfg, s, a.during, me);
    if !StaysUp(cfg, s, a.during, me, i) then Tried(Failing(cfg, t, me, a.reportedAfter), true, false)
    else if a.targetAnswers then Tried(t, true, true)
    else Tried(Failing(cfg, AfterOthers(cfg, t, a.meanwhile, me), me, a.reportedAfter), true, false)
  }

  function Try(cfg: Config, s: State, me: nat, a: Attempt): Tried {
    var t := Asked(cfg, s, me, a);
    var e := Asking(t, me, a);
    var place := TakenPlace(t, e);
    if place == None then Tried(Made(cfg, t, e), false, false) else Used(cfg, Made(cfg, t, e), me, place.value, a)
  }

  /** The start of a request and its first `n` tries. */
  function AfterTries(cfg: Config, s: State, me: nat, world: nat -> Attempt, n: nat): State {
    if n == 0 then Made(cfg, s, Begin(me)) else Try(cfg, AfterTries(cfg, s, me, world, n - 1), me, world(n - 1)).state
  }

  lemma TriesGoOn(cfg: Config, s: State, me: nat, world: nat -> Attempt, n: nat)
    ensures AfterTries(cfg, s, me, world, n + 1) == Try(cfg, AfterTries(cfg, s, me, world, n), me, world(n)).state
  {
  }

  /** A request that took `n` upstreams, of at most `limit`. */
  function AfterRequest(cfg: Config, s: State, me: nat, world: nat -> Attempt, n: nat, limit: nat, served: bool): State
  {
    if served then AfterTries(cfg, s, me, world, n)
    else if n < limit then AfterTries(cfg, s, me, world, n + 1)
    else Made(cfg, AfterTries(cfg, s, me, world, n), GiveUp(me))
  }

  function Ending(cfg: Config, s: State, me: nat, suspicious: bool, waited: nat): State {
    Made(cfg, s, EndTunnel(me, suspicious, s.clock + waited))
  }

  /** A request, and if it was served the tunnel and its report. */
  function AfterConnection(cfg: Config, s: State, me: nat, world: nat -> Attempt, n: nat, limit: nat, served: bool,
                           tunnel: seq<Step>, suspicious: bool, waited: nat): State
  {
    var t := AfterRequest(cfg, s, me, world, n, limit, served);
    if served then Ending(cfg, AfterOthers(cfg, t, tunnel, me), me, suspicious, waited) else t
  }

  /** A try whose target answers succeeds if only connections stay, and no try succeeds after a shutdown. */
  lemma UseOutcome(cfg: Config, s: State, me: nat, i: nat, a: Attempt)
    requires Wf(s.pool) && WithinCap(s.pool) && i < |s.pool.servers| && s.pool.servers[i].connected
    ensures var o := Used(cfg, s, me, i, a);
      && (o.ok <==> a.targetAnswers && StaysUp(cfg, s, a.during, me, i))
      && (o.ok ==> !Shuts(a.during))
      && (a.targetAnswers && KeepsConnections(a.during) ==> o.ok)
  {
    if Shuts(a.during) {
      ShutPoolIsEmpty(cfg, s, a.during, me);
    }
    if KeepsConnections(a.during) {
      OthersKeepConnected(cfg, s, a.during, me, i);
    }
  }

  // ---------- the handler's part ----------

  /** What a selection leaves of its handler, and the server it takes. */
  lemma ChoiceServes(cfg: Config, s: State, e: Step)
    requires Enabled(cfg, s, e) && e.Choose? && Wf(s.pool)
    ensures var h, t, place := s.handlers[e.id], After(cfg, s, e), TakenPlace(s, e);
      && e.id in t.handlers
      && (place == None ==> t.handlers[e.id] == h.(phase := Finished))
      && (place.Some? ==>
           && place.value < |s.pool.servers| == |t.pool.servers| && t.pool.servers[place.value].connected
           && t.handlers[e.id] == h.(phase := Holding(s.pool.servers[place.value].addr),
                                     tried := h.tried + [s.pool.servers[place.value].addr]))
  {
    ChoiceOutcome(s, e.id, e.now, e.dial);
    if TakenPlace(s, e).Some? {
      SelectionServes(s.pool, Request(s.handlers[e.id], e.now, e.dial));
    }
  }

  lemma FailureEndsTry(cfg: Config, s: State, me: nat, waited: nat)
    requires Holds(s, me)
    ensures Failing(cfg, s, me, waited).handlers == s.handlers[me := s.handlers[me].(phase := Ready)]
  {
  }

  lemma UsedHandler(cfg: Config, s: State, me: nat, i: nat, a: Attempt)
    requires Holds(s, me)
    ensures var o, h := Used(cfg, s, me, i, a), s.handlers[me];
      o.taken && me in o.state.handlers && o.state.handlers[me] == if o.ok then h else h.(phase := Ready)
  {
    hide AfterOthers, Failing, StaysUp;
    OthersKeepHandler(cfg, s, a.during, me);
    var t := AfterOthers(cfg, s, a.during, me);
    OthersKeepHandler(cfg, t, a.meanwhile, me);
    FailureEndsTry(cfg, t, me, a.reportedAfter);
    FailureEndsTry(cfg, AfterOthers(cfg, t, a.meanwhile, me), me, a.reportedAfter);
  }

  lemma BeginOf(cfg: Config, s: State, me: nat)
    requires InPhase(s, me, Starting)
    ensures Enabled(cfg, s, Begin(me)) && Made(cfg, s, Begin(me)).pool == s.pool
    ensures Made(cfg, s, Begin(me)).handlers == s.handlers[me := s.handlers[me].(
      phase := Ready, limit := MaxUpstreams(cfg.retryUpstreams, |s.pool.servers|))]
  {
  }

  lemma GiveUpEnds(cfg: Config, s: State, me: nat)
    requires InPhase(s, me, Ready) && |s.handlers[me].tried| >= s.handlers[me].limit
    ensures Enabled(cfg, s, GiveUp(me)) && Made(cfg, s, GiveUp(me)).pool == s.pool
    ensures Made(cfg, s, GiveUp(me)).handlers == s.handlers[me := s.handlers[me].(phase := Finished)]
  {
  }

  lemma TunnelEnds(cfg: Config, s: State, me: nat, suspicious: bool, waited: nat)
    requires Holds(s, me) && s.handlers[me].target != ""
    ensures var h, t := s.handlers[me], Ending(cfg, s, me, suspicious, waited);
      && t.handlers == s.handlers[me := h.(phase := Finished)]
      && (Key(h.phase.up, h.target) in t.pool.failures <==> suspicious)
  {
  }

  lemma AcceptOf(cfg: Config, s: State, id: nat, host: string, port: int)
    requires Enabled(cfg, s, Accept(id, host, port))
    ensures Made(cfg, s, Accept(id, host, port)).handlers
      == s.handlers[id := Handler(HostPort(host, port), 0, [], Starting)]
  {
  }

  // ---------- the steps of a request ----------

  /** The steps of a try that got this answer from the selector and ended well or not. */
  function StepsOfTry(me: nat, a: Attempt, found: bool, ok: bool): seq<Step> {
    [Choose(me, 0, a.dial)] + if found && !ok then [Fail(me, 0)] else []
  }

  predicate LeavesPool(a: Attempt) {
    KeepsPool(a.before) && KeepsPool(a.during) && KeepsPool(a.meanwhile)
  }

  /** The other goroutines leave the membership of the pool alone throughout. */
  ghost predicate PoolStays(world: nat -> Attempt) {
    forall i: nat :: LeavesPool(world(i))
  }

  /** The start of a request and its first `n` tries, all of them failed. */
  function FailedTries(me: nat, world: nat -> Attempt, n: nat): seq<Step> {
    if n == 0 then [Begin(me)] else FailedTries(me, world, n - 1) + StepsOfTry(me, world(n - 1), true, false)
  }

  /** The steps of a request that tried `n` upstreams, of at most `limit`. */
  function StepsOfRequest(me: nat, world: nat -> Attempt, n: nat, limit: nat, served: bool): seq<Step> {
    if served && n > 0 then FailedTries(me, world, n - 1) + StepsOfTry(me, world(n - 1), true, true)
    else if n < limit then FailedTries(me, world, n) + StepsOfTry(me, world(n), false, false)
    else FailedTries(me, world, n) + [GiveUp(me)]
  }

  /** None of the first `n` tries had a target that answers over a connection that stayed. */
  ghost predicate AllFailed(world: nat -> Attempt, n: nat) {
    forall i :: 0 <= i < n && world(i).targetAnswers ==> !KeepsConnections(world(i).during)
  }

  /** The steps of a request, and the report after its tunnel if there was one. */
  function StepsOfConnection(me: nat, world: nat -> Attempt, n: nat, limit: nat, served: bool, suspicious: bool)
    : seq<Step>
  {
    StepsOfRequest(me, world, n, limit, served) + if served then [EndTunnel(me, suspicious, 0)] else []
  }

  function SelectionCount(steps: seq<Step>): nat {
    if steps == [] then 0
    else SelectionCount(steps[..|steps| - 1]) + (if steps[|steps| - 1].Choose? then 1 else 0)
  }

  function ReportCount(steps: seq<Step>): nat {
    if steps == [] then 0
    else
      var last := steps[|steps| - 1];
      ReportCount(steps[..|steps| - 1]) + (if last.Fail? || last.EndTunnel? then 1 else 0)
  }

  lemma OneMoreCounted(steps: seq<Step>, e: Step)
    ensures SelectionCount(steps + [e]) == SelectionCount(steps) + (if e.Choose? then 1 else 0)
    ensures ReportCount(steps + [e]) == ReportCount(steps) + (if e.Fail? || e.EndTunnel? then 1 else 0)
  {
    assert (steps + [e])[..|steps|] == steps;
  }

  lemma {:induction false} FailedTriesCount(me: nat, world: nat -> Attempt, n: nat)
    ensures SelectionCount(FailedTries(me, world, n)) == ReportCount(FailedTries(me, world, n)) == n
  {
    if n == 0 {
      OneMoreCounted([], Begin(me));
    } else {
      FailedTriesCount(me, world, n - 1);
      var before, first := FailedTries(me, world, n - 1), Choose(me, 0, world(n - 1).dial);
      OneMoreCounted(before, first);
      OneMoreCounted(before + [first], Fail(me, 0));
      assert before + [first] + [Fail(me, 0)] == FailedTries(me, world, n);
    }
  }

  /** A connection that tried `n` upstreams makes `n` reports, and at most one selection more. */
  lemma EachTryIsReportedOnce(me: nat, world: nat -> Attempt, n: nat, limit: nat, served: bool, suspicious: bool)
    requires n <= limit && (served ==> n > 0)
    ensures var steps := StepsOfConnection(me, world, n, limit, served, suspicious);
      ReportCount(steps) == n && SelectionCount(steps) == n + (if !served && n < limit then 1 else 0)
  {
    if served {
      FailedTriesCount(me, world, n - 1);
      var before, last := FailedTries(me, world, n - 1), Choose(me, 0, world(n - 1).dial);
      OneMoreCounted(before, last);
      OneMoreCounted(before + [last], EndTunnel(me, suspicious, 0));
      assert before + [last] + [EndTunnel(me, suspicious, 0)]
        == StepsOfConnection(me, world, n, limit, served, suspicious);
    } else {
      FailedTriesCount(me, world, n);
      var before, last := FailedTries(me, world, n), if n < limit then Choose(me, 0, world(n).dial) else GiveUp(me);
      OneMoreCounted(before, last);
      assert before + [last] == StepsOfConnection(me, world, n, limit, served, suspicious);
    }
  }
}
