/**
 When a running loadbalance program misses a server that is connected and free: the witness is a
 program that serves one request after the other until the counter's scan wraps.
 */
module MissedServer {
  import opened Basics
  import opened Addresses
  import opened CyclicScan
  import opened Selector
  import opened SelectorLaws
  import opened Protocol
  import opened ProtocolLaws
  import opened Startup
  import opened Overlap
  import opened Requests
  import opened LoadBalanceRuns

  /** After this run every selection that can be made succeeds whenever some server is connected and free. */
  ghost predicate FindsServiceable(cfg: Config, s: State, run: seq<Step>) {
    Possible(cfg, s, run) && KeepsPool(run) ==>
      var t := Final(cfg, s, run).value;
      forall e: Step ::
        e.Choose? && Enabled(cfg, t, e) && HasServiceable(t.pool, Request(t.handlers[e.id], e.now, e.dial)) ==>
          TakenPlace(t, e).Some?
  }

  /** With `n` servers loadbalance never misses one, in any run from any startup with all of them kept. */
  ghost predicate RunsNeverMiss(cfg: Config, n: nat) {
    forall lines, maxActive, dial, clock, run :: |FileAddrs(lines)| == n ==>
      FindsServiceable(cfg, FileStart(lines, LoadBalance, maxActive, dial, clock), run)
  }

  lemma WholeRunFinds(cfg: Config, s: State, run: seq<Step>, n: nat)
    requires 0 < n && TWO_TO_32 % n == 0
    requires Initial(s) && s.pool.strategy == LoadBalance && |s.pool.servers| == n
    ensures FindsServiceable(cfg, s, run)
  {
    hide Inv, Initial, Wf, WithinCap, Select, HasServiceable, NeverMisses;
    if Possible(cfg, s, run) && KeepsPool(run) {
      InitialInv(cfg, s);
      RunCountsOn(cfg, s, run, n, s.pool.index);
      var t := Final(cfg, s, run).value;
      InvWf(cfg, t);
      forall e: Step | e.Choose? && Enabled(cfg, t, e)
        && HasServiceable(t.pool, Request(t.handlers[e.id], e.now, e.dial)) ensures TakenPlace(t, e).Some?
      {
        NeverMissesIff(t.pool.index, n);
        MissesNot(t.pool, Request(t.handlers[e.id], e.now, e.dial));
      }
    }
  }

  lemma InvWf(cfg: Config, s: State)
    requires Inv(cfg, s)
    ensures Wf(s.pool) && s.pool.index < TWO_TO_32
  {
  }

  lemma MissesNot(p: Pool, q: Query)
    requires Wf(p) && p.strategy == LoadBalance && NeverMisses(p.index, |p.servers|) && HasServiceable(p, q)
    ensures Select(p, q).chosen.Some?
  {
  }

  // ---------- a program with one connected server ----------

  /** A servers file with the hosts 0, 1, up to `n` - 1. */
  function HostLines(n: nat): seq<string> {
    if n == 0 then [] else HostLines(n - 1) + [Digits(n - 1)]
  }

  function HostAddrs(n: nat): (addrs: seq<string>)
    ensures |addrs| == n
  {
    if n == 0 then [] else HostAddrs(n - 1) + [HostPort(Digits(n - 1), 22)]
  }

  lemma {:induction false} HostLinesName(n: nat)
    ensures FileAddrs(HostLines(n)) == HostAddrs(n)
  {
    hide Digits, HostPort;
    if n > 0 {
      HostLinesName(n - 1);
      var lines := HostLines(n);
      assert lines[..|lines| - 1] == HostLines(n - 1);
      HostLineNames(n - 1);
    }
  }

  lemma HostLineNames(j: nat)
    ensures NamesServer(Digits(j)) && LineAddr(Digits(j)) == HostPort(Digits(j), 22)
  {
    assert Digits(j)[0] in Digits(j);
    SplitWithoutSeparator(Digits(j), ':');
  }

  /** Only the server at place `i` can be connected to. */
  function OnlyDial(i: nat): nat -> bool {
    (j: nat) => j == i
  }

  function OneStart(n: nat, i: nat): State {
    StartState(HostAddrs(n), LoadBalance, 1, OnlyDial(i), 1)
  }

  /** Only the server at place `i` is connected, and `r` requests have taken it. */
  function OneUp(n: nat, i: nat, r: nat): Pool {
    Pool(seq(n, j requires 0 <= j < n => OneOfThem(HostAddrs(n)[j], j == i, r)),
         r % TWO_TO_32, LoadBalance, 1, 0, false, map[])
  }

  function OneOfThem(addr: string, up: bool, r: nat): Upstream {
    Upstream(addr, up, up, if up then r % TWO_TO_64 else 0, 0, 0)
  }

  function ServedRounds(r: nat): seq<Step> {
    if r == 0 then []
    else
      ServedRounds(r - 1) + [Accept(0, "t", 80)] + [Begin(0)] + [Choose(0, 1, NO_DIAL)] + [EndTunnel(0, false, 1)]
        + [Release(0)]
  }

  function AfterServed(n: nat, i: nat, r: nat): State {
    State(OneUp(n, i, r), [], map[], 1, r, 0)
  }

  lemma {:induction false} OneConnectable(i: nat, m: nat)
    ensures Connectable(OnlyDial(i), m) == if m <= i then 0 else 1
  {
    if m > 0 {
      OneConnectable(i, m - 1);
    }
  }

  lemma StartsOneUp(n: nat, i: nat)
    requires i < n
    ensures OneStart(n, i) == AfterServed(n, i, 0)
  {
    var p := OneStart(n, i).pool;
    forall j | 0 <= j < n ensures p.servers[j] == OneUp(n, i, 0).servers[j] {
      OneConnectable(i, j);
    }
    assert p.servers == OneUp(n, i, 0).servers;
  }

  lemma OneUpIsFull(n: nat, i: nat, r: nat)
    requires i < n
    ensures Wf(OneUp(n, i, r)) && !MayDial(OneUp(n, i, r))
  {
    TotalSplit(OneUp(n, i, r).servers, i, CONNECTED);
  }

  lemma OnlyOneAccepts(n: nat, i: nat, r: nat, q: Query, j: nat)
    requires i < n && q.exclude == {}
    ensures Accepts(OneUp(n, i, r), q, j) <==> Order(OneUp(n, i, r), j) == i
  {
    OneUpIsFull(n, i, r);
  }

  lemma OneWins(n: nat, i: nat, r: nat, q: Query)
    requires i < n && r < TWO_TO_32 && ScanIsWhole(r, n) && q.exclude == {}
    ensures var p := OneUp(n, i, r); Winner(p, q) < n && Order(p, Winner(p, q)) == i
  {
    var p := OneUp(n, i, r);
    Remainder(r, TWO_TO_32, 0, r);
    OneUpIsFull(n, i, r);
    OrderIsPermutation(p);
    hide Order, Accepts, OneUp, ScanIsWhole, Place;
    OnlyOneAccepts(n, i, r, q, Place(p, i));
    OnlyOneAccepts(n, i, r, q, Winner(p, q));
  }

  /** While the scan is whole the one connected server is taken ... */
  lemma OneIsTaken(n: nat, i: nat, r: nat)
    requires i < n && r < TWO_TO_32 && ScanIsWhole(r, n)
    ensures var sel := Select(OneUp(n, i, r), Query(TARGET, {}, 1, NO_DIAL));
      sel.chosen == Some(i) && sel.pool == OneUp(n, i, r + 1)
  {
    hide Winner, Order, DroppedKeys, RefusedAddrs, ScanIsWhole, Marked, EnsuredConnected, OneOfThem, HostAddrs;
    var p, q := OneUp(n, i, r), Query(TARGET, {}, 1, NO_DIAL);
    OneWins(n, i, r, q);
    OneIsMarked(n, i, r);
    assert p.failures - DroppedKeys(p, q, Winner(p, q) + 1) == map[];
  }

  lemma OneIsMarked(n: nat, i: nat, r: nat)
    requires i < n
    ensures var us := OneUp(n, i, r).servers;
      us[i := Marked(EnsuredConnected(us[i], true))] == OneUp(n, i, r + 1).servers
    ensures (r % TWO_TO_32 + 1) % TWO_TO_32 == (r + 1) % TWO_TO_32
  {
    CountsOn(0, r);
  }

  /** ... and at a counter where it is not, the server it leaves out is missed. */
  lemma OneIsMissed(n: nat, i: nat, r: nat)
    requires i < n && r < TWO_TO_32 && forall k: nat :: k < n ==> VisitIndex(r, n, k) != i
    ensures var p, q := OneUp(n, i, r), Query(TARGET, {}, 1, NO_DIAL);
      Select(p, q).chosen == None && HasServiceable(p, q)
  {
    var p, q := OneUp(n, i, r), Query(TARGET, {}, 1, NO_DIAL);
    Remainder(r, TWO_TO_32, 0, r);
    forall j: nat | j < n ensures !Accepts(p, q, j) {
      OnlyOneAccepts(n, i, r, q, j);
    }
    assert Serviceable(p, q, i);
  }

  // ---------- its run ----------

  /** The states of round `r`: about to select, in the tunnel, and finished. */
  function Waiting(cfg: Config, n: nat, i: nat, r: nat): State {
    AfterServed(n, i, r).(handlers := map[0 := Handler(TARGET, MaxUpstreams(cfg.retryUpstreams, n), [], Ready)])
  }

  function HandlerOf(cfg: Config, n: nat, i: nat, phase: Phase): Handler
    requires i < n
  {
    Handler(TARGET, MaxUpstreams(cfg.retryUpstreams, n), [HostAddrs(n)[i]], phase)
  }

  function Tunnelled(cfg: Config, n: nat, i: nat, r: nat): State
    requires i < n
  {
    State(OneUp(n, i, r + 1), [], map[0 := HandlerOf(cfg, n, i, Holding(HostAddrs(n)[i]))], 1, r, 0)
  }

  function Answered(cfg: Config, n: nat, i: nat, r: nat): State
    requires i < n
  {
    AfterServed(n, i, r + 1).(handlers := map[0 := HandlerOf(cfg, n, i, Finished)])
  }

  lemma RoundBegins(cfg: Config, n: nat, i: nat, r: nat)
    requires cfg.capacity >= 1
    ensures var s, e1, e2 := AfterServed(n, i, r), Accept(0, "t", 80), Begin(0);
      && Enabled(cfg, s, e1) && Enabled(cfg, After(cfg, s, e1), e2)
      && After(cfg, After(cfg, s, e1), e2) == Waiting(cfg, n, i, r)
  {
    var s1 := After(cfg, AfterServed(n, i, r), Accept(0, "t", 80));
    assert s1.handlers == map[0 := Handler(TARGET, 0, [], Starting)];
    assert After(cfg, s1, Begin(0)).handlers == Waiting(cfg, n, i, r).handlers;
  }

  /** What the waiting request asks for. */
  lemma WaitingAsks(cfg: Config, n: nat, i: nat, r: nat)
    ensures var s, e := Waiting(cfg, n, i, r), Choose(0, 1, NO_DIAL);
      && Enabled(cfg, s, e) && s.pool == OneUp(n, i, r)
      && Request(s.handlers[0], 1, NO_DIAL) == Query(TARGET, {}, 1, NO_DIAL)
      && TakenPlace(s, e) == Select(OneUp(n, i, r), Query(TARGET, {}, 1, NO_DIAL)).chosen
  {
    hide Select, OneUp;
    assert Elements<string>([]) == {};
    assert Request(Waiting(cfg, n, i, r).handlers[0], 1, NO_DIAL) == Query(TARGET, {}, 1, NO_DIAL);
  }

  lemma OneHasAddr(n: nat, i: nat, r: nat)
    requires i < n
    ensures |OneUp(n, i, r).servers| == n && OneUp(n, i, r).servers[i].addr == HostAddrs(n)[i]
  {
  }

  lemma RoundSelects(cfg: Config, n: nat, i: nat, r: nat)
    requires i < n && r < TWO_TO_32 && ScanIsWhole(r, n)
    ensures var s, e := Waiting(cfg, n, i, r), Choose(0, 1, NO_DIAL);
      Enabled(cfg, s, e) && After(cfg, s, e) == Tunnelled(cfg, n, i, r)
  {
    hide Select, OneUp, ScanIsWhole;
    OneIsTaken(n, i, r);
    WaitingAsks(cfg, n, i, r);
    OneHasAddr(n, i, r);
    assert [] + [HostAddrs(n)[i]] == [HostAddrs(n)[i]];
  }

  lemma RoundReports(cfg: Config, n: nat, i: nat, r: nat)
    requires i < n
    ensures var s, e := Tunnelled(cfg, n, i, r), EndTunnel(0, false, 1);
      Enabled(cfg, s, e) && After(cfg, s, e) == Answered(cfg, n, i, r)
  {
    var t := After(cfg, Tunnelled(cfg, n, i, r), EndTunnel(0, false, 1));
    assert t.handlers == map[0 := HandlerOf(cfg, n, i, Finished)];
    assert t.pool.failures == map[];
  }

  lemma RoundEnds(cfg: Config, n: nat, i: nat, r: nat)
    requires i < n
    ensures var s, e := Answered(cfg, n, i, r), Release(0);
      Enabled(cfg, s, e) && After(cfg, s, e) == AfterServed(n, i, r + 1)
  {
    assert Answered(cfg, n, i, r).handlers - {0} == map[];
  }

  lemma OneRoundServed(cfg: Config, n: nat, i: nat, r: nat)
    requires cfg.capacity >= 1 && i < n && r < TWO_TO_32 && ScanIsWhole(r, n)
    requires Final(cfg, OneStart(n, i), ServedRounds(r)) == Some(AfterServed(n, i, r))
    ensures Final(cfg, OneStart(n, i), ServedRounds(r + 1)) == Some(AfterServed(n, i, r + 1))
  {
    hide After, Enabled, Final, OneStart, AfterServed, Waiting, Tunnelled, Answered, ScanIsWhole;
    var start, run := OneStart(n, i), ServedRounds(r);
    var e1, e2, e3, e4, e5 := Accept(0, "t", 80), Begin(0), Choose(0, 1, NO_DIAL), EndTunnel(0, false, 1), Release(0);
    RoundBegins(cfg, n, i, r);
    RunGrows(cfg, start, run, AfterServed(n, i, r), e1);
    RunGrows(cfg, start, run + [e1], After(cfg, AfterServed(n, i, r), e1), e2);
    RoundSelects(cfg, n, i, r);
    RunGrows(cfg, start, run + [e1] + [e2], Waiting(cfg, n, i, r), e3);
    RoundReports(cfg, n, i, r);
    RunGrows(cfg, start, run + [e1] + [e2] + [e3], Tunnelled(cfg, n, i, r), e4);
    RoundEnds(cfg, n, i, r);
    RunGrows(cfg, start, run + [e1] + [e2] + [e3] + [e4], Answered(cfg, n, i, r), e5);
  }

  lemma NoneServedYet(cfg: Config, n: nat, i: nat)
    requires i < n
    ensures Final(cfg, OneStart(n, i), ServedRounds(0)) == Some(AfterServed(n, i, 0))
  {
    hide OneStart, AfterServed;
    StartsOneUp(n, i);
  }

  lemma {:induction false} RoundsServed(cfg: Config, n: nat, i: nat, r: nat)
    requires cfg.capacity >= 1 && i < n && (r == 0 || r + n <= TWO_TO_32 + 1)
    ensures Final(cfg, OneStart(n, i), ServedRounds(r)) == Some(AfterServed(n, i, r))
  {
    hide Final, OneStart, AfterServed, ServedRounds;
    if r == 0 {
      NoneServedYet(cfg, n, i);
    } else {
      RoundsServed(cfg, n, i, r - 1);
      OneRoundServed(cfg, n, i, r - 1);
    }
  }

  lemma {:induction false} RoundsKeepPool(r: nat)
    ensures KeepsPool(ServedRounds(r))
  {
    if r > 0 {
      RoundsKeepPool(r - 1);
    }
  }

  /** The first counter value whose scan over `n` servers is not whole. */
  function FirstBroken(n: nat): nat {
    if n > TWO_TO_32 then 0 else TWO_TO_32 - n + 1
  }

  /** After that many requests the next one fails, although the connected server is neither excluded nor blocked. */
  lemma SomeRunMisses(cfg: Config, n: nat)
    requires cfg.capacity >= 1 && n > 0 && TWO_TO_32 % n != 0
    ensures !RunsNeverMiss(cfg, n)
  {
    hide Final, After, Enabled, OneStart, AfterServed, ServedRounds, Waiting, HasServiceable, Select, OneUp, KeepsPool,
      TakenPlace, Request, VisitIndex, FileAddrs, HostLines, HostAddrs;
    var r := FirstBroken(n);
    NoDivisor(n);
    var i := UnvisitedServer(r, n);
    var start, run, e1, e2 := OneStart(n, i), ServedRounds(r), Accept(0, "t", 80), Begin(0);
    RoundsServed(cfg, n, i, r);
    RoundBegins(cfg, n, i, r);
    RunGrows(cfg, start, run, AfterServed(n, i, r), e1);
    RunGrows(cfg, start, run + [e1], After(cfg, AfterServed(n, i, r), e1), e2);
    RunKeepsPool(r);
    WaitingAsks(cfg, n, i, r);
    OneIsMissed(n, i, r);
    var more, e := run + [e1] + [e2], Choose(0, 1, NO_DIAL);
    assert !FindsServiceable(cfg, start, more);
    FileOfHosts(n, i);
    assert !FindsServiceable(cfg, FileStart(HostLines(n), LoadBalance, 1, OnlyDial(i), 1), more);
  }

  lemma FileOfHosts(n: nat, i: nat)
    ensures FileStart(HostLines(n), LoadBalance, 1, OnlyDial(i), 1) == OneStart(n, i)
    ensures |FileAddrs(HostLines(n))| == n
  {
    HostLinesName(n);
  }

  lemma NoDivisor(n: nat)
    requires n > 0 && TWO_TO_32 % n != 0
    ensures FirstBroken(n) < TWO_TO_32 && !ScanIsWhole(FirstBroken(n), n)
  {
    if n == 1 {
      Remainder(TWO_TO_32, 1, TWO_TO_32, 0);
    }
  }

  lemma RunKeepsPool(r: nat)
    ensures KeepsPool(ServedRounds(r) + [Accept(0, "t", 80)] + [Begin(0)])
  {
    RoundsKeepPool(r);
  }

  /**
   A running loadbalance program finds a connected, free server whenever there is one, at every
   selection of every run from every startup with `n` servers, exactly if `n` divides 2^32.
   */
  lemma RunsNeverMissIff(cfg: Config, n: nat)
    requires cfg.capacity >= 1 && n > 0
    ensures RunsNeverMiss(cfg, n) <==> TWO_TO_32 % n == 0
  {
    if TWO_TO_32 % n == 0 {
      forall lines, maxActive, dial, clock, run | |FileAddrs(lines)| == n
        ensures FindsServiceable(cfg, FileStart(lines, LoadBalance, maxActive, dial, clock), run)
      {
        StartupIsInitial(FileAddrs(lines), LoadBalance, maxActive, dial, clock);
        WholeRunFinds(cfg, FileStart(lines, LoadBalance, maxActive, dial, clock), run, n);
      }
    } else {
      SomeRunMisses(cfg, n);
    }
  }
}
