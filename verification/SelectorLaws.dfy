/** What the steps of the selector guarantee, for every pool and every outcome of the network. */
module SelectorLaws {
  import opened Basics
  import opened CyclicScan
  import opened FailureTable
  import opened Selector

  // ---------- totals over a pool ----------

  lemma {:induction false} TotalConcat(a: seq<Upstream>, b: seq<Upstream>, weight: Upstream -> nat)
    ensures Total(a + b, weight) == Total(a, weight) + Total(b, weight)
  {
    if b == [] {
      assert a + b == a;
    } else {
      var last := |b| - 1;
      assert (a + b)[..|a + b| - 1] == a + b[..last];
      TotalConcat(a, b[..last], weight);
    }
  }

  lemma TotalSplit(us: seq<Upstream>, i: nat, weight: Upstream -> nat)
    requires i < |us|
    ensures Total(us, weight) == Total(us[..i], weight) + weight(us[i]) + Total(us[i + 1..], weight)
  {
    assert us == us[..i] + [us[i]] + us[i + 1..];
    TotalConcat(us[..i] + [us[i]], us[i + 1..], weight);
    TotalConcat(us[..i], [us[i]], weight);
    assert [us[i]][..0] == [];
    assert Total([us[i]], weight) == Total([], weight) + weight(us[i]);
  }

  lemma TotalUpdate(us: seq<Upstream>, i: nat, u: Upstream, weight: Upstream -> nat)
    requires i < |us|
    ensures Total(us[i := u], weight) + weight(us[i]) == Total(us, weight) + weight(u)
  {
    TotalSplit(us, i, weight);
    TotalSplit(us[i := u], i, weight);
    assert us[i := u][..i] == us[..i] && us[i := u][i + 1..] == us[i + 1..];
  }

  /** Pointwise smaller weights have the smaller total. */
  lemma {:induction false} TotalMonotone(us: seq<Upstream>, vs: seq<Upstream>, weight: Upstream -> nat)
    requires |us| == |vs| && forall i :: 0 <= i < |us| ==> weight(us[i]) <= weight(vs[i])
    ensures Total(us, weight) <= Total(vs, weight)
  {
    if us != [] {
      TotalMonotone(us[..|us| - 1], vs[..|vs| - 1], weight);
    }
  }

  lemma {:induction false} TotalEqual(us: seq<Upstream>, vs: seq<Upstream>, weight: Upstream -> nat)
    requires |us| == |vs| && forall i :: 0 <= i < |us| ==> weight(us[i]) == weight(vs[i])
    ensures Total(us, weight) == Total(vs, weight)
  {
    TotalMonotone(us, vs, weight);
    TotalMonotone(vs, us, weight);
  }

  // ---------- the trying order ----------

  function Start(p: Pool): nat {
    if p.strategy == Failover && p.hasActive then p.activeIdx else p.index
  }

  /** Failover always tries the whole pool; loadbalance does unless its scan wraps badly. */
  predicate WholeOrder(p: Pool)
    requires p.servers != []
  {
    p.strategy == LoadBalance ==> ScanIsWhole(p.index, |p.servers|)
  }

  /** The place of server `i` in the trying order. */
  function Place(p: Pool, i: nat): (j: nat)
    requires i < |p.servers|
    ensures j < |p.servers|
  {
    TurnTo(Start(p), |p.servers|, i)
  }

  lemma WholeOrderIsCyclic(p: Pool, j: nat)
    requires Wf(p) && j < |p.servers| && WholeOrder(p)
    ensures Order(p, j) == (Start(p) + j) % |p.servers|
  {
    if p.strategy == LoadBalance {
      WholeScanIsCyclic(p.index, |p.servers|, j);
    }
  }

  /** The trying order is a permutation: it reaches every server, and none twice. */
  lemma OrderIsPermutation(p: Pool)
    requires Wf(p) && p.servers != [] && WholeOrder(p)
    ensures forall i :: 0 <= i < |p.servers| ==> Order(p, Place(p, i)) == i
    ensures forall j :: 0 <= j < |p.servers| ==> Place(p, Order(p, j)) == j
  {
    var n := |p.servers|;
    forall i | 0 <= i < n ensures Order(p, Place(p, i)) == i {
      WholeOrderIsCyclic(p, Place(p, i));
    }
    forall j | 0 <= j < n ensures Place(p, Order(p, j)) == j {
      var k := Place(p, Order(p, j));
      WholeOrderIsCyclic(p, j);
      if j < k {
        RemaindersDiffer(Start(p) + j, Start(p) + k, n);
      } else if k < j {
        RemaindersDiffer(Start(p) + k, Start(p) + j, n);
      }
    }
  }

  // ---------- selection ----------

  /**
   The server can serve the request: it has not been tried, no block of it for this target still
   stands, and it is connected, or there is room for one more connection and it connects now.
   */
  predicate Usable(p: Pool, q: Query, i: nat)
    requires i < |p.servers|
  {
    var u, key := p.servers[i], p.servers[i].addr + "|" + q.target;
    && u.addr !in q.exclude
    && (q.target != "" && key in p.failures ==> p.failures[key].blockedUntil <= q.now)
    && (u.connected
        || ((p.strategy == Failover || ConnectedCount(p.servers) < p.maxActive) && q.dial(Place(p, i))))
  }

  lemma UsableIsAccepted(p: Pool, q: Query)
    requires Wf(p) && p.servers != [] && WholeOrder(p)
    ensures forall i :: 0 <= i < |p.servers| ==> (Usable(p, q, i) <==> Accepts(p, q, Place(p, i)))
    ensures forall j :: 0 <= j < |p.servers| ==> (Usable(p, q, Order(p, j)) <==> Accepts(p, q, j))
  {
    OrderIsPermutation(p);
    hide Place, WholeOrder;
    forall i | 0 <= i < |p.servers| ensures Usable(p, q, i) <==> Accepts(p, q, Place(p, i)) {
      assert Order(p, Place(p, i)) == i;
    }
    forall j | 0 <= j < |p.servers| ensures Usable(p, q, Order(p, j)) <==> Accepts(p, q, j) {
      assert Place(p, Order(p, j)) == j;
    }
  }

  /**
   A selection over a whole order picks the usable server that comes first in cyclic order
   from the start, and fails if and only if no server of the pool is usable.
   */
  lemma SelectionIsFirstUsable(p: Pool, q: Query)
    requires Wf(p) && p.servers != [] && WholeOrder(p)
    ensures var c := Select(p, q).chosen;
      && (c == None <==> forall i :: 0 <= i < |p.servers| ==> !Usable(p, q, i))
      && (c.Some? ==> c.value < |p.servers| && Usable(p, q, c.value))
      && (c.Some? ==> forall i :: 0 <= i < |p.servers| && Usable(p, q, i) ==> Place(p, c.value) <= Place(p, i))
  {
    hide Usable, Accepts, Order, Place, WholeOrder;
    OrderIsPermutation(p);
    UsableIsAccepted(p, q);
    var k := Winner(p, q);
    if k < |p.servers| {
      assert Place(p, Order(p, k)) == k;
      assert Usable(p, q, Order(p, k));
    }
  }

  /** What the caller holds after a successful selection, and what the pool kept. */
  lemma SelectionServes(p: Pool, q: Query)
    requires Wf(p) && Select(p, q).chosen.Some?
    ensures var s, i := Select(p, q).pool, Select(p, q).chosen.value;
      && i < |p.servers| && |s.servers| == |p.servers|
      && s.servers[i].connected && s.servers[i].healthy
      && s.servers[i].addr == p.servers[i].addr && p.servers[i].addr !in q.exclude
      && !Blocked(p.failures, p.servers[i].addr, q.target, q.now)
      && (q.target != "" ==> Key(p.servers[i].addr, q.target) !in s.failures)
      && s.servers[i].selected == Increment(p.servers[i].selected)
      && s.servers == p.servers[i := s.servers[i]]
      && (p.strategy == Failover ==> s.hasActive && s.activeIdx == i)
  {
    var k := Winner(p, q);
    assert k < |p.servers| && Accepts(p, q, k);
  }

  /** A selection only ever forgets entries of the failure table. */
  lemma SelectionForgets(p: Pool, q: Query)
    ensures var t := Select(p, q).pool.failures;
      forall key :: key in t ==> key in p.failures && t[key] == p.failures[key]
  {
  }

  /** The counters of the client that a selection hands out. */
  lemma ServedClientCounts(p: Pool, q: Query)
    requires Wf(p) && Select(p, q).chosen.Some?
    ensures var i := Select(p, q).chosen.value;
      var was, now := p.servers[i], Select(p, q).pool.servers[i];
      && now.selected == (was.selected + 1) % 0x1_0000_0000_0000_0000
      && now.reconnects == (if was.connected then was.reconnects else (was.reconnects + 1) % 0x1_0000_0000_0000_0000)
      && now.checks == was.checks
  {
    var k := Winner(p, q);
    assert k < |p.servers| && Accepts(p, q, k);
  }

  /** A selection that finds nothing changes no client, and in failover leaves nothing active. */
  lemma FailedSelection(p: Pool, q: Query)
    requires Wf(p) && Select(p, q).chosen == None
    ensures Select(p, q).pool.servers == p.servers && !Select(p, q).pool.hasActive
    ensures p.servers == [] ==> Select(p, q).pool.failures == p.failures && Select(p, q).refused == []
  {
  }

  /** The counter moves on by one, except while failover has an active server, or without servers. */
  lemma SelectionMovesCounter(p: Pool, q: Query)
    requires Wf(p)
    ensures Select(p, q).pool.index ==
      if p.servers == [] || (p.strategy == Failover && p.hasActive) then p.index
      else if p.index == 0xFFFF_FFFF then 0 else p.index + 1
  {
  }

  /** The selection has come to the server at place `j`. */
  predicate Looked(p: Pool, q: Query, j: nat)
    requires p.servers != []
  {
    j < |p.servers| && j <= Winner(p, q)
  }

  /** Exactly the entries without a standing block that belong to a server looked at and not excluded are forgotten. */
  lemma ForgottenIff(p: Pool, q: Query, key: string)
    requires key in p.failures
    ensures key !in Select(p, q).pool.failures
      <==> p.servers != [] && q.target != "" && p.failures[key].blockedUntil <= q.now
           && exists j: nat :: Looked(p, q, j) && p.servers[Order(p, j)].addr !in q.exclude
                && key == p.servers[Order(p, j)].addr + "|" + q.target
  {
    if p.servers != [] {
      var k := Winner(p, q);
      var seen := if k < |p.servers| then k + 1 else k;
      if key in DroppedKeys(p, q, seen) {
        var j: nat :| j < seen && Eligible(p, q, Order(p, j)) && Key(p.servers[Order(p, j)].addr, q.target) == key;
        assert Looked(p, q, j);
      }
      if q.target != "" && p.failures[key].blockedUntil <= q.now {
        forall j: nat | Looked(p, q, j) && p.servers[Order(p, j)].addr !in q.exclude
          && key == p.servers[Order(p, j)].addr + "|" + q.target
          ensures key in DroppedKeys(p, q, seen)
        {
          assert Eligible(p, q, Order(p, j));
        }
      }
    }
  }

  lemma SelectionKeepsWf(p: Pool, q: Query)
    requires Wf(p)
    ensures Wf(Select(p, q).pool)
  {
  }

  /** Loadbalance connects a new upstream only below the cap. */
  lemma SelectionKeepsCap(p: Pool, q: Query)
    requires WithinCap(p)
    ensures WithinCap(Select(p, q).pool)
  {
    if p.servers != [] && Winner(p, q) < |p.servers| {
      var i := Order(p, Winner(p, q));
      TotalUpdate(p.servers, i, Marked(EnsuredConnected(p.servers[i], true)), CONNECTED);
    }
  }

  /** A selection makes a connect attempt at place `j` of the trying order. */
  predicate Dials(p: Pool, q: Query, j: nat)
    requires p.servers != []
  {
    && j <= Winner(p, q) && j < |p.servers|
    && Eligible(p, q, Order(p, j)) && !p.servers[Order(p, j)].connected && MayDial(p)
  }

  lemma {:induction false} RefusedPlaces(p: Pool, q: Query, m: nat) returns (js: seq<nat>)
    requires p.servers != []
    ensures Increasing(js) && forall j: nat :: j in js <==> j < m && Refuses(p, q, j)
    ensures |js| == |RefusedAddrs(p, q, m)|
    ensures forall x :: 0 <= x < |js| ==> RefusedAddrs(p, q, m)[x] == p.servers[Order(p, js[x])].addr
  {
    hide Refuses, Order, Increasing;
    js := NoPlaces();
    if m > 0 {
      js := RefusedPlaces(p, q, m - 1);
      if Refuses(p, q, m - 1) {
        OneMorePlace(js, m - 1);
        js := js + [m - 1];
      }
    }
  }

  /**
   The connects reported as refused are exactly those that the selection made and that failed, in
   the order in which it made them.
   */
  lemma RefusedAreTheFailedDials(p: Pool, q: Query) returns (js: seq<nat>)
    requires p.servers != []
    ensures Increasing(js) && forall j: nat :: j in js <==> Dials(p, q, j) && !q.dial(j)
    ensures |js| == |Select(p, q).refused|
    ensures forall x :: 0 <= x < |js| ==> Select(p, q).refused[x] == p.servers[Order(p, js[x])].addr
  {
    var k := Winner(p, q);
    js := RefusedPlaces(p, q, k);
    assert forall j: nat {:trigger Dials(p, q, j)} :: Dials(p, q, j) && !q.dial(j) <==> j < k && Refuses(p, q, j);
  }

  /** Failover stays: while the chosen server remains eligible the next request gets it too, without any dialling. */
  lemma FailoverIsSticky(p: Pool, q: Query, next: Query)
    requires Wf(p) && p.strategy == Failover && Select(p, q).chosen.Some?
    requires Eligible(Select(p, q).pool, next, Select(p, q).chosen.value)
    ensures var s := Select(p, q).pool;
      && Select(s, next).chosen == Select(p, q).chosen
      && s.servers != [] && s.servers[Select(p, q).chosen.value].connected
      && forall j: nat :: !Dials(s, next, j)
  {
    var s, i := Select(p, q).pool, Select(p, q).chosen.value;
    SelectionServes(p, q);
    Remainder(i, |s.servers|, 0, i);
    assert Order(s, 0) == i && Accepts(s, next, 0);
    assert Winner(s, next) == 0;
  }

  // ---------- a wrapped loadbalance scan misses servers ----------

  predicate Serviceable(p: Pool, q: Query, i: nat)
    requires i < |p.servers|
  {
    Eligible(p, q, i) && p.servers[i].connected
  }

  /** Some server of the pool is connected, not excluded and not blocked. */
  ghost predicate HasServiceable(p: Pool, q: Query) {
    exists i :: 0 <= i < |p.servers| && Serviceable(p, q, i)
  }

  /** From this counter value a loadbalance request over `n` servers succeeds whenever it could. */
  ghost predicate NeverMisses(start: nat, n: nat) {
    forall p, q ::
      Wf(p) && p.strategy == LoadBalance && p.index == start && |p.servers| == n && HasServiceable(p, q)
      ==> Select(p, q).chosen.Some?
  }

  lemma UnvisitedServer(start: nat, n: nat) returns (i: nat)
    requires 0 < n && start < TWO_TO_32 && !ScanIsWhole(start, n)
    ensures i < n && forall k: nat :: k < n ==> VisitIndex(start, n, k) != i
  {
    var a, b := WrappedScanRepeats(start, n);
    var visits := seq(n, k requires 0 <= k => VisitIndex(start, n, k));
    var fewer := visits[..b] + visits[b + 1..];
    forall v | v in visits ensures v in fewer {
      var k :| 0 <= k < n && visits[k] == v;
      if k < b { assert fewer[k] == v; }
      else if k > b { assert fewer[k - 1] == v; }
      else { assert fewer[a] == v; }
    }
    var all := seq(n, x => x);
    ElementsOfDistinct(all);
    ElementsAtMost(fewer);
    if Elements(all) <= Elements(fewer) {
      SubsetSize(Elements(all), Elements(fewer));
      assert false;
    }
    i :| i in Elements(all) && i !in Elements(fewer);
    forall k: nat | k < n ensures VisitIndex(start, n, k) != i {
      assert visits[k] in visits;
    }
  }

  /** A pool with the single connected server `i` and no room for another connection. */
  function LonelyPool(start: nat, n: nat, i: nat): (p: Pool)
    requires i < n
    ensures |p.servers| == n
  {
    Pool(seq(n, x => Upstream("u", x == i, x == i, 0, 0, 0)), start, LoadBalance, 1, 0, false, map[])
  }

  /** A connected and free server is found for every pool exactly from the counter values whose scan is whole. */
  lemma NeverMissesIff(start: nat, n: nat)
    requires 0 < n && start < TWO_TO_32
    ensures NeverMisses(start, n) <==> ScanIsWhole(start, n)
  {
    if ScanIsWhole(start, n) {
      forall p, q | Wf(p) && p.strategy == LoadBalance && p.index == start && |p.servers| == n && HasServiceable(p, q)
        ensures Select(p, q).chosen.Some?
      {
        var i :| 0 <= i < n && Serviceable(p, q, i);
        SelectionIsFirstUsable(p, q);
        OrderIsPermutation(p);
        assert Order(p, Place(p, i)) == i;
        assert Usable(p, q, i);
      }
    } else {
      var i := UnvisitedServer(start, n);
      var p, q := LonelyPool(start, n, i), Query("", {}, 0, _ => true);
      assert Serviceable(p, q, i);
      TotalSplit(p.servers, i, CONNECTED);
      assert ConnectedCount(p.servers) >= 1;
      forall j: nat | j < n ensures !Accepts(p, q, j) {
        assert Order(p, j) != i;
      }
      assert Select(p, q).chosen == None;
    }
  }

  // ---------- shares of consecutive loadbalance requests ----------

  /** `pools[j + 1]` is what request `qs[j]` leaves of `pools[j]`. */
  ghost predicate Consecutive(pools: seq<Pool>, qs: seq<Query>) {
    && |pools| == |qs| + 1
    && forall j :: 0 <= j < |qs| ==> pools[j + 1] == Select(pools[j], qs[j]).pool
  }

  /** Which servers can serve does not change from request to request. */
  ghost predicate SteadyAvailability(pools: seq<Pool>, qs: seq<Query>, avail: seq<bool>)
    requires |pools| == |qs| + 1
  {
    forall j, k :: 0 <= j < |qs| && 0 <= k < |avail| && pools[j].servers != [] && |pools[j].servers| == |avail| ==>
      (Accepts(pools[j], qs[j], k) <==> avail[Order(pools[j], k)])
  }

  /** How many of the first `m` requests got server `i`. */
  function Served(pools: seq<Pool>, qs: seq<Query>, i: nat, m: nat): nat
    requires m <= |qs| && m <= |pools|
  {
    if m == 0 then 0
    else Served(pools, qs, i, m - 1) + (if Select(pools[m - 1], qs[m - 1]).chosen == Some(i) then 1 else 0)
  }

  lemma SelectionAdvances(p: Pool, q: Query)
    requires Wf(p) && p.servers != [] && p.strategy == LoadBalance
    ensures var s := Select(p, q).pool;
      && Wf(s) && |s.servers| == |p.servers| && s.strategy == LoadBalance
      && s.index == (p.index + 1) % TWO_TO_32
  {
  }

  lemma CountsOn(x: nat, j: nat)
    ensures ((x + j) % TWO_TO_32 + 1) % TWO_TO_32 == (x + (j + 1)) % TWO_TO_32
  {
    var y, c := (x + j) % TWO_TO_32, (x + j) / TWO_TO_32;
    assert x + (j + 1) == y + 1 + c * TWO_TO_32;
    RemainderShift(y + 1, TWO_TO_32, c);
  }

  lemma {:induction false} CounterAdvances(pools: seq<Pool>, qs: seq<Query>, j: nat)
    requires Consecutive(pools, qs) && j <= |qs|
    requires Wf(pools[0]) && pools[0].strategy == LoadBalance && pools[0].servers != []
    ensures Wf(pools[j]) && pools[j].strategy == LoadBalance && |pools[j].servers| == |pools[0].servers|
    ensures pools[j].index == (pools[0].index + j) % TWO_TO_32
  {
    if j > 0 {
      CounterAdvances(pools, qs, j - 1);
      CountsOn(pools[0].index, j - 1);
      var p, q := pools[j - 1], qs[j - 1];
      assert pools[j - 1 + 1] == Select(p, q).pool;
      SelectionAdvances(p, q);
    } else {
      Remainder(pools[0].index, TWO_TO_32, 0, pools[0].index);
    }
  }

  /** The scans of `m` consecutive requests from this counter value are all whole. */
  predicate ScansAreWhole(start: nat, n: nat, m: nat)
    requires n > 0
  {
    start + m + n <= TWO_TO_32 + 1 || TWO_TO_32 % n == 0
  }

  /** The scan of the request `j` places later is whole. */
  predicate WholeLater(start: nat, n: nat, j: nat)
    requires n > 0
  {
    ScanIsWhole((start + j) % TWO_TO_32, n)
  }

  lemma ScansAreWholeIff(start: nat, n: nat, m: nat)
    requires 0 < n && 0 < m && start < TWO_TO_32
    ensures ScansAreWhole(start, n, m) <==> forall j :: 0 <= j < m ==> WholeLater(start, n, j)
  {
    if !ScansAreWhole(start, n, m) {
      var j := if start + n > TWO_TO_32 then 0 else TWO_TO_32 + 1 - n - start;
      assert n > 1 by {
        if n == 1 {
          Remainder(TWO_TO_32, 1, TWO_TO_32, 0);
        }
      }
      Remainder(start + j, TWO_TO_32, 0, start + j);
      assert !WholeLater(start, n, j);
    } else if TWO_TO_32 % n != 0 {
      forall j | 0 <= j < m ensures WholeLater(start, n, j) {
        Remainder(start + j, TWO_TO_32, 0, start + j);
      }
    }
  }

  lemma OneOfTheScans(start: nat, n: nat, m: nat, avail: seq<bool>, j: nat)
    requires start < TWO_TO_32 && |avail| == n > 0 && ScansAreWhole(start, n, m) && j < m
    ensures ScanIsWhole((start + j) % TWO_TO_32, n)
    ensures Pick(avail, (start + j) % TWO_TO_32) == Pick(avail, start + j)
  {
    hide Pick;
    if TWO_TO_32 % n == 0 {
      PickAfterWrap(avail, start + j);
    } else {
      Remainder(start + j, TWO_TO_32, 0, start + j);
    }
  }

  lemma SelectionIsPick(p: Pool, q: Query, avail: seq<bool>, i: nat)
    requires Wf(p) && p.strategy == LoadBalance && p.servers != [] && |avail| == |p.servers|
    requires ScanIsWhole(p.index, |avail|)
    requires forall k :: 0 <= k < |avail| ==> (Accepts(p, q, k) <==> avail[Order(p, k)])
    requires i < |avail| && avail[i]
    ensures Select(p, q).chosen == Some(Pick(avail, p.index))
  {
    var n, s := |avail|, p.index;
    forall k: nat | k < n ensures Accepts(p, q, k) <==> Up(avail, s + k) {
      WholeScanIsCyclic(s, n, k);
    }
    var k := Winner(p, q);
    assert k < n by {
      OrderIsPermutation(p);
      assert Order(p, Place(p, i)) == i;
      assert Accepts(p, q, Place(p, i));
    }
    forall x | s <= x < s + k ensures !Up(avail, x) {
      assert !Accepts(p, q, x - s);
    }
    NextUpAt(avail, s, s + n, s + k);
    WholeScanIsCyclic(s, n, k);
  }

  lemma {:induction false} ServedIsPicks(pools: seq<Pool>, qs: seq<Query>, avail: seq<bool>, i: nat, m: nat)
    requires Consecutive(pools, qs) && SteadyAvailability(pools, qs, avail) && m <= |qs|
    requires Wf(pools[0]) && pools[0].strategy == LoadBalance
    requires |pools[0].servers| == |avail| && i < |avail| && avail[i]
    requires ScansAreWhole(pools[0].index, |avail|, |qs|)
    ensures Served(pools, qs, i, m) == Picks(avail, i, pools[0].index, m)
  {
    hide Accepts, Order, Select, Pick, Wf, ScanIsWhole;
    if m > 0 {
      ServedIsPicks(pools, qs, avail, i, m - 1);
      CounterAdvances(pools, qs, m - 1);
      WfIndex(pools[0]);
      OneOfTheScans(pools[0].index, |avail|, |qs|, avail, m - 1);
      SelectionIsPick(pools[m - 1], qs[m - 1], avail, i);
      assert pools[0].index + m - 1 == pools[0].index + (m - 1);
    }
  }

  lemma WfIndex(p: Pool)
    requires Wf(p)
    ensures p.index < TWO_TO_32
  {
  }

  /**
   Loadbalance shares are exact: over n consecutive requests on n servers, with availability
   fixed and whole scans, an available server serves one request plus one for each unavailable
   server standing uninterrupted before it.
   */
  lemma LoadBalanceSharesAreExact(pools: seq<Pool>, qs: seq<Query>, avail: seq<bool>, i: nat)
    requires Consecutive(pools, qs) && SteadyAvailability(pools, qs, avail)
    requires Wf(pools[0]) && pools[0].strategy == LoadBalance
    requires |qs| == |pools[0].servers| == |avail| && i < |avail| && avail[i]
    requires ScansAreWhole(pools[0].index, |avail|, |qs|)
    ensures Served(pools, qs, i, |qs|) == 1 + Gap(avail, i)
  {
    ServedIsPicks(pools, qs, avail, i, |qs|);
    ExactShares(avail, i, pools[0].index);
  }

  /** With every server available and whole scans, any number of requests is spread evenly. */
  lemma LoadBalanceSharesAreEven(pools: seq<Pool>, qs: seq<Query>, avail: seq<bool>, i: nat, j: nat)
    requires Consecutive(pools, qs) && SteadyAvailability(pools, qs, avail)
    requires Wf(pools[0]) && pools[0].strategy == LoadBalance
    requires |pools[0].servers| == |avail| && i < |avail| && j < |avail|
    requires forall x :: 0 <= x < |avail| ==> avail[x]
    requires ScansAreWhole(pools[0].index, |avail|, |qs|)
    ensures Served(pools, qs, i, |qs|) <= Served(pools, qs, j, |qs|) + 1
  {
    ServedIsPicks(pools, qs, avail, i, |qs|);
    ServedIsPicks(pools, qs, avail, j, |qs|);
    EvenShares(avail, i, j, pools[0].index, |qs|);
  }

  /** Requests for one target with one excluded set, none of which sees a block begin or end. */
  ghost predicate AlikeRequests(p: Pool, qs: seq<Query>) {
    forall x :: 0 <= x < |qs| ==>
      && qs[x].target == qs[0].target && qs[x].exclude == qs[0].exclude
      && forall i :: 0 <= i < |p.servers| ==>
           Blocked(p.failures, p.servers[i].addr, qs[0].target, qs[x].now)
             == Blocked(p.failures, p.servers[i].addr, qs[0].target, qs[0].now)
  }

  /** `p` serves the target as `p0` does: same connections, no room for more, same blocks at time `now`. */
  ghost predicate ServesAlike(p0: Pool, p: Pool, target: string, now: nat) {
    && Wf(p) && p.strategy == LoadBalance && |p.servers| == |p0.servers|
    && ConnectedCount(p.servers) >= p.maxActive
    && forall i :: 0 <= i < |p.servers| ==>
         && p.servers[i].addr == p0.servers[i].addr && p.servers[i].connected == p0.servers[i].connected
         && Blocked(p.failures, p.servers[i].addr, target, now) == Blocked(p0.failures, p0.servers[i].addr, target, now)
  }

  /** With the cap reached a selection connects nothing and ends no block that still stands. */
  lemma FullSelectionServesAlike(p0: Pool, p: Pool, q: Query, now: nat)
    requires ServesAlike(p0, p, q.target, q.now) && ServesAlike(p0, p, q.target, now)
    requires forall i :: 0 <= i < |p0.servers| ==>
      Blocked(p0.failures, p0.servers[i].addr, q.target, now)
        == Blocked(p0.failures, p0.servers[i].addr, q.target, q.now)
    ensures ServesAlike(p0, Select(p, q).pool, q.target, now)
  {
    SelectionKeepsWf(p, q);
    var s := Select(p, q).pool;
    if Select(p, q).chosen.Some? {
      SelectionServes(p, q);
    }
    TotalEqual(s.servers, p.servers, CONNECTED);
    forall i | 0 <= i < |p.servers|
      ensures Blocked(s.failures, p.servers[i].addr, q.target, now)
        == Blocked(p.failures, p.servers[i].addr, q.target, now)
    {
      var key := Key(p.servers[i].addr, q.target);
      if key in p.failures && key !in s.failures {
        DroppedIsNotBlocked(p, q, key);
      }
    }
  }

  lemma DroppedIsNotBlocked(p: Pool, q: Query, key: string)
    requires key in p.failures && key !in Select(p, q).pool.failures
    ensures p.failures[key].blockedUntil <= q.now
  {
    var k := Winner(p, q);
    var seen := if k < |p.servers| then k + 1 else k;
    assert key in DroppedKeys(p, q, seen);
    var j: nat :| j < seen && Eligible(p, q, Order(p, j)) && Key(p.servers[Order(p, j)].addr, q.target) == key;
  }

  lemma {:induction false} FullPoolServesAlike(pools: seq<Pool>, qs: seq<Query>, j: nat, x: nat)
    requires Consecutive(pools, qs) && AlikeRequests(pools[0], qs) && j <= |qs| && x < |qs|
    requires Wf(pools[0]) && pools[0].strategy == LoadBalance
    requires ConnectedCount(pools[0].servers) >= pools[0].maxActive
    ensures ServesAlike(pools[0], pools[j], qs[0].target, qs[x].now)
  {
    if j > 0 {
      FullPoolServesAlike(pools, qs, j - 1, x);
      FullPoolServesAlike(pools, qs, j - 1, j - 1);
      FullSelectionServesAlike(pools[0], pools[j - 1], qs[j - 1], qs[x].now);
    }
  }

  /**
   Availability is indeed fixed once the cap is reached: over alike requests the available
   servers are the connected ones that are neither excluded nor blocked at the start.
   */
  lemma FullPoolIsSteady(pools: seq<Pool>, qs: seq<Query>, avail: seq<bool>)
    requires Consecutive(pools, qs) && qs != [] && AlikeRequests(pools[0], qs)
    requires Wf(pools[0]) && pools[0].strategy == LoadBalance
    requires ConnectedCount(pools[0].servers) >= pools[0].maxActive
    requires |avail| == |pools[0].servers|
    requires forall i :: 0 <= i < |avail| ==> avail[i] == Serviceable(pools[0], qs[0], i)
    ensures SteadyAvailability(pools, qs, avail)
  {
    forall j, k | 0 <= j < |qs| && 0 <= k < |avail| && pools[j].servers != [] && |pools[j].servers| == |avail|
      ensures Accepts(pools[j], qs[j], k) <==> avail[Order(pools[j], k)]
    {
      FullPoolServesAlike(pools, qs, j, j);
    }
  }

  // ---------- health checks ----------

  lemma HealthCheckKeepsWf(p: Pool, c: Probe)
    requires Wf(p)
    ensures Wf(HealthCheck(p, c)) && |HealthCheck(p, c).servers| == |p.servers|
  {
  }

  /** A health check in loadbalance mode only ever drops connections. */
  lemma HealthCheckKeepsCap(p: Pool, c: Probe)
    requires WithinCap(p)
    ensures WithinCap(HealthCheck(p, c))
  {
    if p.strategy == LoadBalance {
      TotalMonotone(ProbedAll(p, c), p.servers, CONNECTED);
    }
  }

  /**
   After a failover health check of a non-empty pool either a connected, healthy server is
   active (the same as before if it answered, else the lowest one that answered, else the
   lowest one that reconnects) or none is and nothing answered or reconnected.
   */
  lemma FailoverHealthCheck(p: Pool, c: Probe)
    requires Wf(p) && p.strategy == Failover && p.servers != []
    ensures var r, n := HealthCheck(p, c), |p.servers|;
      if r.hasActive then
        && r.activeIdx < n
        && r.servers[r.activeIdx].connected && r.servers[r.activeIdx].healthy
        && (KeepsActive(p, c) ==> r.activeIdx == p.activeIdx)
        && (!KeepsActive(p, c) && Survives(p, c, r.activeIdx) ==>
             forall i :: 0 <= i < r.activeIdx ==> !Survives(p, c, i))
        && (!Survives(p, c, r.activeIdx) ==>
             && c.dial(r.activeIdx)
             && (forall i :: 0 <= i < n ==> !Survives(p, c, i))
             && (forall i :: 0 <= i < r.activeIdx ==> !c.dial(i)))
      else
        forall i :: 0 <= i < n ==> !Survives(p, c, i) && !c.dial(i) && !r.servers[i].connected
  {
    var r := HealthCheck(p, c);
    if !r.hasActive {
      assert FirstSurvivor(p, c) == FirstDialled(|p.servers|, c.dial) == |p.servers|;
      forall i | 0 <= i < |p.servers| ensures !Survives(p, c, i) && !c.dial(i) && !r.servers[i].connected {
        assert r.servers[i] == ProbedOne(p.servers[i], c.alive(i));
      }
    }
  }

  /** A failover health check connects to server `i`: nothing answered, and no earlier server could be reached. */
  ghost predicate Redialled(p: Pool, c: Probe, i: nat)
    requires i < |p.servers|
  {
    && p.strategy == Failover
    && (forall j :: 0 <= j < |p.servers| ==> !(p.servers[j].connected && c.alive(j)))
    && c.dial(i) && (forall j :: 0 <= j < i ==> !c.dial(j))
  }

  /** What a health check makes of each server, connection and counters, and what it leaves of the pool. */
  lemma HealthCheckOfServer(p: Pool, c: Probe, i: nat)
    requires Wf(p) && i < |p.servers|
    ensures var r, was := HealthCheck(p, c), p.servers[i];
      && |r.servers| == |p.servers| && r.index == p.index && r.failures == p.failures
      && (p.strategy == LoadBalance ==> !r.hasActive)
      && r.servers[i].addr == was.addr && r.servers[i].selected == was.selected
      && (r.servers[i].connected <==> (was.connected && c.alive(i)) || Redialled(p, c, i))
      && r.servers[i].checks == (if was.connected then (was.checks + 1) % 0x1_0000_0000_0000_0000 else was.checks)
      && r.servers[i].reconnects
           == (if Redialled(p, c, i) then (was.reconnects + 1) % 0x1_0000_0000_0000_0000 else was.reconnects)
  {
    RedialledIff(p, c, i);
    assert ProbedAll(p, c)[i] == ProbedOne(p.servers[i], c.alive(i));
    if KeepsActive(p, c) {
      assert Survives(p, c, p.activeIdx);
    }
  }

  lemma RedialledIff(p: Pool, c: Probe, i: nat)
    requires i < |p.servers|
    ensures Redialled(p, c, i)
      <==> p.strategy == Failover && FirstSurvivor(p, c) == |p.servers| && FirstDialled(|p.servers|, c.dial) == i
  {
    var n := |p.servers|;
    if FirstSurvivor(p, c) == n {
      forall j | 0 <= j < n ensures !(p.servers[j].connected && c.alive(j)) {
        assert !Survives(p, c, j);
      }
    }
  }

  /** A health check reports a switch exactly in failover when the active server did not answer or none was active. */
  lemma SwitchIsReported(p: Pool, c: Probe)
    requires Wf(p)
    ensures var r, now := HealthCheckReport(p, c), HealthCheck(p, c);
      if p.servers == [] || p.strategy == LoadBalance
         || (p.hasActive && p.servers[p.activeIdx].connected && c.alive(p.activeIdx)) then
        && r.switchedFrom == "" && r.switchedTo == ""
        && now.hasActive == p.hasActive && now.activeIdx == p.activeIdx
      else
        && r.switchedFrom == (if p.hasActive then p.servers[p.activeIdx].addr else "")
        && r.switchedTo == (if now.hasActive then now.servers[now.activeIdx].addr else "")
  {
    if p.servers != [] {
      HealthCheckOfServer(p, c, 0);
      if HealthCheck(p, c).hasActive && HealthCheck(p, c).activeIdx < |p.servers| {
        HealthCheckOfServer(p, c, HealthCheck(p, c).activeIdx);
      }
    }
  }

  /** Every server that was checked either answered or is listed as failed, once. */
  lemma {:induction false} CheckedIsFailedPlusSurvivors(p: Pool, c: Probe, m: nat)
    requires m <= |p.servers|
    ensures ConnectedCount(p.servers[..m]) == |Casualties(p, c, m)| + ConnectedCount(ProbedAll(p, c)[..m])
  {
    hide ProbedAll;
    if m > 0 {
      CheckedIsFailedPlusSurvivors(p, c, m - 1);
      assert p.servers[..m][..m - 1] == p.servers[..m - 1];
      assert ProbedAll(p, c)[..m][..m - 1] == ProbedAll(p, c)[..m - 1];
    }
  }

  /** The health report adds up: checked servers either failed or are the ones still connected after the probes. */
  lemma HealthReportBalances(p: Pool, c: Probe)
    ensures var r := HealthCheckReport(p, c);
      r.checked == |r.failed| + ConnectedCount(ProbedAll(p, c)) && r.recovered == []
  {
    CheckedIsFailedPlusSurvivors(p, c, |p.servers|);
    assert p.servers[..|p.servers|] == p.servers;
    assert ProbedAll(p, c)[..|p.servers|] == ProbedAll(p, c);
  }

  /** The failed list holds exactly the addresses of connected servers that did not answer. */
  lemma {:induction false} FailedAreTheSilent(p: Pool, c: Probe, m: nat, addr: string)
    requires m <= |p.servers|
    ensures addr in Casualties(p, c, m)
      <==> exists i :: 0 <= i < m && p.servers[i].connected && !c.alive(i) && p.servers[i].addr == addr
  {
    if m > 0 {
      FailedAreTheSilent(p, c, m - 1, addr);
    }
  }

  lemma {:induction false} CasualtyPlaces(p: Pool, c: Probe, m: nat) returns (js: seq<nat>)
    requires m <= |p.servers|
    ensures Increasing(js) && forall j: nat :: j in js <==> j < m && p.servers[j].connected && !c.alive(j)
    ensures |js| == |Casualties(p, c, m)|
    ensures forall x :: 0 <= x < |js| ==> js[x] < m && Casualties(p, c, m)[x] == p.servers[js[x]].addr
  {
    hide Increasing;
    js := NoPlaces();
    if m > 0 {
      js := CasualtyPlaces(p, c, m - 1);
      if p.servers[m - 1].connected && !c.alive(m - 1) {
        OneMorePlace(js, m - 1);
        js := js + [m - 1];
      }
    }
  }

  /** The failed list names exactly the connected servers that did not answer, in pool order. */
  lemma FailedAreListedInOrder(p: Pool, c: Probe) returns (js: seq<nat>)
    ensures Increasing(js)
    ensures forall j: nat :: j in js <==> j < |p.servers| && p.servers[j].connected && !c.alive(j)
    ensures |js| == |HealthCheckReport(p, c).failed|
    ensures forall x :: 0 <= x < |js| ==>
      js[x] < |p.servers| && HealthCheckReport(p, c).failed[x] == p.servers[js[x]].addr
  {
    js := CasualtyPlaces(p, c, |p.servers|);
  }

  // ---------- membership ----------

  lemma RemovalKeepsWf(p: Pool, i: nat)
    requires Wf(p) && i < |p.servers|
    ensures Wf(Removed(p, i))
  {
  }

  /** Remove keeps the order of the rest, and the active server unless it is the one removed. */
  lemma RemovalKeepsActive(p: Pool, i: nat)
    requires Wf(p) && i < |p.servers|
    ensures var r := Removed(p, i);
      && Wf(r)
      && r.servers == p.servers[..i] + p.servers[i + 1..]
      && (r.hasActive <==> p.hasActive && p.activeIdx != i)
      && (r.hasActive ==> r.servers[r.activeIdx] == p.servers[p.activeIdx])
      && r.index == p.index && r.failures == p.failures && r.strategy == p.strategy && r.maxActive == p.maxActive
  {
  }

  /** CloseAll: every client is disconnected, nothing is active, and counter and table stay. */
  lemma ShutdownEmpties(p: Pool)
    requires Wf(p)
    ensures Wf(Emptied(p)) && Emptied(p).servers == [] && !Emptied(p).hasActive
    ensures Emptied(p).index == p.index && Emptied(p).failures == p.failures
    ensures forall i :: 0 <= i < |p.servers| ==>
      var was, now := p.servers[i], ClosedAll(p.servers)[i];
      && !now.connected && !now.healthy && now.addr == was.addr
      && now.selected == was.selected && now.reconnects == was.reconnects && now.checks == was.checks
  {
  }

  lemma RemovalKeepsCap(p: Pool, i: nat)
    requires WithinCap(p) && i < |p.servers|
    ensures WithinCap(Removed(p, i))
  {
    TotalSplit(p.servers, i, CONNECTED);
    TotalConcat(p.servers[..i], p.servers[i + 1..], CONNECTED);
  }
}
