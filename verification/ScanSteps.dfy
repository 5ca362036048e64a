/** One step of a selection scan, as the loops see it. */
module ScanSteps {
  import opened Basics
  import opened CyclicScan
  import opened FailureTable
  import opened Selector

  /**
   Looking at one more place: the entries dropped so far do not change whether its server is
   blocked, and asking drops exactly the entry that belongs to this place.
   */
  lemma ProbeStep(p: Pool, q: Query, m: nat)
    requires p.servers != [] && m < |p.servers|
    ensures var t, up := p.failures - DroppedKeys(p, q, m), p.servers[Order(p, m)].addr;
      && Blocked(t, up, q.target, q.now) == Blocked(p.failures, up, q.target, q.now)
      && p.failures - DroppedKeys(p, q, m + 1) ==
         (if up in q.exclude then t else AfterProbe(t, up, q.target, q.now))
  {
    var i := Order(p, m);
    var key := Key(p.servers[i].addr, q.target);
    DroppedStep(p, q, m);
    if q.target != "" && key in DroppedKeys(p, q, m) {
      var j: nat :| j < m && Eligible(p, q, Order(p, j)) && Key(p.servers[Order(p, j)].addr, q.target) == key;
    }
  }

  lemma DroppedStep(p: Pool, q: Query, m: nat)
    requires p.servers != []
    ensures var i := Order(p, m);
      DroppedKeys(p, q, m + 1) == DroppedKeys(p, q, m)
        + (if q.target != "" && Eligible(p, q, i) then {Key(p.servers[i].addr, q.target)} else {})
  {
    var i, more, fewer := Order(p, m), DroppedKeys(p, q, m + 1), DroppedKeys(p, q, m);
    forall key | key in more && key !in fewer
      ensures q.target != "" && Eligible(p, q, i) && key == Key(p.servers[i].addr, q.target)
    {
      var j: nat :| j < m + 1 && Eligible(p, q, Order(p, j)) && Key(p.servers[Order(p, j)].addr, q.target) == key;
      assert j == m;
    }
  }

  /** The pool's clients once the server at `i` has been taken. */
  function Serving(us: seq<Upstream>, i: nat): seq<Upstream>
    requires i < |us|
  {
    us[i := Marked(EnsuredConnected(us[i], true))]
  }

  lemma WinnerIs(p: Pool, q: Query, k: nat)
    requires k < |p.servers| && Accepts(p, q, k)
    requires forall j :: 0 <= j < k ==> !Accepts(p, q, j)
    ensures Winner(p, q) == k
  {
  }

  /** The counter moves unless the scan starts from an active server. */
  function NextIndex(p: Pool): nat {
    if p.strategy == Failover && p.hasActive then p.index else (p.index + 1) % TWO_TO_32
  }

  lemma SelectionAt(p: Pool, q: Query, k: nat)
    requires k < |p.servers| && Winner(p, q) == k
    ensures var s, i := Select(p, q).pool, Order(p, k);
      && s.servers == Serving(p.servers, i)
      && s.index == NextIndex(p)
      && s.failures == p.failures - DroppedKeys(p, q, k + 1)
      && s.strategy == p.strategy && s.maxActive == p.maxActive
      && s.hasActive == (p.strategy == Failover || p.hasActive)
      && s.activeIdx == (if p.strategy == Failover then i else p.activeIdx)
      && Select(p, q).chosen == Some(i) && Select(p, q).refused == RefusedAddrs(p, q, k)
  {
  }

  lemma SelectionOfNone(p: Pool, q: Query)
    requires Wf(p) && p.servers != [] && forall j :: 0 <= j < |p.servers| ==> !Accepts(p, q, j)
    ensures Select(p, q) == Selection(
      p.(index := NextIndex(p), failures := p.failures - DroppedKeys(p, q, |p.servers|),
         hasActive := false, activeIdx := 0),
      None, RefusedAddrs(p, q, |p.servers|))
  {
    assert Winner(p, q) == |p.servers|;
  }

  lemma OrderOfScan(p: Pool, k: nat)
    requires p.servers != [] && p.strategy == LoadBalance
    ensures Order(p, k) == VisitIndex(p.index, |p.servers|, k)
    ensures MayDial(p) == (ConnectedCount(p.servers) < p.maxActive)
  {
  }

  lemma FailoverScan(p: Pool)
    requires p.strategy == Failover
    ensures MayDial(p) && NextIndex(p) == if p.hasActive then p.index else (p.index + 1) % TWO_TO_32
  {
  }

  /** A place on the ring of `n` servers. */
  function OnRing(x: nat, n: nat): (i: nat)
    requires n > 0
    ensures i < n
  {
    x % n
  }

  /** Where the failover scan stands: it meets the active server at its last step and only there. */
  lemma ScanPlace(p: Pool, startIdx: nat, checked: nat)
    requires Wf(p) && p.strategy == Failover && checked < |p.servers|
    requires startIdx == OnRing(if p.hasActive then p.activeIdx + 1 else p.index, |p.servers|)
    ensures var n, idx := |p.servers|, OnRing(startIdx + checked, |p.servers|);
      && (p.hasActive ==> (idx == p.activeIdx <==> checked == n - 1))
      && (!p.hasActive ==> idx == Order(p, checked))
      && (p.hasActive && checked < n - 1 ==> idx == Order(p, checked + 1))
  {
    var n := |p.servers|;
    var s := if p.hasActive then p.activeIdx + 1 else p.index;
    RemainderShift(s % n + checked, n, s / n);
    assert s + checked == s % n + checked + (s / n) * n;
    if p.hasActive {
      var a := p.activeIdx;
      Remainder(a, n, 0, a);
      if checked == n - 1 {
        Remainder(a + n, n, 1, a);
      } else {
        RemaindersDiffer(a, a + 1 + checked, n);
      }
    }
  }

  // ---------- health checks ----------

  /** The report after probing the first `m` servers. */
  function ProbeReport(p: Pool, c: Probe, m: nat): HealthReport
    requires m <= |p.servers|
  {
    HealthReport(ConnectedCount(p.servers[..m]), [], Casualties(p, c, m), "", "")
  }

  lemma ProbeReportStep(p: Pool, c: Probe, m: nat)
    requires m < |p.servers|
    ensures var u, r := p.servers[m], ProbeReport(p, c, m);
      ProbeReport(p, c, m + 1) == r.(
        checked := r.checked + (if u.connected then 1 else 0),
        failed := r.failed + (if u.connected && !Survives(p, c, m) then [u.addr] else []))
  {
    assert p.servers[..m + 1][..m] == p.servers[..m];
  }

  /** Loadbalance, or an active server that answered: nothing but the probes happened. */
  lemma ActiveAnswered(p: Pool, c: Probe)
    requires Wf(p) && p.servers != []
    ensures p.strategy == LoadBalance || (p.hasActive && Survives(p, c, p.activeIdx)) ==>
      && HealthCheck(p, c) == p.(servers := ProbedAll(p, c))
      && HealthCheckReport(p, c) == ProbeReport(p, c, |p.servers|)
  {
    assert p.servers[..|p.servers|] == p.servers;
  }

  function ActiveAddr(p: Pool): string {
    if p.hasActive && p.activeIdx < |p.servers| then p.servers[p.activeIdx].addr else ""
  }

  lemma NoSwitchYet(p: Pool, c: Probe)
    ensures ProbeReport(p, c, |p.servers|).switchedFrom == "" == ProbeReport(p, c, |p.servers|).switchedTo
  {
  }

  lemma ActiveInRange(p: Pool)
    requires Wf(p)
    ensures p.hasActive ==> p.activeIdx < |p.servers|
    ensures !p.hasActive ==> p.activeIdx == 0
  {
  }

  lemma SurvivorTakesOver(p: Pool, c: Probe)
    requires Wf(p) && p.strategy == Failover && !(p.hasActive && Survives(p, c, p.activeIdx))
    requires FirstSurvivor(p, c) < |p.servers|
    ensures var s := FirstSurvivor(p, c);
      && HealthCheck(p, c) == p.(servers := ProbedAll(p, c), hasActive := true, activeIdx := s)
      && HealthCheckReport(p, c) == ProbeReport(p, c, |p.servers|).(
           switchedFrom := ActiveAddr(p), switchedTo := p.servers[s].addr)
      && ProbeReport(p, c, |p.servers|).switchedFrom == ""
  {
    assert p.servers[..|p.servers|] == p.servers;
  }

  lemma NoSurvivor(p: Pool, c: Probe)
    requires Wf(p) && p.strategy == Failover && p.servers != []
    requires FirstSurvivor(p, c) == |p.servers|
    ensures var d, us, r := FirstDialled(|p.servers|, c.dial), ProbedAll(p, c), ProbeReport(p, c, |p.servers|);
      && r.switchedFrom == "" && r.switchedTo == ""
      && HealthCheck(p, c) == (
           if d < |p.servers| then p.(servers := us[d := Reconnected(us[d], true)], hasActive := true, activeIdx := d)
           else p.(servers := us, hasActive := false, activeIdx := 0))
      && HealthCheckReport(p, c) == r.(
           switchedFrom := ActiveAddr(p), switchedTo := if d < |p.servers| then p.servers[d].addr else "")
  {
    assert p.servers[..|p.servers|] == p.servers;
  }

  // ---------- membership ----------

  lemma DistinctWithout<T>(xs: seq<T>, i: nat)
    requires Distinct(xs) && i < |xs|
    ensures Distinct(xs[..i] + xs[i + 1..])
  {
  }
}
