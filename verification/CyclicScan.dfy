/**
 The index arithmetic of the two selection scans, and what it implies for coverage
 and for how requests are shared out.
 */
module CyclicScan {
  import opened Basics

  // ---------- remainders ----------

  lemma Multiple(d: int, n: int)
    requires n > 0
    ensures d >= 1 ==> d * n >= n
    ensures d <= -1 ==> d * n <= -n
    ensures d == 0 ==> d * n == 0
  {
  }

  lemma Remainder(x: int, n: int, q: int, r: int)
    requires n > 0 && x == q * n + r && 0 <= r < n
    ensures x % n == r
  {
    Multiple(x / n - q, n);
    assert (x / n - q) * n == r - x % n;
  }

  lemma RemainderShift(x: int, n: int, c: int)
    requires n > 0
    ensures (x + c * n) % n == x % n
  {
    assert x + c * n == (x / n + c) * n + x % n;
    Remainder(x + c * n, n, x / n + c, x % n);
  }

  /** Fewer than `n` apart means different remainders. */
  lemma RemaindersDiffer(a: int, b: int, n: int)
    requires a < b < a + n
    ensures a % n != b % n
  {
    Multiple(b / n - a / n, n);
    assert (b / n - a / n) * n == b - a - (b % n - a % n);
  }

  /** The place at which a full turn starting from `start` meets `i`. */
  function TurnTo(start: nat, n: nat, i: nat): (k: nat)
    requires i < n
    ensures k < n
    ensures (start + k) % n == i
  {
    var r := start % n;
    var k := if r <= i then i - r else i + n - r;
    assert start + k == (start / n) * n + r + k;
    assert (start + k) % n == i by {
      if r <= i {
        Remainder(start + k, n, start / n, i);
      } else {
        assert (start / n) * n + n == (start / n + 1) * n;
        Remainder(start + k, n, start / n + 1, i);
      }
    }
    k
  }

  // ---------- the loadbalance scan ----------

  /** Server looked at by step `k` of a loadbalance scan: a uint32 sum, then a remainder. */
  function VisitIndex(start: nat, n: nat, k: nat): (i: nat)
    requires n > 0
    ensures i < n
  {
    ((start + k) % TWO_TO_32) % n
  }

  ghost predicate Visited(start: nat, n: nat, i: nat)
    requires n > 0
  {
    exists k :: 0 <= k < n && VisitIndex(start, n, k) == i
  }

  /** The scan is a bijection between its steps and the servers. */
  ghost predicate VisitsEachOnce(start: nat, n: nat)
    requires n > 0
  {
    && (forall i :: 0 <= i < n ==> Visited(start, n, i))
    && (forall j, k :: 0 <= j < k < n ==> VisitIndex(start, n, j) != VisitIndex(start, n, k))
  }

  predicate ScanIsWhole(start: nat, n: nat)
    requires n > 0
  {
    start + n <= TWO_TO_32 || TWO_TO_32 % n == 0
  }

  lemma WholeScanIsCyclic(start: nat, n: nat, k: nat)
    requires 0 < n && start < TWO_TO_32 && k < n
    requires ScanIsWhole(start, n)
    ensures VisitIndex(start, n, k) == (start + k) % n
  {
    if start + k >= TWO_TO_32 {
      var c := TWO_TO_32 / n;
      assert TWO_TO_32 == c * n;
      assert c >= 1;
      assert n <= c * n;
      assert (start + k) % TWO_TO_32 == start + k - TWO_TO_32;
      RemainderShift(start + k - TWO_TO_32, n, c);
    }
  }

  /**
   A scan looks at every server exactly once if and only if the counter does not wrap
   inside it, or the pool size divides 2^32.
   */
  lemma VisitsEachOnceIff(start: nat, n: nat)
    requires 0 < n && start < TWO_TO_32
    ensures VisitsEachOnce(start, n) <==> ScanIsWhole(start, n)
  {
    if ScanIsWhole(start, n) {
      forall i | 0 <= i < n ensures Visited(start, n, i) {
        var k := TurnTo(start, n, i);
        WholeScanIsCyclic(start, n, k);
      }
      forall j, k | 0 <= j < k < n ensures VisitIndex(start, n, j) != VisitIndex(start, n, k) {
        WholeScanIsCyclic(start, n, j);
        WholeScanIsCyclic(start, n, k);
        RemaindersDiffer(start + j, start + k, n);
      }
    } else {
      var j, k := WrappedScanRepeats(start, n);
      assert VisitIndex(start, n, j) == VisitIndex(start, n, k);
    }
  }

  /** The counter wraps at step `w`; when 2^32 leaves a remainder of at least `w`, step 0 is repeated. */
  lemma WrapRepeatsFirst(start: nat, n: nat)
    requires 0 < n && start < TWO_TO_32 && TWO_TO_32 - start <= TWO_TO_32 % n
    ensures VisitIndex(start, n, 0) == VisitIndex(start, n, TWO_TO_32 % n)
  {
    var w, r := TWO_TO_32 - start, TWO_TO_32 % n;
    assert TWO_TO_32 == (TWO_TO_32 / n) * n + r;
    Remainder(start, n, TWO_TO_32 / n, r - w);
    Remainder(r - w, n, 0, r - w);
    Remainder(start + r, TWO_TO_32, 1, r - w);
    Remainder(start, TWO_TO_32, 0, start);
  }

  /** Otherwise the first step after the wrap repeats an earlier one: both meet server 0. */
  lemma WrapRepeatsZero(start: nat, n: nat)
    requires 0 < n && start < TWO_TO_32 && TWO_TO_32 % n <= TWO_TO_32 - start
    ensures VisitIndex(start, n, TWO_TO_32 - start - TWO_TO_32 % n) == 0
    ensures TWO_TO_32 % n > 0 ==> VisitIndex(start, n, TWO_TO_32 - start) == 0
  {
    var w, r := TWO_TO_32 - start, TWO_TO_32 % n;
    assert TWO_TO_32 - r == (TWO_TO_32 / n) * n;
    Remainder(TWO_TO_32 - r, n, TWO_TO_32 / n, 0);
    Remainder(0, n, 0, 0);
    Remainder(start + w, TWO_TO_32, 1, 0);
    if r > 0 {
      Remainder(start + w - r, TWO_TO_32, 0, TWO_TO_32 - r);
    }
  }

  /** Two steps of a wrapped scan that look at the same server. */
  lemma WrappedScanRepeats(start: nat, n: nat) returns (j: nat, k: nat)
    requires 0 < n && start < TWO_TO_32 && !ScanIsWhole(start, n)
    ensures j < k < n && VisitIndex(start, n, j) == VisitIndex(start, n, k)
  {
    hide VisitIndex;
    var w, r := TWO_TO_32 - start, TWO_TO_32 % n;
    if w <= r {
      WrapRepeatsFirst(start, n);
      return 0, r;
    } else {
      WrapRepeatsZero(start, n);
      return w - r, w;
    }
  }

  /** Three servers, last counter value: the scan looks at 0, 0, 1 and never at 2. */
  lemma WrappedScanExample()
    ensures VisitIndex(TWO_TO_32 - 1, 3, 0) == 0
    ensures VisitIndex(TWO_TO_32 - 1, 3, 1) == 0
    ensures VisitIndex(TWO_TO_32 - 1, 3, 2) == 1
    ensures !VisitsEachOnce(TWO_TO_32 - 1, 3)
  {
    VisitsEachOnceIff(TWO_TO_32 - 1, 3);
  }

  // ---------- the same scan where int has 32 bits ----------

  /** Go's `%`: the remainder has the sign of the dividend. */
  function TruncatedRemainder(x: int, n: int): int
    requires n > 0
  {
    if x >= 0 then x % n else -((-x) % n)
  }

  /** The conversion of a uint32 to a 32-bit int. */
  function AsInt32(x: nat): int {
    if x < TWO_TO_31 then x else x - TWO_TO_32
  }

  function VisitIndex32(start: nat, n: nat, k: nat): int
    requires n > 0
  {
    TruncatedRemainder(AsInt32((start + k) % TWO_TO_32), n)
  }

  /**
   With a 32-bit int the index is usable exactly while the counter stays below 2^31, or by
   accident when the negative value is a multiple of the pool size; in the first case it is
   the index of the 64-bit build.
   */
  lemma NarrowIndexInRangeIff(start: nat, n: nat, k: nat)
    requires n > 0
    ensures var x := (start + k) % TWO_TO_32;
      && (0 <= VisitIndex32(start, n, k) < n <==> x < TWO_TO_31 || (TWO_TO_32 - x) % n == 0)
      && (x < TWO_TO_31 ==> VisitIndex32(start, n, k) == VisitIndex(start, n, k))
  {
    var x := (start + k) % TWO_TO_32;
    assert 0 <= (TWO_TO_32 - x) % n < n;
  }

  predicate InRange32(start: nat, n: nat, k: nat)
    requires n > 0
  {
    0 <= VisitIndex32(start, n, k) < n
  }

  /** A step before the wrap at 2^32. */
  lemma StepInRangeIff(start: nat, n: nat, k: nat)
    requires n > 0 && start + k < TWO_TO_32
    ensures InRange32(start, n, k) <==> start + k < TWO_TO_31 || (TWO_TO_32 - start - k) % n == 0
  {
    NarrowIndexInRangeIff(start, n, k);
    Remainder(start + k, TWO_TO_32, 0, start + k);
  }

  /** Of two steps past 2^31 in a row one is out of range. */
  lemma OneOfTwoFails(start: nat, n: nat, k: nat)
    requires n > 1 && TWO_TO_31 <= start + k && start + k + 1 < TWO_TO_32
    ensures !InRange32(start, n, k) || !InRange32(start, n, k + 1)
  {
    hide InRange32;
    StepInRangeIff(start, n, k);
    StepInRangeIff(start, n, k + 1);
    RemaindersDiffer(TWO_TO_32 - start - k - 1, TWO_TO_32 - start - k, n);
  }

  lemma OneServerInRange(start: nat)
    ensures InRange32(start, 1, 0)
  {
    NarrowIndexInRangeIff(start, 1, 0);
  }

  lemma SomeStepFails(start: nat, n: nat) returns (k: nat)
    requires 1 < n < TWO_TO_31 && start < TWO_TO_32 && start + n > TWO_TO_31
    requires start + n == TWO_TO_31 + 1 ==> TWO_TO_31 % n != 0
    ensures k < n && !InRange32(start, n, k)
  {
    hide InRange32;
    k := if start < TWO_TO_31 then TWO_TO_31 - start else 0;
    StepInRangeIff(start, n, k);
    if start + k + 1 == TWO_TO_32 {
      Remainder(1, n, 0, 1);
    } else if k + 1 < n {
      OneOfTwoFails(start, n, k);
      k := if InRange32(start, n, k) then k + 1 else k;
    }
  }

  /**
   A whole loadbalance request with a 32-bit int: every step of the scan has a usable index
   exactly if there is one server, or the scan ends before the counter reaches 2^31, or right
   there with a pool size that divides 2^31.
   */
  lemma NarrowScanInRangeIff(start: nat, n: nat)
    requires 0 < n < TWO_TO_31 && start < TWO_TO_32
    ensures (forall k :: 0 <= k < n ==> InRange32(start, n, k))
      <==> n == 1 || start + n <= TWO_TO_31 || (start + n == TWO_TO_31 + 1 && TWO_TO_31 % n == 0)
  {
    hide InRange32;
    if n == 1 {
      OneServerInRange(start);
    } else if start + n <= TWO_TO_31 || (start + n == TWO_TO_31 + 1 && TWO_TO_31 % n == 0) {
      forall k | 0 <= k < n ensures InRange32(start, n, k) {
        StepInRangeIff(start, n, k);
        assert start + k >= TWO_TO_31 ==> TWO_TO_32 - start - k == TWO_TO_31;
      }
    } else {
      var k := SomeStepFails(start, n);
    }
  }

  /**
   The failover scan without an active server: one conversion, then remainders of int sums. The
   sums do not overflow for pools of at most 2^30 servers, and no larger ones fit in memory there.
   */
  function FailoverIndex32(start: nat, n: nat, k: nat): int
    requires n > 0
  {
    TruncatedRemainder(TruncatedRemainder(AsInt32(start), n) + k, n)
  }

  /** Its indices are usable exactly while the counter is below 2^31, or a multiple of the pool size below 2^32. */
  lemma NarrowFailoverInRangeIff(start: nat, n: nat)
    requires 0 < 2 * n <= TWO_TO_31 && start < TWO_TO_32
    ensures (forall k :: 0 <= k < n ==> 0 <= FailoverIndex32(start, n, k) < n)
      <==> start < TWO_TO_31 || (TWO_TO_32 - start) % n == 0
  {
    var first := TruncatedRemainder(AsInt32(start), n);
    if start < TWO_TO_31 || (TWO_TO_32 - start) % n == 0 {
      assert 0 <= first < n;
    } else {
      assert 0 - n < first < 0;
      Remainder(-first, n, 0, -first);
      assert FailoverIndex32(start, n, 0) < 0;
    }
  }

  /** The counter at 2^31 and three servers: both scans start with index -2. */
  lemma NarrowIndexExample()
    ensures VisitIndex32(TWO_TO_31, 3, 0) == FailoverIndex32(TWO_TO_31, 3, 0) == -2
  {
    Remainder(TWO_TO_31, TWO_TO_32, 0, TWO_TO_31);
    Remainder(TWO_TO_31, 3, 715827882, 2);
  }

  // ---------- shares ----------

  /** Whether the server standing at cyclic place `t` is available. */
  predicate Up(avail: seq<bool>, t: nat)
    requires 0 < |avail|
  {
    avail[t % |avail|]
  }

  /** First place from `s` on with an available server, or `end`. */
  function NextUp(avail: seq<bool>, s: nat, end: nat): (t: nat)
    requires 0 < |avail| && s <= end
    ensures s <= t <= end
    ensures forall x :: s <= x < t ==> !Up(avail, x)
    ensures t < end ==> Up(avail, t)
    decreases end - s
  {
    if s == end || Up(avail, s) then s else NextUp(avail, s + 1, end)
  }

  /** The server that the call with counter value `s` picks. */
  function Pick(avail: seq<bool>, s: nat): nat
    requires 0 < |avail|
  {
    NextUp(avail, s, s + |avail|) % |avail|
  }

  /** How many of the `m` calls with counters `s`, `s + 1`, ... pick server `i`. */
  function Picks(avail: seq<bool>, i: nat, s: nat, m: nat): nat
    requires 0 < |avail|
  {
    if m == 0 then 0 else Picks(avail, i, s, m - 1) + (if Pick(avail, s + m - 1) == i then 1 else 0)
  }

  /** How many unavailable servers stand, without interruption, just before server `i` in cyclic order. */
  function Gap(avail: seq<bool>, i: nat, g: nat := 0): (r: nat)
    requires i < |avail| && g < |avail|
    ensures g <= r < |avail|
    ensures forall x :: i + |avail| - r <= x < i + |avail| - g ==> !Up(avail, x)
    ensures r < |avail| - 1 ==> Up(avail, i + |avail| - 1 - r)
    decreases |avail| - g
  {
    if g == |avail| - 1 || Up(avail, i + |avail| - 1 - g) then g else Gap(avail, i, g + 1)
  }

  lemma UpIsPeriodic(avail: seq<bool>, t: nat)
    requires 0 < |avail|
    ensures Up(avail, t + |avail|) == Up(avail, t)
    ensures (t + |avail|) % |avail| == t % |avail|
  {
    RemainderShift(t, |avail|, 1);
  }

  lemma {:induction false} NextUpIsPeriodic(avail: seq<bool>, s: nat, end: nat)
    requires 0 < |avail| && s <= end
    ensures NextUp(avail, s + |avail|, end + |avail|) == NextUp(avail, s, end) + |avail|
    decreases end - s
  {
    if s < end {
      UpIsPeriodic(avail, s);
      NextUpIsPeriodic(avail, s + 1, end);
    }
  }

  lemma PickIsPeriodic(avail: seq<bool>, s: nat)
    requires 0 < |avail|
    ensures Pick(avail, s + |avail|) == Pick(avail, s)
  {
    NextUpIsPeriodic(avail, s, s + |avail|);
    UpIsPeriodic(avail, NextUp(avail, s, s + |avail|));
  }

  lemma {:induction false} PickIsPeriodicOver(avail: seq<bool>, s: nat, turns: nat)
    requires 0 < |avail|
    ensures Pick(avail, s + turns * |avail|) == Pick(avail, s)
  {
    hide Pick;
    if turns > 0 {
      PickIsPeriodicOver(avail, s, turns - 1);
      PickIsPeriodic(avail, s + (turns - 1) * |avail|);
      assert s + (turns - 1) * |avail| + |avail| == s + turns * |avail|;
    }
  }

  /** A wrap of the counter does not change the pick if the pool size divides 2^32. */
  lemma PickAfterWrap(avail: seq<bool>, x: nat)
    requires 0 < |avail| && TWO_TO_32 % |avail| == 0
    ensures Pick(avail, x % TWO_TO_32) == Pick(avail, x)
  {
    hide Pick;
    var c, q := TWO_TO_32 / |avail|, x / TWO_TO_32;
    assert TWO_TO_32 == c * |avail|;
    assert x == x % TWO_TO_32 + q * TWO_TO_32;
    assert q * TWO_TO_32 == (q * c) * |avail| by { assert q * (c * |avail|) == (q * c) * |avail|; }
    PickIsPeriodicOver(avail, x % TWO_TO_32, q * c);
  }

  lemma {:induction false} PicksSplit(avail: seq<bool>, i: nat, s: nat, a: nat, b: nat)
    requires 0 < |avail|
    ensures Picks(avail, i, s, a + b) == Picks(avail, i, s, a) + Picks(avail, i, s + a, b)
  {
    if b > 0 {
      PicksSplit(avail, i, s, a, b - 1);
    }
  }

  /** A window of one full turn can start anywhere. */
  lemma {:induction false} PicksOfTurn(avail: seq<bool>, i: nat, s: nat)
    requires 0 < |avail|
    ensures Picks(avail, i, s, |avail|) == Picks(avail, i, 0, |avail|)
  {
    hide Pick;
    if s > 0 {
      var n := |avail|;
      PicksOfTurn(avail, i, s - 1);
      PicksSplit(avail, i, s - 1, 1, n);
      assert s - 1 + n == s + n - 1;
      assert Picks(avail, i, s - 1, n + 1)
        == Picks(avail, i, s - 1, n) + (if Pick(avail, s - 1 + n) == i then 1 else 0);
      PickIsPeriodic(avail, s - 1);
      assert Picks(avail, i, s - 1, 1) == (if Pick(avail, s - 1) == i then 1 else 0) by {
        assert Picks(avail, i, s - 1, 0) == 0;
      }
    }
  }

  lemma NextUpAt(avail: seq<bool>, s: nat, end: nat, t: nat)
    requires 0 < |avail| && s <= t < end && Up(avail, t)
    requires forall x :: s <= x < t ==> !Up(avail, x)
    ensures NextUp(avail, s, end) == t
  {
  }

  lemma UpOneTurnLater(avail: seq<bool>, i: nat)
    requires i < |avail| && avail[i]
    ensures Up(avail, i + |avail|) && (i + |avail|) % |avail| == i
  {
    Remainder(i + |avail|, |avail|, 1, i);
  }

  lemma DownBefore(avail: seq<bool>, i: nat, x: nat)
    requires i < |avail| && i + |avail| - Gap(avail, i) <= x < i + |avail|
    ensures !Up(avail, x)
  {
    var r := Gap(avail, i);
  }

  /** In the turn that starts just after `i`, the last `1 + Gap` calls pick `i` ... */
  lemma LatePicks(avail: seq<bool>, i: nat, t: nat)
    requires i < |avail| && avail[i]
    requires i + |avail| - Gap(avail, i) <= t <= i + |avail|
    ensures Pick(avail, t) == i
  {
    hide Up, NextUp;
    var end, stop := t + |avail|, i + |avail|;
    UpOneTurnLater(avail, i);
    assert NextUp(avail, t, end) == stop by {
      forall x | t <= x < stop ensures !Up(avail, x) {
        DownBefore(avail, i, x);
      }
      NextUpAt(avail, t, end, stop);
    }
  }

  /** ... and the earlier ones do not. */
  lemma EarlyPicks(avail: seq<bool>, i: nat, t: nat)
    requires i < |avail| && avail[i]
    requires i < t < i + |avail| - Gap(avail, i)
    ensures Pick(avail, t) != i
  {
    hide Up;
    var r := NextUp(avail, t, t + |avail|);
    assert r <= i + |avail| - 1 - Gap(avail, i);
    Remainder(i, |avail|, 0, i);
    RemaindersDiffer(i, r, |avail|);
  }

  lemma {:induction false} PicksFromNext(avail: seq<bool>, i: nat, m: nat)
    requires i < |avail| && avail[i] && m <= |avail|
    ensures var late := |avail| - 1 - Gap(avail, i);
      Picks(avail, i, i + 1, m) == if m <= late then 0 else m - late
  {
    if m > 0 {
      PicksFromNext(avail, i, m - 1);
      if i + |avail| - Gap(avail, i) <= i + m {
        LatePicks(avail, i, i + m);
      } else {
        EarlyPicks(avail, i, i + m);
      }
      assert i + 1 + m - 1 == i + m;
    }
  }

  /**
   Over any n consecutive counter values an available server is picked once, plus once for
   each unavailable server standing uninterrupted before it.
   */
  lemma ExactShares(avail: seq<bool>, i: nat, s: nat)
    requires i < |avail| && avail[i]
    ensures Picks(avail, i, s, |avail|) == 1 + Gap(avail, i)
  {
    PicksOfTurn(avail, i, s);
    PicksOfTurn(avail, i, i + 1);
    PicksFromNext(avail, i, |avail|);
  }

  lemma {:induction false} PicksGrow(avail: seq<bool>, i: nat, s: nat, a: nat, b: nat)
    requires 0 < |avail| && a <= b
    ensures Picks(avail, i, s, a) <= Picks(avail, i, s, b)
  {
    PicksSplit(avail, i, s, a, b - a);
  }

  lemma OneEach(avail: seq<bool>, i: nat, s: nat)
    requires i < |avail| && forall x :: 0 <= x < |avail| ==> avail[x]
    ensures Picks(avail, i, s, |avail|) == 1
  {
    hide Picks;
    ExactShares(avail, i, s);
    assert Gap(avail, i) == 0;
  }

  /** With every server available, the counts of any two servers over any window differ by at most one. */
  lemma {:induction false} EvenShares(avail: seq<bool>, i: nat, j: nat, s: nat, m: nat)
    requires i < |avail| && j < |avail|
    requires forall x :: 0 <= x < |avail| ==> avail[x]
    ensures Picks(avail, i, s, m) <= Picks(avail, j, s, m) + 1
    decreases m
  {
    hide Picks;
    var n := |avail|;
    OneEach(avail, i, s);
    OneEach(avail, j, s);
    if m < n {
      PicksGrow(avail, i, s, m, n);
    } else {
      PicksSplit(avail, i, s, n, m - n);
      PicksSplit(avail, j, s, n, m - n);
      EvenShares(avail, i, j, s + n, m - n);
    }
  }
}
