/**
 The table of upstream-target failures: a cache whose entries expire lazily, when a
 selection looks at them, and in bulk, at each health check cycle.
 */
module FailureTable {
  import opened Addresses

  /** `blockedUntil` is ZERO_TIME while the count is below the threshold. */
  datatype FailureState = FailureState(failCount: nat, blockedUntil: nat)

  type Table = map<string, FailureState>

  /** Go's zero time: no clock reading is earlier. */
  const ZERO_TIME: nat := 0

  /** Ten minutes in nanoseconds. */
  const DEFAULT_TTL: nat := 600_000_000_000

  function Key(up: string, target: string): string {
    up + "|" + target
  }

  predicate Blocked(t: Table, up: string, target: string, now: nat) {
    && target != ""
    && Key(up, target) in t
    && t[Key(up, target)].blockedUntil > now
  }

  /** The table after looking whether a pair is blocked: a pair that is not loses its entry. */
  function AfterProbe(t: Table, up: string, target: string, now: nat): Table {
    if target == "" || Blocked(t, up, target, now) then t else t - {Key(up, target)}
  }

  function NormalThreshold(threshold: int): nat {
    if threshold <= 0 then 1 else threshold
  }

  function NormalTtl(ttl: int): nat {
    if ttl <= 0 then DEFAULT_TTL else ttl
  }

  function CountOf(t: Table, key: string): nat {
    if key in t then t[key].failCount else 0
  }

  function AfterFailure(t: Table, up: string, target: string, threshold: int, ttl: int, now: nat): Table {
    if target == "" then t
    else
      var key := Key(up, target);
      var was := if key in t then t[key] else FailureState(0, ZERO_TIME);
      var count := was.failCount + 1;
      t[key := FailureState(count,
        if count >= NormalThreshold(threshold) then now + NormalTtl(ttl) else was.blockedUntil)]
  }

  function AfterSuccess(t: Table, up: string, target: string): Table {
    if target == "" then t else t - {Key(up, target)}
  }

  /** Time.Before: the zero time is before every clock reading. */
  predicate Before(time: nat, now: nat) {
    time == ZERO_TIME || time < now
  }

  function AfterCleanup(t: Table, now: nat): Table {
    map key | key in t && !Before(t[key].blockedUntil, now) :: t[key]
  }

  /**
   One failure report: the pair is blocked from the threshold on, for the time to live that the
   options give, or ten minutes; below the threshold an earlier block stays as it was.
   */
  lemma FailureBlocksIff(t: Table, up: string, target: string, threshold: int, ttl: int, now: nat, later: nat)
    requires target != ""
    ensures Blocked(AfterFailure(t, up, target, threshold, ttl, now), up, target, later)
      <==> if threshold <= 1 || CountOf(t, up + "|" + target) + 1 >= threshold
           then later < now + (if ttl > 0 then ttl else 600_000_000_000)
           else Blocked(t, up, target, later)
  {
  }

  /** Reports and looks concern one pair's entry only, and a cleanup concerns all. */
  lemma OtherEntriesStay(t: Table, up: string, target: string, threshold: int, ttl: int, now: nat, key: string)
    requires key != up + "|" + target
    ensures key in t <==> key in AfterFailure(t, up, target, threshold, ttl, now)
    ensures key in t <==> key in AfterSuccess(t, up, target)
    ensures key in t <==> key in AfterProbe(t, up, target, now)
    ensures key in t ==>
      && AfterFailure(t, up, target, threshold, ttl, now)[key] == t[key]
      && AfterSuccess(t, up, target)[key] == t[key] && AfterProbe(t, up, target, now)[key] == t[key]
  {
  }

  /** A cleanup keeps exactly the entries of blocks that have not ended before it, unchanged. */
  lemma CleanupKeepsIff(t: Table, now: nat, key: string)
    ensures key in AfterCleanup(t, now) <==> key in t && t[key].blockedUntil != ZERO_TIME && now <= t[key].blockedUntil
    ensures key in AfterCleanup(t, now) ==> AfterCleanup(t, now)[key] == t[key]
  {
  }

  // ---------- the key ----------

  /** Reads a key back: up to the first colon, to the next bar, and around the last colon. */
  function UpstreamPart(key: string): (string, int, string) {
    var (host, rest) := CutFirst(key, ':');
    var (port, target) := CutFirst(rest, '|');
    (host, SignedValue(port), target)
  }

  function TargetPart(target: string): (string, int) {
    var (host, port) := CutLast(target, ':');
    (host, SignedValue(port))
  }

  lemma UpstreamPartOfKey(host: string, port: int, target: string)
    requires ':' !in host
    ensures UpstreamPart(Key(HostPort(host, port), target)) == (host, port, target)
  {
    var rest := Decimal(port) + ['|'] + target;
    assert Key(HostPort(host, port), target) == host + [':'] + rest;
    CutFirstOf(host, ':', rest);
    DecimalHasNoSeparator(port);
    CutFirstOf(Decimal(port), '|', target);
    SignedValueOfDecimal(port);
  }

  /**
   The table key determines upstream host, upstream port, target host and target port,
   whatever bars and colons the target host contains, for upstream hosts without a colon.
   */
  lemma KeyIsDecodable(host: string, port: int, targetHost: string, targetPort: int)
    requires ':' !in host
    ensures var (h, p, target) := UpstreamPart(Key(HostPort(host, port), HostPort(targetHost, targetPort)));
      h == host && p == port && TargetPart(target) == (targetHost, targetPort)
  {
    UpstreamPartOfKey(host, port, HostPort(targetHost, targetPort));
    DecimalHasNoSeparator(targetPort);
    assert HostPort(targetHost, targetPort) == targetHost + [':'] + Decimal(targetPort);
    CutLastOf(targetHost, ':', Decimal(targetPort));
    SignedValueOfDecimal(targetPort);
  }

  /** The colon matters: with one in the upstream host two different pairs share a key. */
  lemma KeyCollidesWithColon()
    ensures Key(HostPort("a:1|b", 2), HostPort("t", 3)) == Key(HostPort("a", 1), HostPort("b:2|t", 3))
  {
    assert Decimal(1) == "1" && Decimal(2) == "2" && Decimal(3) == "3";
    assert HostPort("a:1|b", 2) == "a:1|b:2" && HostPort("a", 1) == "a:1";
    assert HostPort("t", 3) == "t:3" && HostPort("b:2|t", 3) == "b:2|t:3";
    assert Key("a:1|b:2", "t:3") == "a:1|b:2|t:3" == Key("a:1", "b:2|t:3");
  }

  lemma KeyOfPair(up: string, target: string, up': string, target': string)
    requires IsUpstreamAddr(up) && IsUpstreamAddr(up')
    requires Key(up, target) == Key(up', target')
    ensures up == up' && target == target'
  {
    var host, port: int :| up == HostPort(host, port) && ':' !in host;
    var host', port': int :| up' == HostPort(host', port') && ':' !in host';
    UpstreamPartOfKey(host, port, target);
    UpstreamPartOfKey(host', port', target');
  }

  // ---------- the table against the log of what happened ----------

  /** One critical section on the table. */
  datatype Event =
    | Failed(up: string, target: string, at: nat, ttl: int)
    | Succeeded(up: string, target: string)
    | Probed(up: string, target: string, at: nat)
    | Cleaned(at: nat)

  function Apply(t: Table, e: Event, threshold: int): Table {
    match e
    case Failed(up, target, at, ttl) => AfterFailure(t, up, target, threshold, ttl, at)
    case Succeeded(up, target) => AfterSuccess(t, up, target)
    case Probed(up, target, at) => AfterProbe(t, up, target, at)
    case Cleaned(at) => AfterCleanup(t, at)
  }

  function TableOf(log: seq<Event>, threshold: int): Table {
    if log == [] then map[] else Apply(TableOf(log[..|log| - 1], threshold), log[|log| - 1], threshold)
  }

  /** The latest clock reading in a log. */
  function Clock(log: seq<Event>): nat {
    if log == [] then 0
    else if log[|log| - 1].Succeeded? then Clock(log[..|log| - 1])
    else log[|log| - 1].at
  }

  /** The clock never goes back, and upstreams have proper addresses. */
  ghost predicate ProperLog(log: seq<Event>) {
    log != [] ==>
      var e := log[|log| - 1];
      && ProperLog(log[..|log| - 1])
      && (!e.Succeeded? ==> Clock(log[..|log| - 1]) <= e.at)
      && (!e.Cleaned? ==> IsUpstreamAddr(e.up))
  }

  /** Failures of a pair reported since its last success. */
  function FailureRun(log: seq<Event>, up: string, target: string): nat {
    if log == [] then 0
    else
      var rest, e := log[..|log| - 1], log[|log| - 1];
      if e.Succeeded? && e.up == up && e.target == target then 0
      else if e.Failed? && e.up == up && e.target == target then FailureRun(rest, up, target) + 1
      else FailureRun(rest, up, target)
  }

  /** When the block caused by the last reported failure of a pair ends. */
  function Expiry(log: seq<Event>, up: string, target: string): nat {
    if log == [] then 0
    else
      var e := log[|log| - 1];
      if e.Failed? && e.up == up && e.target == target then e.at + (if e.ttl > 0 then e.ttl else 600_000_000_000)
      else Expiry(log[..|log| - 1], up, target)
  }

  /** The documented rule: enough failures since the last success, and the last one not yet expired. */
  predicate ShouldBlock(log: seq<Event>, up: string, target: string, threshold: int, now: nat) {
    && target != ""
    && FailureRun(log, up, target) >= (if threshold > 0 then threshold else 1)
    && now < Expiry(log, up, target)
  }

  /** What an entry of the table says about the log. */
  ghost predicate EntryAgrees(log: seq<Event>, up: string, target: string, threshold: int) {
    var t, key := TableOf(log, threshold), Key(up, target);
    key in t ==>
      && 1 <= t[key].failCount <= FailureRun(log, up, target)
      && t[key].blockedUntil ==
         (if t[key].failCount >= NormalThreshold(threshold) then Expiry(log, up, target) else ZERO_TIME)
  }

  lemma {:induction false} EntryAlwaysAgrees(log: seq<Event>, up: string, target: string, threshold: int)
    requires ProperLog(log) && IsUpstreamAddr(up) && target != ""
    ensures EntryAgrees(log, up, target, threshold)
  {
    if log != [] {
      var rest, e := log[..|log| - 1], log[|log| - 1];
      EntryAlwaysAgrees(rest, up, target, threshold);
      if !e.Cleaned? && Key(e.up, e.target) == Key(up, target) {
        KeyOfPair(e.up, e.target, up, target);
      }
    }
  }

  /** For every threshold the table never blocks a pair that the documented rule leaves open. */
  lemma NeverBlocksTooMuch(log: seq<Event>, up: string, target: string, threshold: int, now: nat)
    requires ProperLog(log) && IsUpstreamAddr(up)
    requires Blocked(TableOf(log, threshold), up, target, now)
    ensures ShouldBlock(log, up, target, threshold, now)
  {
    EntryAlwaysAgrees(log, up, target, threshold);
  }

  /** With threshold 1 a missing entry means no failure since the last success, or an expired one. */
  lemma {:induction false} MissingEntryAtThresholdOne(log: seq<Event>, up: string, target: string, threshold: int)
    requires ProperLog(log) && IsUpstreamAddr(up) && target != "" && threshold <= 1
    requires Key(up, target) !in TableOf(log, threshold)
    ensures FailureRun(log, up, target) == 0 || Expiry(log, up, target) <= Clock(log)
  {
    if log != [] {
      var rest, e := log[..|log| - 1], log[|log| - 1];
      EntryAlwaysAgrees(rest, up, target, threshold);
      if Key(up, target) !in TableOf(rest, threshold) {
        MissingEntryAtThresholdOne(rest, up, target, threshold);
      } else if !e.Cleaned? {
        KeyOfPair(e.up, e.target, up, target);
      }
    }
  }

  /**
   With threshold 1 the lazily expiring table implements the log: over all interleavings of
   reports, selections and cleanups a pair is blocked exactly while its last report is an
   unexpired failure.
   */
  lemma TableRefinesLog(log: seq<Event>, up: string, target: string, threshold: int, now: nat)
    requires ProperLog(log) && IsUpstreamAddr(up) && Clock(log) <= now && threshold <= 1
    ensures Blocked(TableOf(log, threshold), up, target, now) <==> ShouldBlock(log, up, target, threshold, now)
  {
    if target != "" {
      EntryAlwaysAgrees(log, up, target, threshold);
      if Key(up, target) !in TableOf(log, threshold) {
        MissingEntryAtThresholdOne(log, up, target, threshold);
      }
    }
  }

  /** Reports with no selection and no cleanup between them do accumulate, for every threshold. */
  lemma {:induction false} BackToBackReportsAccumulate(log: seq<Event>, up: string, target: string, threshold: int)
    requires ProperLog(log) && IsUpstreamAddr(up) && target != ""
    requires forall e :: e in log ==> e.Failed? || e.Succeeded?
    ensures CountOf(TableOf(log, threshold), Key(up, target)) == FailureRun(log, up, target)
    ensures forall now :: Blocked(TableOf(log, threshold), up, target, now)
                     <==> ShouldBlock(log, up, target, threshold, now)
  {
    if log != [] {
      var rest, e := log[..|log| - 1], log[|log| - 1];
      assert e in log;
      BackToBackReportsAccumulate(rest, up, target, threshold);
      if Key(e.up, e.target) == Key(up, target) {
        KeyOfPair(e.up, e.target, up, target);
      }
    }
    EntryAlwaysAgrees(log, up, target, threshold);
  }
}
