/** The status tracker: per-upstream counters that tell the history of dial outcomes, across restarts. */
module Status {
  import opened Basics

  /** `lastChecked` is a clock reading; the totals are uint64. */
  datatype Entry = Entry(addr: string, status: string, lastChecked: nat, consecutiveOK: nat, consecutiveFail: nat,
                         totalSuccess: nat, totalFail: nat, lastError: string)

  type Entries = map<string, Entry>

  /** One call of RecordSuccess or RecordFail; a failure may come without an error value. */
  datatype Record =
    | Succeeded(addr: string, at: nat)
    | Failed(addr: string, at: nat, error: Option<string>)

  function Uint64(n: nat): nat {
    n % TWO_TO_64
  }

  function EntryOrNew(es: Entries, addr: string): Entry {
    if addr in es then es[addr] else Entry(addr, "success", 0, 0, 0, 0, 0, "")
  }

  function Recorded(es: Entries, r: Record): Entries {
    var e := EntryOrNew(es, r.addr);
    es[r.addr := match r
      case Succeeded(addr, at) => e.(status := "success", lastChecked := at, consecutiveOK := e.consecutiveOK + 1,
          consecutiveFail := 0, totalSuccess := Uint64(e.totalSuccess + 1), lastError := "")
      case Failed(addr, at, error) => e.(status := "fail", lastChecked := at, consecutiveFail := e.consecutiveFail + 1,
          consecutiveOK := 0, totalFail := Uint64(e.totalFail + 1),
          lastError := if error.Some? then error.value else e.lastError)]
  }

  /** The entries after a history of records, starting from none. */
  function EntriesOf(h: seq<Record>): Entries {
    if h == [] then map[] else Recorded(EntriesOf(h[..|h| - 1]), h[|h| - 1])
  }

  // ---------- what an entry tells about the history ----------

  /** The records of one upstream. */
  function Own(h: seq<Record>, addr: string): seq<Record> {
    if h == [] then []
    else Own(h[..|h| - 1], addr) + (if h[|h| - 1].addr == addr then [h[|h| - 1]] else [])
  }

  /** How many of the last records, without interruption, are successes (or failures). */
  function TrailingRun(own: seq<Record>, success: bool): nat {
    if own == [] || own[|own| - 1].Succeeded? != success then 0
    else 1 + TrailingRun(own[..|own| - 1], success)
  }

  function HowMany(own: seq<Record>, success: bool): nat {
    if own == [] then 0
    else HowMany(own[..|own| - 1], success) + (if own[|own| - 1].Succeeded? == success then 1 else 0)
  }

  /** The last error value reported since the last success. */
  function LastError(own: seq<Record>): string {
    if own == [] then ""
    else
      match own[|own| - 1]
      case Succeeded(_, _) => ""
      case Failed(_, _, Some(error)) => error
      case Failed(_, _, None) => LastError(own[..|own| - 1])
  }

  /** The entry that the history of one upstream deserves. */
  function Told(addr: string, own: seq<Record>): Entry
    requires own != []
  {
    var last := own[|own| - 1];
    Entry(addr, if last.Succeeded? then "success" else "fail", last.at,
          TrailingRun(own, true), TrailingRun(own, false),
          HowMany(own, true) % 0x1_0000_0000_0000_0000, HowMany(own, false) % 0x1_0000_0000_0000_0000, LastError(own))
  }

  lemma OneMoreOwnRecord(addr: string, own: seq<Record>, es: Entries, r: Record)
    requires r.addr == addr
    requires if own == [] then addr !in es else addr in es && es[addr] == Told(addr, own)
    ensures Recorded(es, r)[addr] == Told(addr, own + [r])
  {
    CountsWrap(HowMany(own, true));
    CountsWrap(HowMany(own, false));
    assert Uint64(0) == 0;
    hide Uint64;
    var more := own + [r];
    assert more[..|more| - 1] == own && more[|more| - 1] == r;
    assert own == [] ==> TrailingRun(own, true) == TrailingRun(own, false) == 0 && LastError(own) == "";
  }

  lemma OneRunAtMost(own: seq<Record>)
    ensures TrailingRun(own, true) == 0 || TrailingRun(own, false) == 0
  {
  }

  lemma CountsWrap(n: nat)
    ensures Uint64(Uint64(n) + 1) == Uint64(n + 1)
  {
  }

  /**
   Every entry is the one its upstream's records deserve: runs, totals, last error, time and
   status; upstreams without records have none, and no entry has both runs positive.
   */
  lemma {:induction false} EntryTellsHistory(h: seq<Record>, addr: string)
    ensures addr in EntriesOf(h) <==> Own(h, addr) != []
    ensures addr in EntriesOf(h) ==> EntriesOf(h)[addr] == Told(addr, Own(h, addr))
    ensures addr in EntriesOf(h) ==> EntriesOf(h)[addr].consecutiveOK == 0 || EntriesOf(h)[addr].consecutiveFail == 0
  {
    if h != [] {
      var before, r := h[..|h| - 1], h[|h| - 1];
      EntryTellsHistory(before, addr);
      if r.addr == addr {
        OneMoreOwnRecord(addr, Own(before, addr), EntriesOf(before), r);
        OneRunAtMost(Own(h, addr));
      } else {
        assert Own(h, addr) == Own(before, addr);
      }
    }
  }

  function NormalLimit(threshold: int): nat {
    if threshold <= 0 then 5 else threshold
  }

  predicate Deprioritized(es: Entries, threshold: int, addr: string) {
    addr in es && es[addr].consecutiveFail >= NormalLimit(threshold)
  }

  /** The deprioritized upstreams are those whose last `threshold` records are all failures. */
  lemma DeprioritizedByHistory(h: seq<Record>, threshold: int, addr: string)
    ensures Deprioritized(EntriesOf(h), threshold, addr)
      <==> TrailingRun(Own(h, addr), false) >= (if threshold > 0 then threshold else 5)
  {
    EntryTellsHistory(h, addr);
  }

  // ---------- across restarts ----------

  /**
   The tracker's own life. A flush is two steps: the entries are copied under the lock, and later,
   without it, the copy is written and renamed onto the status file, or not. Several flushes may be
   under way; `age` says how many copies were taken after the one renamed. A restart loads the file.
   */
  datatype Happening = Recording(r: Record) | Copying | Renaming(age: nat, written: bool) | Restarting

  /** What is in memory, what is in the status file, and the copies not yet renamed, oldest first. */
  datatype Stores = Stores(memory: Entries, disk: Entries, copies: seq<Entries>)

  /** The list without the element that has `age` younger ones. */
  function Without<T>(xs: seq<T>, age: nat): seq<T>
    requires age < |xs|
  {
    xs[..|xs| - 1 - age] + xs[|xs| - age..]
  }

  function Next(named: bool, s: Stores, e: Happening): Stores {
    match e
    case Recording(r) => s.(memory := Recorded(s.memory, r))
    case Copying => if named then s.(copies := s.copies + [s.memory]) else s
    case Renaming(age, written) =>
      if age < |s.copies| then
        s.(disk := Renamed(s.copies[|s.copies| - 1 - age], s.disk, written), copies := Without(s.copies, age))
      else s
    case Restarting => Stores(Loaded(named, map[], FileOf(s.disk)), s.disk, [])
  }

  function Live(named: bool, run: seq<Happening>): Stores {
    if run == [] then Stores(map[], map[], []) else Next(named, Live(named, run[..|run| - 1]), run[|run| - 1])
  }

  datatype FileContent = Missing | Unreadable | Malformed | Readable(entries: Entries)

  function FileOf(disk: Entries): FileContent {
    if disk == map[] then Missing else Readable(disk)
  }

  /** The second half of a flush: the old file stays when writing or renaming fails. */
  function Renamed(copy: Entries, disk: Entries, written: bool): Entries {
    if written then copy else disk
  }

  /** Load: entries of the file replace those in memory. */
  function Loaded(named: bool, memory: Entries, file: FileContent): Entries {
    if named && file.Readable? then memory + file.entries else memory
  }

  /** The records that the memory, the file and the copies under way still tell about. */
  datatype Survivors = Survivors(memory: seq<Record>, disk: seq<Record>, copies: seq<seq<Record>>)

  function StillTold(named: bool, s: Survivors, e: Happening): Survivors {
    match e
    case Recording(r) => s.(memory := s.memory + [r])
    case Copying => if named then s.(copies := s.copies + [s.memory]) else s
    case Renaming(age, written) =>
      if age < |s.copies| then
        s.(disk := if written then s.copies[|s.copies| - 1 - age] else s.disk, copies := Without(s.copies, age))
      else s
    case Restarting => Survivors(s.disk, s.disk, [])
  }

  function Surviving(named: bool, run: seq<Happening>): Survivors {
    if run == [] then Survivors([], [], []) else StillTold(named, Surviving(named, run[..|run| - 1]), run[|run| - 1])
  }

  /** What is stored is exactly what these records make. */
  ghost predicate Tells(stores: Stores, s: Survivors) {
    && stores.memory == EntriesOf(s.memory)
    && stores.disk == EntriesOf(s.disk)
    && |stores.copies| == |s.copies|
    && forall i :: 0 <= i < |s.copies| ==> stores.copies[i] == EntriesOf(s.copies[i])
  }

  lemma NextTells(named: bool, stores: Stores, s: Survivors, e: Happening)
    requires Tells(stores, s) && (!named ==> s.disk == [] && s.copies == [])
    ensures Tells(Next(named, stores, e), StillTold(named, s, e))
    ensures !named ==> StillTold(named, s, e).disk == [] && StillTold(named, s, e).copies == []
  {
    hide Recorded, Loaded, FileOf, EntriesOf;
    match e
    case Recording(r) => OneMoreRecord(s.memory, r);
    case Restarting =>
      NothingTold();
      LoadedFresh(named, stores.disk);
    case _ =>
  }

  /**
   Over any run of records, flushes and restarts the tracker is exactly the fold of the surviving
   records: those in the copy that was renamed last before a restart, and all since then.
   */
  lemma {:induction false} TrackerSurvivesRestarts(named: bool, run: seq<Happening>)
    ensures Tells(Live(named, run), Surviving(named, run))
    ensures !named ==> Surviving(named, run).disk == [] && Surviving(named, run).copies == []
  {
    if run == [] {
      NothingTold();
    } else {
      hide Next, StillTold, Tells;
      TrackerSurvivesRestarts(named, run[..|run| - 1]);
      NextTells(named, Live(named, run[..|run| - 1]), Surviving(named, run[..|run| - 1]), run[|run| - 1]);
    }
  }

  lemma NothingTold()
    ensures EntriesOf([]) == map[]
  {
  }

  lemma OneMoreRecord(h: seq<Record>, r: Record)
    ensures EntriesOf(h + [r]) == Recorded(EntriesOf(h), r)
  {
    assert (h + [r])[..|h + [r]| - 1] == h;
  }

  /** A fresh tracker that loads the file has exactly its entries. */
  lemma LoadedFresh(named: bool, disk: Entries)
    ensures Loaded(named, map[], FileOf(disk)) == if named then disk else map[]
  {
    assert map[] + disk == disk;
  }

  /** The last things before every restart are a copy and its successful renaming. */
  ghost predicate CleanRestarts(run: seq<Happening>) {
    forall k :: 0 <= k < |run| && run[k].Restarting? ==>
      k > 1 && run[k - 1] == Renaming(0, true) && run[k - 2] == Copying
  }

  function AllRecords(run: seq<Happening>): seq<Record> {
    if run == [] then []
    else AllRecords(run[..|run| - 1]) + (if run[|run| - 1].Recording? then [run[|run| - 1].r] else [])
  }

  /** A flush with nothing in between brings the file up to date. */
  lemma FlushedSurvivors(run: seq<Happening>)
    requires |run| > 1 && run[|run| - 1] == Renaming(0, true) && run[|run| - 2] == Copying
    ensures var before := Surviving(true, run[..|run| - 2]);
      Surviving(true, run) == Survivors(before.memory, before.memory, before.copies)
  {
    var copied := run[..|run| - 1];
    assert copied[..|copied| - 1] == run[..|run| - 2] && copied[|copied| - 1] == Copying;
    var before := Surviving(true, run[..|run| - 2]);
    assert Surviving(true, copied).copies == before.copies + [before.memory];
    assert Without(before.copies + [before.memory], 0) == before.copies;
  }

  lemma {:induction false} CleanRestartsKeepRecords(run: seq<Happening>)
    requires CleanRestarts(run)
    ensures Surviving(true, run).memory == AllRecords(run)
  {
    if run != [] {
      var before := run[..|run| - 1];
      assert forall k :: 0 <= k < |before| ==> before[k] == run[k];
      CleanRestartsKeepRecords(before);
      if run[|run| - 1].Restarting? {
        FlushedSurvivors(before);
      }
    }
  }

  /** Flush, restart, load, go on: the same as never having stopped. */
  lemma CleanRestartsLoseNothing(run: seq<Happening>)
    requires CleanRestarts(run)
    ensures Live(true, run).memory == EntriesOf(AllRecords(run))
  {
    TrackerSurvivesRestarts(true, run);
    CleanRestartsKeepRecords(run);
  }

  // ---------- when the file never loses a record ----------

  /** At no moment of the run are more than `k` copies under way. */
  ghost predicate AtMost(run: seq<Happening>, k: nat) {
    forall i :: 0 <= i <= |run| ==> |Surviving(true, run[..i]).copies| <= k
  }

  /** What the file tells at one moment it still tells later. */
  ghost predicate FileKeeps(run: seq<Happening>) {
    forall i, j :: 0 <= i <= j <= |run| ==> Surviving(true, run[..i]).disk <= Surviving(true, run[..j]).disk
  }

  /** With at most `k` flushes under way at a time no record is ever lost from the file. */
  ghost predicate KeepsRecords(k: nat) {
    forall run :: AtMost(run, k) ==> FileKeeps(run)
  }

  /** The file is behind each copy under way, and these are behind the memory. */
  ghost predicate InStep(s: Survivors) {
    && s.disk <= s.memory
    && |s.copies| <= 1
    && forall i :: 0 <= i < |s.copies| ==> s.disk <= s.copies[i] <= s.memory
  }

  lemma NextInStep(s: Survivors, e: Happening)
    requires InStep(s) && |StillTold(true, s, e).copies| <= 1
    ensures InStep(StillTold(true, s, e)) && s.disk <= StillTold(true, s, e).disk
  {
  }

  lemma {:induction false} RunInStep(run: seq<Happening>, i: nat)
    requires AtMost(run, 1) && i <= |run|
    ensures InStep(Surviving(true, run[..i]))
  {
    if i > 0 {
      RunInStep(run, i - 1);
      OneMoreOf(run, i - 1);
      NextInStep(Surviving(true, run[..i - 1]), run[i - 1]);
    }
  }

  lemma OneMoreOf(run: seq<Happening>, i: nat)
    requires i < |run|
    ensures Surviving(true, run[..i + 1]) == StillTold(true, Surviving(true, run[..i]), run[i])
  {
    assert run[..i + 1][..i] == run[..i];
  }

  lemma {:induction false} FileGrows(run: seq<Happening>, i: nat, j: nat)
    requires AtMost(run, 1) && i <= j <= |run|
    ensures Surviving(true, run[..i]).disk <= Surviving(true, run[..j]).disk
  {
    if i < j {
      hide Surviving, StillTold, InStep;
      FileGrows(run, i, j - 1);
      RunInStep(run, j - 1);
      OneMoreOf(run, j - 1);
      NextInStep(Surviving(true, run[..j - 1]), run[j - 1]);
    }
  }

  lemma FirstOf(run: seq<Happening>)
    ensures Surviving(true, run[..0]) == Survivors([], [], [])
  {
  }

  /** Two overlapping flushes, renamed in the wrong order, and a restart. */
  function Schedule(first: Record, second: Record): seq<Happening> {
    [Recording(first), Copying, Recording(second), Copying, Renaming(0, true), Renaming(0, true), Restarting]
  }

  /**
   Two flushes under way, and the older copy is renamed last: the second record was in the file and
   is lost, and after a restart it is gone.
   */
  lemma StaleRenameLosesRecord(first: Record, second: Record)
    ensures var run := Schedule(first, second);
      && AtMost(run, 2)
      && Surviving(true, run[..5]).disk == [first, second]
      && Surviving(true, run[..6]).disk == [first]
      && Live(true, run).memory == EntriesOf([first])
  {
    var run := Schedule(first, second);
    ScheduleTold(first, second);
    hide Surviving, StillTold, Live, Schedule;
    assert run[..|run|] == run;
    TrackerSurvivesRestarts(true, run);
  }

  lemma RecordingTold(m: seq<Record>, d: seq<Record>, cs: seq<seq<Record>>, r: Record)
    ensures StillTold(true, Survivors(m, d, cs), Recording(r)) == Survivors(m + [r], d, cs)
  {
  }

  lemma CopyingTold(m: seq<Record>, d: seq<Record>, cs: seq<seq<Record>>)
    ensures StillTold(true, Survivors(m, d, cs), Copying) == Survivors(m, d, cs + [m])
  {
  }

  lemma RenamingTold(m: seq<Record>, d: seq<Record>, cs: seq<seq<Record>>, c: seq<Record>)
    ensures StillTold(true, Survivors(m, d, cs + [c]), Renaming(0, true)) == Survivors(m, c, cs)
  {
  }

  lemma ScheduleTold(first: Record, second: Record)
    ensures var run := Schedule(first, second);
      && |run| == 7
      && Surviving(true, run[..0]) == Survivors([], [], [])
      && Surviving(true, run[..1]) == Survivors([first], [], [])
      && Surviving(true, run[..2]) == Survivors([first], [], [[first]])
      && Surviving(true, run[..3]) == Survivors([first, second], [], [[first]])
      && Surviving(true, run[..4]) == Survivors([first, second], [], [[first], [first, second]])
      && Surviving(true, run[..5]) == Survivors([first, second], [first, second], [[first]])
      && Surviving(true, run[..6]) == Survivors([first, second], [first], [])
      && Surviving(true, run[..7]) == Survivors([first], [first], [])
  {
    hide Surviving, StillTold;
    var run, both := Schedule(first, second), [first, second];
    FirstOf(run);
    OneMoreOf(run, 0);
    RecordingTold([], [], [], first);
    assert [] + [first] == [first];
    OneMoreOf(run, 1);
    CopyingTold([first], [], []);
    assert [] + [[first]] == [[first]];
    OneMoreOf(run, 2);
    RecordingTold([first], [], [[first]], second);
    assert [first] + [second] == both;
    OneMoreOf(run, 3);
    CopyingTold(both, [], [[first]]);
    assert [[first]] + [both] == [[first], both];
    OneMoreOf(run, 4);
    RenamingTold(both, [], [[first]], both);
    OneMoreOf(run, 5);
    RenamingTold(both, both, [], [first]);
    OneMoreOf(run, 6);
    RestartTold(both, [first], []);
  }

  lemma RestartTold(m: seq<Record>, d: seq<Record>, cs: seq<seq<Record>>)
    ensures StillTold(true, Survivors(m, d, cs), Restarting) == Survivors(d, d, [])
  {
  }

  /** No record is ever lost from the file exactly if flushes do not overlap. */
  lemma KeepsRecordsIff(k: nat)
    ensures KeepsRecords(k) <==> k <= 1
  {
    if k <= 1 {
      forall run | AtMost(run, k) ensures FileKeeps(run) {
        hide Surviving;
        assert AtMost(run, 1);
        forall i, j | 0 <= i <= j <= |run|
          ensures Surviving(true, run[..i]).disk <= Surviving(true, run[..j]).disk
        {
          FileGrows(run, i, j);
        }
      }
    } else {
      OverlapLoses(k);
    }
  }

  lemma OverlapLoses(k: nat)
    requires k >= 2
    ensures !KeepsRecords(k)
  {
    hide Surviving, Schedule;
    var r := Succeeded("u", 1);
    var run := Schedule(r, r);
    StaleRenameLosesRecord(r, r);
    ScheduleTold(r, r);
    assert AtMost(run, k);
    assert !(Surviving(true, run[..5]).disk <= Surviving(true, run[..6]).disk);
  }

  // ---------- the tracker object ----------

  class ServerStatusTracker {
    var entries: Entries
    const filePath: string

    constructor (filePath: string)
      ensures entries == map[] && this.filePath == filePath
    {
      entries := map[];
      this.filePath := filePath;
    }

    method GetOrCreateEntry(addr: string) returns (entry: Entry)
      modifies this`entries
      ensures entry == EntryOrNew(old(entries), addr)
      ensures entries == old(entries)[addr := entry]
    {
      if addr !in entries {
        entries := entries[addr := Entry(addr, "success", 0, 0, 0, 0, 0, "")];
      }
      entry := entries[addr];
    }

    method RecordSuccess(addr: string, now: nat)
      modifies this`entries
      ensures entries == Recorded(old(entries), Succeeded(addr, now))
    {
      var entry := GetOrCreateEntry(addr);
      entry := entry.(status := "success", lastChecked := now);
      entry := entry.(consecutiveOK := entry.consecutiveOK + 1, consecutiveFail := 0);
      entry := entry.(totalSuccess := Uint64(entry.totalSuccess + 1), lastError := "");
      entries := entries[addr := entry];
    }

    method RecordFail(addr: string, error: Option<string>, now: nat)
      modifies this`entries
      ensures entries == Recorded(old(entries), Failed(addr, now, error))
    {
      var entry := GetOrCreateEntry(addr);
      entry := entry.(status := "fail", lastChecked := now);
      entry := entry.(consecutiveFail := entry.consecutiveFail + 1, consecutiveOK := 0);
      entry := entry.(totalFail := Uint64(entry.totalFail + 1));
      if error.Some? {
        entry := entry.(lastError := error.value);
      }
      entries := entries[addr := entry];
    }

    method GetDeprioritized(threshold: int) returns (addrs: seq<string>)
      ensures Distinct(addrs)
      ensures forall a :: a in addrs <==> Deprioritized(entries, threshold, a)
      ensures forall a :: a in addrs <==>
        a in entries && entries[a].consecutiveFail >= (if threshold > 0 then threshold else 5)
    {
      var limit := threshold;
      if limit <= 0 {
        limit := 5;
      }
      addrs := [];
      var pending := entries.Keys;
      while pending != {}
        invariant pending <= entries.Keys
        invariant Distinct(addrs) && forall a :: a in addrs ==> a !in pending
        invariant forall a :: a !in pending ==> (a in addrs <==> Deprioritized(entries, threshold, a))
      {
        var addr :| addr in pending;
        if entries[addr].consecutiveFail >= limit {
          addrs := addrs + [addr];
        }
        pending := pending - {addr};
      }
    }

    /** The first half of a flush, under the lock. */
    method CopyEntries() returns (copy: Entries)
      ensures copy == entries
    {
      copy := map[];
      var pending := entries.Keys;
      while pending != {}
        invariant pending <= entries.Keys
        invariant forall a :: a in copy <==> a in entries && a !in pending
        invariant forall a :: a in copy ==> copy[a] == entries[a]
      {
        var addr :| addr in pending;
        copy := copy[addr := entries[addr]];
        pending := pending - {addr};
      }
    }

    /**
     The file after a flush. `disk` is what it holds when the copy is renamed; `written` says
     whether the temporary file could be written and renamed.
     */
    method Flush(disk: Entries, written: bool) returns (now: Entries)
      ensures now == if filePath == "" then disk else Renamed(entries, disk, written)
    {
      if filePath == "" {
        return disk;
      }
      var copy := CopyEntries();
      return if written then copy else disk;
    }

    method Load(file: FileContent) returns (ok: bool)
      modifies this`entries
      ensures entries == Loaded(filePath != "", old(entries), file)
      ensures var read := filePath != "" && file.Readable?;
        && (forall a :: a in entries <==> a in old(entries) || (read && a in file.entries))
        && (forall a :: a in entries ==>
              entries[a] == if read && a in file.entries then file.entries[a] else old(entries)[a])
      ensures ok <==> filePath == "" || file.Missing? || file.Readable?
    {
      if filePath == "" {
        return true;
      }
      match file
      case Missing => return true;
      case Unreadable => return false;
      case Malformed => return false;
      case Readable(loaded) =>
        ghost var was := entries;
        var pending := loaded.Keys;
        while pending != {}
          invariant pending <= loaded.Keys
          invariant forall a :: a in entries <==> a in was || (a in loaded && a !in pending)
          invariant forall a :: a in entries ==>
            entries[a] == if a in loaded && a !in pending then loaded[a] else was[a]
        {
          var addr :| addr in pending;
          entries := entries[addr := loaded[addr]];
          pending := pending - {addr};
        }
        assert entries == was + loaded;
        return true;
    }
  }
}
