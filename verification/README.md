# ssh-roundrobin, verified

This project models the upstream selector of the SSH round-robin proxy, the request protocol
around it, and three smaller parts it depends on, and proves what they guarantee over every
input, every run and every interleaving. Check it with `dafny verify dfyconfig.toml`.

## What is modelled

| file | part of the program |
|---|---|
| `CyclicScan.dfy` | the uint32 index arithmetic of the loadbalance scan, and shares of a cyclic scan |
| `Selector.dfy`, `SelectorLaws.dfy` | the pool as a value: selection under both strategies, health checks, removal, and their laws |
| `ScanSteps.dfy`, `RoundRobin.dfy` | the same operations as the program runs them: mutable clients and pool, the loops, one method per critical section, each proved equal to its value-level function |
| `FailureTable.dfy` | the per-target failure table as a lazily expiring cache, its key, and the event log it stands for |
| `Protocol.dfy`, `ProtocolLaws.dfy`, `Overlap.dfy`, `RunLog.dfy` | all handlers, the health checker and shutdown interleaved, with invariants of every reachable state |
| `Program.dfy` | the running program: the selector object, the clients its handlers hold, and the run of the protocol made so far; every step of the protocol carried out on the object |
| `Requests.dfy`, `Retry.dfy` | one connection on that program: the retry loop with other goroutines' steps in between, the tunnel's report, and the accept loop's part; the state it leads to as a function of the world's choices, and the methods that reach exactly that state and whose steps are read off the run |
| `LoadBalanceRuns.dfy`, `MissedServer.dfy` | loadbalance over whole runs: shares of the requests, and when a free server is missed |
| `DocumentedRule.dfy` | the documented failure threshold against what runs do |
| `Startup.dfy` | from the servers file to a filled pool, the initial state of every run |
| `Status.dfy` | the status tracker, its file, flushes under way, and restarts |
| `Socks5.dfy` | decoding a SOCKS5 request and what the client is sent (RFC 1928, sections 3, 4 and 6) |
| `Addresses.dfy` | host:port addresses, decimal text, lines of the servers file |
| `Basics.dfy` | options, distinct lists, pigeonhole |

Outcomes of the network (a connect, a keepalive, a dial through a tunnel, the verdict on a
tunnel) are parameters that may take any value; a connect that succeeds gives a live client. A
clock reading is a parameter of each critical section, taken once, as in the code. Within a run
of the protocol it never goes back. A step of the protocol is one critical section under the
selector's lock.

## What was found

- The failure threshold does not count failures over time. Looking at a pair that is not blocked
  deletes its entry (`internal/sshroundrobin/targetfailure.go:23`), and every selection looks.
  The repository's `README.md:99` promises "Failures before temporary block". `OptionsAsDocumentedIff`
  shows that the program does this in all its runs for threshold 1 and for no larger threshold: one
  client whose requests come one at a time and all fail is never blocked (`RoundsAreNotBlocked`).
  What a larger threshold really counts is overlap: `FailuresNeedOverlap`, `SerialRunsNeverBlock`
  and `BlockingPossibleIff`. No run blocks more than the documented rule (`RunNeverBlocksTooMuch`).
- `internal/config/config.go:104` calls 0 connections "unlimited"; `internal/app/app.go:31-33`
  makes it 100. The model follows the code (`Protocol.ConfigOf`); `ConnectionLimit` shows that the
  program then fills up at exactly 100 connections.
- A loadbalance scan that wraps around 2^32 can look at one server twice and miss another, and
  then fail although the missed one is connected and free. `VisitsEachOnceIff` and `NeverMissesIff`
  give the exact condition for one request. `RunsNeverMissIff` says which running programs are safe
  from it: those whose number of servers divides 2^32, and no others.
- The builds for 32-bit targets (`Makefile:18`) use a 32-bit `int`, where the scan index becomes
  negative once the counter passes 2^31: with three servers the first index is -2
  (`NarrowIndexExample`). `NarrowScanInRangeIff` and `NarrowFailoverInRangeIff` give the exact
  counters for which a whole request has usable indices.
- A flush of the status tracker renames its copy after giving up the lock
  (`internal/status/persistence.go:52-76`), so an older copy can replace a newer one and a record
  that was already in the file can be lost (`StaleRenameLosesRecord`). `KeepsRecordsIff` gives the
  exact condition: the file never loses a record if at most one flush is under way at a time, and
  with two it can. The shutdown flush and a periodic one can be under way at once.

## Model

| member | source | states |
|---|---|---|
| CyclicScan.VisitsEachOnceIff | internal/sshroundrobin/strategy.go:11-17 | a loadbalance scan is a bijection between its steps and the servers iff the counter does not wrap inside it or the pool size divides 2^32 |
| CyclicScan.WrappedScanRepeats | internal/sshroundrobin/strategy.go:15-17 | otherwise two steps of one scan look at the same server |
| CyclicScan.WrappedScanExample | internal/sshroundrobin/strategy.go:16 | three servers at the last counter value: the scan looks at 0, 0, 1 |
| CyclicScan.NarrowIndexInRangeIff | internal/sshroundrobin/strategy.go:16 | with 32-bit int one step's index is in range iff the counter is below 2^31 or the negative value is a multiple of the pool size |
| CyclicScan.NarrowScanInRangeIff | internal/sshroundrobin/strategy.go:15-17 | with 32-bit int all indices of a loadbalance scan are in range iff there is one server, or it ends before the counter reaches 2^31, or right there with a pool size dividing 2^31 |
| CyclicScan.NarrowFailoverInRangeIff | internal/sshroundrobin/strategy.go:79-83 | with 32-bit int all indices of a failover scan without an active server are in range iff the counter is below 2^31 or 2^32 minus it is a multiple of the pool size |
| CyclicScan.NarrowIndexExample | internal/sshroundrobin/strategy.go:16 | counter 2^31 and three servers: the first index of either scan is -2 |
| SelectorLaws.OrderIsPermutation | internal/sshroundrobin/strategy.go:74-86 | a whole trying order reaches every server and none twice |
| SelectorLaws.SelectionIsFirstUsable | internal/sshroundrobin/strategy.go:9-116 | both strategies return the server that is first in cyclic order from the start (the active server in failover, else the counter) among those not excluded, without a standing block, and connected or, with room under the cap, connecting now; and fail iff there is none |
| SelectorLaws.SelectionServes | internal/sshroundrobin/strategy.go:18-42 | a selected server is connected, healthy, not excluded, not blocked, counted once, its failure entry gone, everything else unchanged, and active in failover |
| SelectorLaws.RefusedAreTheFailedDials | internal/sshroundrobin/strategy.go:34-41 | the connection errors notified are exactly the connects that the selection made and that failed, in the order of the scan |
| SelectorLaws.ServedClientCounts | internal/sshroundrobin/lifecycle.go:9-23 | the client handed out counts one selection, and one reconnect iff it was not connected |
| SelectorLaws.FailedSelection | internal/sshroundrobin/strategy.go:113-115 | a selection that finds nothing changes no client and leaves nothing active |
| SelectorLaws.SelectionMovesCounter | internal/sshroundrobin/strategy.go:74-80 | the uint32 counter moves on by one, except while failover has an active server or without servers |
| SelectorLaws.SelectionForgets | internal/sshroundrobin/targetfailure.go:14-24 | a selection adds and changes no failure entry |
| SelectorLaws.ForgottenIff | internal/sshroundrobin/targetfailure.go:14-24 | a failure entry is forgotten iff its block has ended and it belongs to a server that the selection came to and that was not excluded |
| SelectorLaws.SelectionKeepsWf | internal/sshroundrobin/strategy.go:97-115 | selection keeps healthy equal to connected, the active index sound, and loadbalance without an active server |
| SelectorLaws.SelectionKeepsCap | internal/sshroundrobin/strategy.go:10-42 | loadbalance selection keeps the number of connected clients within maxActive |
| SelectorLaws.FailoverIsSticky | internal/sshroundrobin/strategy.go:52-65 | while the chosen server stays eligible the next request gets it again; it was connected, and no connect is attempted at any place of the order |
| SelectorLaws.NeverMissesIff | internal/sshroundrobin/strategy.go:15-47 | for a given counter and pool size, one request finds a connected free server in every pool that has one iff the scan is whole |
| MissedServer.RunsNeverMissIff | internal/sshroundrobin/strategy.go:9-48 | at every selection of every loadbalance run, from every servers file with n servers and every startup, with none removed, a connected free server is found whenever there is one iff n divides 2^32 |
| MissedServer.SomeRunMisses | internal/sshroundrobin/strategy.go:11-16 | otherwise some run started from a servers file serves one request after the other until the next one fails, although a server is connected and free |
| LoadBalanceRuns.RunCountsOn | internal/sshroundrobin/strategy.go:11 | over any run that removes no server the counter moves by the number of selections, modulo 2^32 |
| LoadBalanceRuns.RunSharesAreExact | internal/sshroundrobin/strategy.go:9-48 | in any part of a run with n selections on n servers, with reports, cleanups, health checks and other handlers in between, fixed availability and whole scans: each available server serves one plus the number of unavailable ones uninterruptedly before it |
| LoadBalanceRuns.RunSharesAreEven | internal/sshroundrobin/strategy.go:9-48 | in any part of a run with all servers available and whole scans any two servers serve numbers differing by at most one |
| LoadBalanceRuns.CalmRunsShareEvenly | internal/sshroundrobin/strategy.go:9-48 | started with all servers connected, every run in which nothing fails and whose scans are whole is shared evenly, within one |
| SelectorLaws.ScansAreWholeIff | internal/sshroundrobin/strategy.go:11-16 | every scan of m consecutive requests is whole iff the last one ends before the counter wraps or the pool size divides 2^32 |
| SelectorLaws.FullPoolIsSteady | internal/sshroundrobin/strategy.go:24-42 | once the cap is reached availability is fixed over alike requests in a row: connected, not excluded, not blocked at the start |
| SelectorLaws.FailoverHealthCheck | internal/sshroundrobin/healthcheck.go:109-142 | afterwards a connected healthy server is active (the same if it answered, else the lowest that answered, else the lowest that reconnects) or none is and everything failed |
| SelectorLaws.HealthCheckOfServer | internal/sshroundrobin/healthcheck.go:85-138 | what a health check makes of each server: connected iff it was and answered, or failover reached it because none answered; its counters; counter and table of the pool stay |
| SelectorLaws.SwitchIsReported | internal/sshroundrobin/healthcheck.go:109-142 | the report names the old and the new active server iff failover had none or it did not answer; otherwise the active server stays |
| SelectorLaws.FailedAreListedInOrder | internal/sshroundrobin/healthcheck.go:94-101 | the failed list is the connected servers that did not answer, each once, in pool order |
| ProtocolLaws.HealthCheckStep | internal/app/shutdown.go:34-40 | the same in every reached state of the program: who is connected afterwards, and whether failover has a connected active server |
| SelectorLaws.HealthCheckKeepsWf | internal/sshroundrobin/healthcheck.go:85-142 | a health check keeps healthy equal to connected and the active index sound |
| SelectorLaws.HealthCheckKeepsCap | internal/sshroundrobin/healthcheck.go:85-111 | a loadbalance health check opens no connection |
| SelectorLaws.HealthReportBalances | internal/sshroundrobin/healthcheck.go:85-107 | checked = failed + survivors, and nothing ever recovers |
| SelectorLaws.FailedAreTheSilent | internal/sshroundrobin/healthcheck.go:94-101 | the failed list holds exactly the addresses of connected clients whose keepalive failed |
| SelectorLaws.RemovalKeepsActive | internal/sshroundrobin/roundrobin.go:148-168 | removal keeps the order of the rest and the active server, unless it is the one removed |
| SelectorLaws.ShutdownEmpties | internal/sshroundrobin/roundrobin.go:171-181 | shutdown disconnects every client and leaves none in the pool, with its counters, the scan counter and the table as they were |
| SelectorLaws.RemovalKeepsCap | internal/sshroundrobin/roundrobin.go:148-168 | removal keeps the connection cap |
| RoundRobins.SSHClient.Connected | internal/sshroundrobin/sshclient.go:38-49 | a client built with a connection is connected and healthy |
| RoundRobins.SSHClient.Lazy | internal/sshroundrobin/sshclient.go:51-58 | a lazy client is neither |
| RoundRobins.SSHClient.MarkSelected | internal/sshroundrobin/lifecycle.go:9-12 | counts one selection, modulo 2^64, and changes nothing else |
| RoundRobins.SSHClient.EnsureConnected | internal/sshroundrobin/lifecycle.go:18-23 | a connected client is left alone, another is dialled |
| RoundRobins.SSHClient.Close | internal/sshroundrobin/lifecycle.go:25-35 | afterwards neither connected nor healthy |
| RoundRobins.SSHClient.IsConnected | internal/sshroundrobin/lifecycle.go:37-45 | tells connectedness and never leaves a disconnected client healthy |
| RoundRobins.SSHClient.HealthCheck | internal/sshroundrobin/lifecycle.go:53-78 | healthy iff connected and answering; a silent client is dropped |
| RoundRobins.SSHClient.Reconnect | internal/sshroundrobin/lifecycle.go:107-134 | connected and healthy iff the dial succeeds, the success counted |
| RoundRobins.RoundRobin.constructor | internal/sshroundrobin/roundrobin.go:71-86 | an empty pool with a cap of at least one |
| RoundRobins.RoundRobin.Add | internal/sshroundrobin/roundrobin.go:104-108 | the client goes last, nothing else changes |
| RoundRobins.RoundRobin.ConnectedCountLocked | internal/sshroundrobin/roundrobin.go:94-102 | counts the connected clients |
| RoundRobins.RoundRobin.IsTargetBlockedLocked | internal/sshroundrobin/targetfailure.go:9-25 | tells whether the pair is blocked, and drops the entry of a pair that is not |
| RoundRobins.RoundRobin.TryServer | internal/sshroundrobin/strategy.go:17-44 | the loop body of both scans advances the scan by exactly one place of the trying order |
| RoundRobins.RoundRobin.GetLoadBalanceLocked | internal/sshroundrobin/strategy.go:9-48 | the scan with its counter and cap leaves the pool, client and notifications of the selection specification |
| RoundRobins.RoundRobin.ScanNext | internal/sshroundrobin/strategy.go:74-115 | the failover scan after the active server, which it meets only at its last step, completes the selection specification |
| RoundRobins.RoundRobin.GetFailoverLocked | internal/sshroundrobin/strategy.go:50-116 | the active attempt followed by the scan is the same first-usable selection from the active server |
| RoundRobins.RoundRobin.GetForTarget | internal/sshroundrobin/roundrobin.go:114-127 | either strategy implements the selection specification, with an error on an empty pool |
| RoundRobins.RoundRobin.RunHealthChecks | internal/sshroundrobin/healthcheck.go:76-143 | the probe loop, switch and reconnect loop leave the pool and report of the specification |
| RoundRobins.RoundRobin.Remove | internal/sshroundrobin/roundrobin.go:144-169 | the client is closed and gone, the order of the rest kept, the same client object stays active |
| RoundRobins.RoundRobin.CloseAll | internal/sshroundrobin/roundrobin.go:171-181 | every client is closed and the pool is empty with nothing active |
| RoundRobins.RoundRobin.ReportTargetFailure | internal/sshroundrobin/targetfailure.go:27-51 | the pair's count grows by one and it is blocked from the threshold on; nil client and empty target do nothing |
| RoundRobins.RoundRobin.ReportTargetSuccess | internal/sshroundrobin/targetfailure.go:53-61 | the pair's entry is gone, the others stay |
| RoundRobins.RoundRobin.CleanupExpiredTargets | internal/sshroundrobin/targetfailure.go:63-72 | the table is the cleaned one, in whatever order the keys are visited |
| FailureTable.FailureBlocksIff | internal/sshroundrobin/targetfailure.go:27-51 | after a failure report the pair is blocked for exactly the option's time to live, or ten minutes, once the count reaches the threshold; below it an earlier block stays |
| FailureTable.OtherEntriesStay | internal/sshroundrobin/targetfailure.go:14-61 | looks and reports change no other pair's entry |
| FailureTable.CleanupKeepsIff | internal/sshroundrobin/targetfailure.go:63-72 | a cleanup keeps, unchanged, exactly the entries of blocks that have not ended before it |
| Overlap.ReportBlocksFor | internal/sshroundrobin/targetfailure.go:34-49 | in every reached state a failure report at threshold 1 blocks its pair for exactly the option's time to live, or ten minutes |
| Overlap.CleanupForgets | internal/sshroundrobin/targetfailure.go:63-72 | in every run, after a cleanup at which no block of a pair stands, it takes the whole threshold of failures again to block it |
| FailureTable.KeyIsDecodable | internal/sshroundrobin/targetfailure.go:5-7 | for a colon-free upstream host the key gives back upstream host, upstream port, target host and target port |
| FailureTable.KeyCollidesWithColon | internal/sshroundrobin/targetfailure.go:5-7 | with a colon in the upstream host two different pairs share a key |
| FailureTable.NeverBlocksTooMuch | internal/sshroundrobin/targetfailure.go:9-51 | for every threshold a blocked pair has enough failures since its last success and an unexpired last one |
| FailureTable.TableRefinesLog | internal/sshroundrobin/targetfailure.go:9-72 | at threshold 1, over all interleavings of reports, selections and cleanups, blocked iff the last report is an unexpired failure |
| FailureTable.BackToBackReportsAccumulate | internal/sshroundrobin/roundrobin_test.go:171-194 | reports with no selection between them accumulate, for every threshold |
| Retry.NothingUsable | internal/sshroundrobin/strategy.go:15-47 | when a selection over a whole order fails, each server was excluded, blocked, refused the connection, or was disconnected with the cap full |
| Programs.Program.constructor | internal/app/connect.go:21-61 | the program starts with the selector as startup left it and an empty run |
| Programs.Program.GetForTarget | internal/sshroundrobin/roundrobin.go:114-127 | the selector's answer to a handler is the protocol's selection step: same pool, same outcome, and the client is the object at the chosen place |
| Programs.Program.ReportFailure | internal/sshroundrobin/targetfailure.go:27-51 | a failure report on the selector is the protocol's failing step of the handler that holds the client |
| Programs.Program.ReportSuccess | internal/sshroundrobin/targetfailure.go:53-61 | a success report on the selector is the protocol's step at the end of a good tunnel |
| Programs.Program.Maintain | internal/app/shutdown.go:34-53 | cleanup, health check, removal and shutdown on the selector are the protocol's steps; exactly the clients of the removed places leave the pool, and their objects are the retired ones of the state |
| Programs.Program.Perform | internal/sshroundrobin/roundrobin.go:104-181 | every enabled step of the protocol can be carried out on the selector object, which is then in the state the protocol says |
| Programs.Program.SelectorKeepsInv | internal/sshroundrobin/strategy.go:24-42 | whatever steps the program has made: the invariant of all runs, the connection cap of the selector object, no client object outside the pool connected, and the selections counted by all client objects = reports + selections outstanding, modulo 2^64 |
| Retry.OtherStep | internal/app/app.go:115-123 | a step of another goroutine happens iff it is enabled, and leaves this handler's part of the run alone |
| Retry.RunOthers | internal/app/app.go:115-123 | any steps of others: exactly the state and the pool members they lead to, and no step of this handler |
| Requests.PlaceTells | internal/sshroundrobin/roundrobin.go:148-181 | after any steps of others a server that stayed in the pool is where its place says, and one without a place is gone |
| Requests.UseOutcome | internal/proxy/dial.go:42-62 | a try ends well iff the target answers and the server is still in the pool and connected; never after a shutdown, and surely if connections only stay |
| Retry.UseUpstream | internal/proxy/dial.go:42-62 | ends well iff the target answers and the client is still connected after the steps of others; otherwise exactly one failure report; the state is the one the world determines |
| Retry.TryNext | internal/proxy/dial.go:30-62 | one turn makes one selection, and one failure report iff it got a client that did not lead to the target; its outcome and its state are those the world determines |
| Retry.DialTargetWithRetries | internal/proxy/dial.go:16-74 | leads to exactly the state the world's choices determine; its part of the run is Begin, selection and failure report for each failed try, then the selection that gave the client, or one that gave none, or giving up; distinct tries, at most the option or else the pool size, and exactly that many when it gives up after them; otherwise the run's last selection turned every server down |
| Retry.HandleConnection | internal/proxy/forward.go:15-43 | the same, and after a tunnel one more report; the handler ends finished with its number of tries and its reasons for giving up; after a tunnel the pair has an entry iff the tunnel was suspicious |
| Retry.ServeConnection | internal/app/app.go:113-126 | a connection is served iff the semaphore has room; it leads to exactly the state the world determines, its part of the run is Accept, those steps and Release, with distinct tries within the limit and the reasons for giving up |
| Requests.EachTryIsReportedOnce | internal/proxy/dial.go:29-63 | in that part of a run there are as many reports as upstreams tried, and one selection each, plus one if the last found nothing |
| ProtocolLaws.RunKeepsInv | internal/app/app.go:96-127 | the invariant of every state of every run: client and active-index soundness, cap, at most capacity handlers with distinct tries within their limit, retired clients disconnected, selections conserved |
| ProtocolLaws.StepConserves | internal/sshroundrobin/lifecycle.go:9-12 | every step keeps selections counted = successes + failures reported + selections outstanding, modulo 2^64 |
| ProtocolLaws.StepAnswers | internal/proxy/forward.go:36-42 | a successful selection makes one outstanding selection, a report ends one, no other step does either |
| ProtocolLaws.QuiescentRunBalances | internal/proxy/dial.go:42-63 | with no request under way, selections counted = successes reported + failures reported |
| ProtocolLaws.ShutdownIsFinal | internal/sshroundrobin/roundrobin.go:171-181 | after shutdown, whatever still runs, the pool stays empty and every client ever in it is disconnected and never selected, dialled or changed again |
| Overlap.FailuresNeedOverlap | internal/sshroundrobin/targetfailure.go:19-50 | for every pair and interleaving, failures counted + selections outstanding stay within the peak of simultaneous selections of the pair, hence within the semaphore |
| Overlap.BlockNeedsOverlap | internal/sshroundrobin/targetfailure.go:47-49 | a blocked pair has been selected at least threshold times at once |
| Overlap.SerialRunsNeverBlock | internal/proxy/dial.go:28-63 | with one request at a time no threshold of 2 or more ever blocks anything |
| Overlap.BlockingPossibleIff | internal/app/app.go:113-122 | for some servers file, startup and run some pair is blocked iff the threshold does not exceed the semaphore's capacity |
| Overlap.ThresholdsThatCanBlock | internal/app/app.go:30-36 | the same in terms of the options, where a connection limit of 0 means 100 |
| Overlap.FillsUpAtIff | internal/app/app.go:113-126 | some run comes to a state with n handlers that turns every connection away iff n is the semaphore's capacity |
| Overlap.ConnectionLimit | internal/app/app.go:30-36 | the same in terms of the option: with 0 connections allowed the program fills up at 100 |
| RunLog.RunIsLogged | internal/sshroundrobin/strategy.go:13-27 | in every run the table is the table of the log of probes, reports and cleanups that the run made |
| RunLog.StartupIsProper | internal/config/servers.go:49-72 | whatever lines a servers file has, the pool it fills has colon-free hosts, so its failure keys cannot collide |
| RunLog.RunBlocksAsDocumented | internal/sshroundrobin/targetfailure.go:9-72 | in every state of every run with threshold 1 a pair is blocked iff its last report is an unexpired failure |
| RunLog.RunNeverBlocksTooMuch | internal/sshroundrobin/targetfailure.go:9-72 | for any threshold a run blocks nothing that the documented rule leaves open |
| DocumentedRule.RoundsAreNotBlocked | internal/sshroundrobin/targetfailure.go:19-24 | for a threshold of 2 or more, that many failing requests, one after the other from startup, leave the pair open although the documented rule blocks it |
| DocumentedRule.RunsAsDocumentedIff | README.md:99 | every run for every servers file and startup blocks exactly as documented iff the threshold is at most 1, for any semaphore that admits a connection |
| DocumentedRule.OptionsAsDocumentedIff | README.md:99 | the same in terms of the options, whatever they are |
| DocumentedRule.FollowsDocumentationIff | internal/sshroundrobin/targetfailure.go:19-24 | the table by itself follows the documented threshold on every log iff the threshold is at most 1; the failing log is that of a run |
| Startup.ConnectServers | internal/app/connect.go:34-60 | the pool holds one client per server in file order, connected exactly if among the first connectable ones, and the failed dials are recorded in order |
| Startup.StartupConnections | internal/app/connect.go:34-47 | the number of connections after startup is the limit, or all connectable servers if fewer |
| Startup.StartupConnectsFirst | internal/app/connect.go:34-56 | a server is connected at startup iff its dial succeeds and fewer are up before it than failover's one or loadbalance's option; all counters start at 0 |
| Startup.RecordedAtStartup | internal/app/connect.go:41-53 | the failures recorded at startup are exactly the dials made that failed, in file order |
| Startup.CapHoldsFromStartup | internal/app/connect.go:34-56 | from startup on, in every run, loadbalance has at most maxActive connections and nothing active |
| Startup.StartProgram | internal/app/connect.go:12-61 | the program starts iff the servers file is acceptable and names a server, in the start state that the file's addresses and the dial outcomes give |
| Status.EntryTellsHistory | internal/status/serverstatus.go:47-85 | for any history an entry is its trailing runs, totals, last error, time and status, never with both runs positive |
| Status.DeprioritizedByHistory | internal/status/serverstatus.go:87-102 | deprioritized iff the last threshold records of the upstream are all failures |
| Status.TrackerSurvivesRestarts | internal/status/persistence.go:30-81 | over any run of records, flushes whose copy and rename are apart, and restarts, memory, file and copies are the folds of exactly the surviving records |
| Status.CleanRestartsLoseNothing | internal/app/shutdown.go:73-76 | with an undisturbed written flush right before each restart the tracker is that of an uninterrupted history |
| Status.StaleRenameLosesRecord | internal/status/persistence.go:43-76 | two flushes under way and the older copy renamed last: a record that was in the file is gone, after a restart too |
| Status.KeepsRecordsIff | internal/status/persistence.go:38-82 | over all runs with at most k flushes under way at a time the file never loses a record iff k is at most 1 |
| Status.ServerStatusTracker.RecordSuccess | internal/status/serverstatus.go:47-64 | the entries move on by one success record |
| Status.ServerStatusTracker.RecordFail | internal/status/serverstatus.go:66-85 | the entries move on by one failure record |
| Status.ServerStatusTracker.GetDeprioritized | internal/status/serverstatus.go:87-102 | lists each deprioritized address once and no other |
| Status.ServerStatusTracker.CopyEntries | internal/status/persistence.go:43-52 | the copy taken under the lock has exactly the entries |
| Status.ServerStatusTracker.Flush | internal/status/persistence.go:38-82 | the file ends up with the entries as copied at the start, or with what it held at the time of the rename if unnamed or unwritable |
| Status.ServerStatusTracker.Load | internal/status/persistence.go:12-36 | the file's entries replace those of the same address; a missing file is no error |
| Socks5.DecodeOfRequest | internal/proxy/socks5.go:34-85 | decoding a CONNECT request followed by anything gives its target and consumes the request |
| Socks5.RequestOfDecoded | internal/proxy/socks5.go:34-85 | what is consumed is the CONNECT request of the decoded target |
| Socks5.DecodeIff | internal/proxy/socks5.go:34-85 | a stream decodes to a target iff it starts with a CONNECT request for it |
| Socks5.OutputShape | internal/proxy/socks5.go:97-142 | the handler's own output is empty, the method choice, or that and one reply; success only after a dial |
| Socks5.RequestBytes | internal/proxy/socks5.go:34-84 | the bytes of a CONNECT request for each kind of address |
| Socks5.GreetingBytes | internal/proxy/socks5.go:97-118 | a greeting is accepted iff it is of version 5 and brings the methods it announces, at least one |
| Socks5.AnswerBytes | internal/proxy/socks5.go:28-76 | the bytes that answer each kind of request: reply 7 to another command, 8 to an unknown address type, 0 or 1 to a whole request, nothing to another version or a request that breaks off |
| Socks5.OutputBytes | internal/proxy/socks5.go:120-142 | nothing is written before an accepted greeting, then the choice of no authentication and the answer |
| Socks5.SuccessIff | internal/proxy/socks5.go:103-142 | the client is told of success iff it sent a greeting and a CONNECT request and the dial succeeded |
| Socks5.ReadSocks5Target | internal/proxy/socks5.go:34-85 | reading step by step gives the decoded target, consumes exactly the request, and writes only a rejection |
| Socks5.ReadGreeting | internal/proxy/socks5.go:97-118 | accepts version 5 with at least one method and consumes exactly the greeting |
| Socks5.HandleSocks5 | internal/proxy/socks5.go:89-142 | over all streams the output is the specified one and a target is served iff the stream holds a valid conversation for it |
| Addresses.ParseServerLine | internal/config/servers.go:49-117 | a line is refused for exactly the listed reasons in order; an accepted line gives the server it describes: host, port or 22, password unless a dash, authentication by proxy command, else key file, else password, else default key, with its key path |
| Addresses.LineErrorIs | internal/config/servers.go:50-114 | each reason for refusing a line in terms of its text and the options |
| Addresses.ParseServersFile | internal/config/servers.go:15-47 | the first faulty line is reported with its reason; otherwise the servers are, in order, those that the naming lines describe |
| Addresses.NamingLinesInOrder | internal/config/servers.go:29-41 | the naming lines are exactly those that are not empty and do not start with a hash sign, in order |
| Addresses.ServerLineRoundTrip | internal/config/servers.go:50-72 | host:port:password written and split again gives the three parts and the port's value |
| Addresses.SplitIsInverseOfJoin | internal/config/servers.go:50 | the fields of a line join back to the line |
| Addresses.FieldsHaveNoSeparator | internal/config/servers.go:50-55 | no field of a line holds the separator, so no upstream host has a colon |
| Addresses.FileAddrsAreProper | internal/config/servers.go:50-72 | no address of a servers file has a colon in its host |
| Addresses.AtoiOfDecimal | internal/sshroundrobin/sshserver.go:29-31 | the port's decimal text reads back as the port |
| Addresses.AtoiAcceptsIff | internal/config/servers.go:62-65 | a port is accepted iff it is digits, after a sign or none, whose value fits 64 bits |

## Left out

- RoundRobins.RoundRobin.Add: weaker than the source, which appends any client; it requires a client that is not yet in the pool and whose healthy flag agrees with its connection; the only caller, startup, adds clients it has just made.
- RoundRobins.RoundRobin.ReportTargetFailure: the error text kept in an entry is not modelled; nothing reads it.
- RoundRobins.SSHClient.Reconnect: the closing of the old connection and the error text are not modelled; timestamps and error texts of a client are only displayed.
- CyclicScan.ExactShares: like EvenShares it is about an unbounded counter; SelectorLaws.LoadBalanceSharesAreExact carries it over to the uint32 counter for requests in a row, and LoadBalanceRuns.RunSharesAreExact for whole runs.
- LoadBalanceRuns.RunSharesAreExact: for runs in which failures are reported the fixed availability is a hypothesis; the program promises no shares otherwise.
- MissedServer.RunsNeverMissIff: about a semaphore with at least one place, as the options always give.
- CyclicScan.NarrowFailoverInRangeIff: requires a pool of at most 2^30 servers, the most that fit in memory on a 32-bit target.
- Retry.ServeConnection: reading a SOCKS5 request before the retry loop is a handler that has not begun; a request that cannot be read is the protocol's step Abandon.
- Retry.DialTargetWithRetries: the calls to the status tracker and the composed error texts are not modelled; the tracker is modelled on its own.
- Startup.StartProgram: opening the file, removing blanks around its lines and loading the status file are not part of it; a fatal exit is a null result.
- Socks5.HandleSocks5: writes are taken to succeed; after a failed write of the method choice the program just closes. The target's text form is not modelled (an IPv6 address is printed without brackets), only its bytes and port.
- Status.ServerStatusTracker.Load: the JSON text and the temporary file are not modelled; a file is its entries, missing, unreadable or malformed. Times and strings are taken to survive the JSON form.
- Whether the chosen SOCKS method was offered: the program does not look at the offered methods.
- SSH handshakes, keys, keepalive transport and the proxy command: outcomes are parameters.
- Byte copying in a tunnel and the timing test that makes it suspicious: the verdict is a parameter.
- A connection cap in failover: the program has none.
- Adding servers after startup, `GetWithRetry`, accessors, statistics text, strategy names, flags and environment, daemon mode, signals and logging: no further protocol, or presentation only.
- Unreachable wrap of the failure count and of the consecutive-run counters: both are unbounded here.
