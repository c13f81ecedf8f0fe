# Ludex playtime ledger

Ludex watches games start, stop and go idle, and turns what it sees into a durable record of
playtime. This project models the parts that keep that record and proves what they promise:

- `Idle`: the idle tracker and the pricing of idle intervals for a session from the two numbers
  read at its start. The bill is shown to be the growth of one price of the whole idle history,
  from which everything else about it follows.
- `Ledger`: the `sessions` and `applications` tables with their cached statistics, and the
  transactions that change them.
- `SessionManager`: the in-memory map of open sessions and each of the manager's handlers.
- `DaemonRuns`: whole runs of the daemon as a state machine: starts, stops, heartbeats, idle
  edges, changed settings, deletes and merges from outside, crashes at any step, recovery, and
  any database operation failing.
- `Pricing`: over the same runs, the interactive runtime of every row against what its user
  really did.
- `Text`, `SteamLog`: the Steam content log as bytes, read piece by piece.
- `Foreground`: the foreground transitions, and the loop around them with its grace timer and
  watched processes.
- `Streams`, `EndToEnd`: both sources' events, interleaved in any way, fed to the manager.
- `DisplayFold`: the fold that shows adjacent sessions as one span, and the delete that is
  handed the span's fragment ids.
- `Listings`: what whole runs leave for an application to list, and deleting from it.
- `ActivityGrid`: sessions clipped to day lanes.
- `Backup`: backup names, their order, and pruning.

An operation that the program carries out by changing an object is a method of a class
(`Ledger.Database`, `SessionManager.Manager`, `Idle.IdleTracker`, `SteamLog.SteamSource`,
`Foreground.ForegroundRunner`, `Backup.BackupDirectory`), proved to leave the value that a
specification function gives; the lemmas are about those functions.

Clocks, gate verdicts, file contents, settings and whether the database carries out a
transaction are parameters of the steps. Wall-clock times are integers, monotonic instants are
nanoseconds, and a duration is floored to whole seconds at every read, as in the program.
Monotonic instants go on across restarts; the idle tracker starts empty with every daemon. A
clean exit is the run of stops of `DaemonRuns.StopAllIsRun` followed by a crash step with
nothing left to track.

## Where the code and its documentation disagree

- `close_and_rollup` trusts the caller's application id. If an application is merged away while
  its session is open, closing under the old id unbalances the statistics. The exact condition
  is `Ledger.CloseKeepsSoundIffOwner`; `Ledger.StaleOwnerUnbalances` is the failing family. The
  merge command refuses to run beside the daemon (`crates/ludex-cli/src/merge.rs:17-23`), so the
  runs of `DaemonRuns` merge only while the daemon is down.
- `merge_into` says SQLite's two-argument MAX ignores NULL
  (`crates/ludex-core/src/repo/application.rs:335-339`). It is NULL as soon as one argument is,
  so `last_played_at` becomes the later known time if and only if both applications have been
  played or neither has; when just one has, its time is lost (`Ledger.MergeKeepsLatestPlayedIff`).
- `OpenSessionExists` is called unreachable with a single daemon
  (`crates/ludex-daemon/src/session_manager.rs:289-306`). It is reachable exactly when a close
  has failed since recovery last finished (`DaemonRuns.OpenSessionExistsReachableIff`): the map
  entry is removed before the close, so a failed close leaves an open row nobody tracks. That
  row stays open and untracked through every step until it is recovered
  (`DaemonRuns.UntrackedUntilRecovered`), and meanwhile every start of its game is dropped
  (`DaemonRuns.OpenRowDropsStarts`). `DaemonRuns.FailedCloseLosesNextStart` is such a run.
- Backup names whose timestamp cannot be parsed are said to sort last
  (`crates/ludex-core/src/backup.rs:140-142`). In a directory with a snapshot they do exactly
  when each sorts below the oldest one (`Backup.UnparseableListedLastIff`); a name sorts below
  every possible snapshot exactly when it sorts below the first
  (`Backup.SortsOutsideSnapshotsIff`). Names whose stamp starts with a letter never do
  (`Backup.UnparseableNamesSortFirst`), nor, beside snapshots of 2026, does `ludex-9.sqlite`
  (`Backup.DigitLedNameSortsFirst`). Names that sort first take the place of a snapshot when
  pruning (`Backup.PruneKeepsLatestUnlessDisplaced` says exactly when).
- The clamp on interactive runtime is not idle: flooring at every read lets a bill exceed the
  full runtime by one second and no more. It can for a session exactly when the session begins
  in the middle of a second of idling past its grace (`Idle.BillExceedsFullIff`;
  `Idle.ExtraSecondIsReached` is one).
- Interactive runtime can fall by one second, and no more, between two heartbeats. It can from
  a read on exactly when the open idle interval, past its grace, is further into its second than
  the session is into its own, and some interactive time has been counted
  (`Idle.InteractiveFallsIff`; `Idle.FallIsReached` is such a pair of reads).
- Deleting a span from a listing that mixes applications can make its two neighbours join, as
  in `DisplayFold.DeletingVisitJoinsNeighbours`; `DisplayFold.DeleteKeepsOtherSpansIff` says
  exactly when. In the listing of one application it cannot while its sessions follow one
  another, which every run without merges and without the wall clock stepping back ensures
  (`Listings.RunsListSequentially`). A merge of two applications that were played at the same
  time, or a clock set back, can leave sessions that overlap.

## Model

| member | source | states |
|---|---|---|
| Idle.BillIsPriceGrowth | crates/ludex-daemon/src/idle.rs:144-181 | the bill read from the two baseline numbers is the price of the history now less its price at the baseline, each natural interval costing max(0, length - grace) once |
| Idle.BillingTelescopes | crates/ludex-daemon/src/idle.rs:106-181 | for every idle history and instants t0 <= t1 <= t2, the bills of [t0, t1] and [t1, t2] add up to that of [t0, t2], also when one interval spans both |
| Idle.GraceForgivenOncePerInterval | crates/ludex-daemon/src/idle.rs:125-139 | any chain of back-to-back sessions bills each natural interval exactly max(0, length - grace) in total; chains with gaps bill no more |
| Idle.BillCountsIdleSeconds | crates/ludex-daemon/src/idle.rs:144-208 | on a whole-second clock the bill is the number of in-session seconds, counted one by one, in which the user is idle and the streak has used up the grace |
| Idle.BillWithinFullPlusOne | crates/ludex-daemon/src/idle.rs:144-226 | with floors at every read the bill is at most full runtime + 1 however many intervals there are, and at most full runtime on a whole-second clock |
| Idle.ClampMovesAtMostOneSecond | crates/ludex-daemon/src/session_manager.rs:464-483 | the clamp into [0, full] moves full - billed by at most one second, and not at all on a whole-second clock |
| Idle.BillExceedsFullIff | crates/ludex-daemon/src/idle.rs:106-181 | some history makes a session's bill exceed its full runtime, so that the clamp binds, if and only if the session begins with an open idle interval past its grace and within a second |
| Idle.ExtraSecondIsReached | crates/ludex-daemon/src/idle.rs:106-111 | one such session, whose bill is full runtime + 1 |
| Idle.InteractiveFallsIff | crates/ludex-daemon/src/session_manager.rs:464-483 | some history makes a session's interactive runtime fall below what was read at a moment if and only if the open interval is past its grace and further into its second than the session is into its own, and the value read is positive |
| Idle.FallIsReached | crates/ludex-daemon/src/session_manager.rs:464-483 | one such session: 1 second is read, and 0 a tenth of a second later |
| Idle.InteractiveBetweenHeartbeats | crates/ludex-daemon/src/session_manager.rs:407-433 | at fixed grace, interactive runtime falls by at most one second between two reads, and never on a whole-second clock |
| Idle.IdleWithinElapsed | crates/ludex-daemon/src/idle.rs:195-226 | idle seconds recorded over any stretch never exceed the time that passed, fractions included |
| Idle.IdleTracker.constructor | crates/ludex-daemon/src/idle.rs:63-66 | a tracker begins with no interval |
| Idle.IdleTracker.SetIdle | crates/ludex-daemon/src/idle.rs:195-208 | the tracker moves to the next moment of its history; a repeated hint changes nothing |
| Idle.IdleTracker.SessionStartBaseline | crates/ludex-daemon/src/idle.rs:106-111 | the number of sealed intervals and the floored age of the open one, of the same moment |
| Idle.IdleTracker.AccumulatedIdleSeconds | crates/ludex-daemon/src/idle.rs:71-80 | the saturating loop returns the exact sum of all intervals |
| Idle.IdleTracker.BillableIdleSecondsSince | crates/ludex-daemon/src/idle.rs:144-181 | the saturating loop returns the exact bill: saturation is never reached within the clock's range |
| Ledger.Database.constructor | crates/ludex-core/migrations/0001_initial_schema.sql:84-102 | an empty database |
| Ledger.Database.FindApplication | crates/ludex-core/src/repo/application.rs:96-118 | the application with the key, if any |
| Ledger.Database.CreateApplication | crates/ludex-core/src/repo/application.rs:34-83 | adds an application with zero statistics, refused when the key exists |
| Ledger.Database.BeginSession | crates/ludex-core/src/repo/session.rs:34-52 | adds an open row, or reports the row already open, or fails without effect |
| Ledger.Database.HeartbeatSession | crates/ludex-core/src/repo/session.rs:58-71 | rewrites the runtimes of an open row, leaves a closed one alone, refuses runtimes the schema forbids |
| Ledger.Database.CloseAndRollup | crates/ludex-core/src/repo/session.rs:268-320 | closes the row and adds it to the statistics in one step, or changes nothing |
| Ledger.Database.DeleteSessionsAndRecompute | crates/ludex-core/src/repo/session.rs:353-427 | removes exactly the rows and rebuilds the touched applications; refuses any open row without deleting anything |
| Ledger.Database.MergeInto | crates/ludex-core/src/repo/application.rs:294-374 | re-parents the rows, combines the statistics and drops the source, or changes nothing |
| Ledger.CreateKeepsSound | crates/ludex-core/src/repo/application.rs:34-83 | creating keeps statistics equal to the recomputed ones and at most one open row per application |
| Ledger.BeginKeepsSound | crates/ludex-core/src/repo/session.rs:34-52 | beginning a session keeps both |
| Ledger.HeartbeatKeepsSound | crates/ludex-core/src/repo/session.rs:58-71 | a heartbeat keeps both: open rows are not counted |
| Ledger.CloseKeepsSoundIffOwner | crates/ludex-core/src/repo/session.rs:268-320 | closing keeps the statistics balanced if and only if it changes nothing or names the owning application |
| Ledger.RepeatedCloseIsNoOp | crates/ludex-core/src/repo/session.rs:293-299 | a second close, or a late heartbeat, changes nothing |
| Ledger.DeleteKeepsSound | crates/ludex-core/src/repo/session.rs:353-427 | deleting any set of rows, of any number of applications, keeps statistics equal to the recomputed ones |
| Ledger.MergeKeepsSound | crates/ludex-core/src/repo/application.rs:294-374 | merging two applications keeps them equal, and at most one open row per application |
| Ledger.EveryRunStaysSound | crates/ludex-core/src/repo/session.rs:34-427 | over every interleaving of all transactions, every cached count is the number of the closed rows, every total the sum of their column, every longest their maximum, and no application has two open rows |
| Ledger.StaleOwnerUnbalances | crates/ludex-core/src/repo/session.rs:301-316 | every close under an application id merged away in between loses the session from the statistics |
| Ledger.MergeKeepsLatestPlayedIff | crates/ludex-core/src/repo/application.rs:335-359 | last_played_at after a merge is the later of the two ignoring a missing one, as the comment says, if and only if both applications or neither had been played; it is set if and only if both had |
| Ledger.RecomputeCountsAndBounds | crates/ludex-core/src/repo/session.rs:402-420 | the recomputed count is the number of closed rows, each total the sum of its own column over them, the longest bounds them all and is one of them, or 0 |
| Ledger.CachedStatsDescribeRows | crates/ludex-core/src/repo/session.rs:301-316 | so, in a sound database, is every cached statistic |
| Ledger.CloseRecords | crates/ludex-core/src/repo/session.rs:276-316 | an accepted close writes end, runtimes, reason and last play time, and nothing else |
| Ledger.DeleteRebuildsOwners | crates/ludex-core/src/repo/session.rs:353-427 | a delete leaves every other row, gives the owners of deleted rows the statistics and last play time of the rows left, and leaves every other application as it was |
| Ledger.MergeKeepsIdentities | crates/ludex-core/src/repo/application.rs:294-374 | the destination stays the game it was, first seen when either was; every other application but the source is untouched; lookups find what they found, or nothing for the source's key |
| Ledger.MergeKeepsRows | crates/ludex-core/src/repo/application.rs:324-333 | every row stays, those of the source now the destination's |
| Ledger.CanMergeIff | crates/ludex-core/migrations/0003_one_open_session_per_app.sql:42-45 | two existing applications can be merged exactly when the merged rows keep one open row each; one cannot be merged into itself |
| Ledger.CreateRecords | crates/ludex-core/src/repo/application.rs:34-83 | a new application has its own id and key, nothing played, and is found by its key; everything else stays |
| Ledger.BeginRecords | crates/ludex-core/src/repo/session.rs:34-52 | a new row is open, has lasted no time and was alive when it began; everything else stays |
| Ledger.LatestEndIsLatest | crates/ludex-core/src/repo/session.rs:416-417 | the rebuilt last_played_at is the latest end of the closed rows, or nothing without one |
| Ledger.EachClosedRowCountedOnce | crates/ludex-core/src/repo/session.rs:301-316 | summed over all applications, the cached count is the number of all closed rows and the cached totals are the sums of their columns |
| SessionManager.RecoverAllCloses | crates/ludex-daemon/src/session_manager.rs:184-209 | recovery ends exactly the listed open rows, at their last heartbeat and with its runtimes, marked as recovered; every other row stays as it was |
| SessionManager.StopAllEmpties | crates/ludex-daemon/src/session_manager.rs:522-530 | stopping a batch untracks exactly its keys |
| SessionManager.Manager.constructor | crates/ludex-daemon/src/session_manager.rs:131-150 | a manager begins with nothing open |
| SessionManager.Manager.RuntimesFor | crates/ludex-daemon/src/session_manager.rs:464-483 | full and interactive runtime of an open session at an instant |
| SessionManager.Manager.RecoverOrphans | crates/ludex-daemon/src/session_manager.rs:184-209 | closes the open rows one by one in any order and stops at the first failure; on success no row is open |
| SessionManager.Manager.HandleStarted | crates/ludex-daemon/src/session_manager.rs:271-389 | a start is dropped when blocked, tracked, refused or failed; otherwise it opens a row and tracks it with the idle baseline of that instant |
| SessionManager.Manager.HandleStopped | crates/ludex-daemon/src/session_manager.rs:345-352 | a stop untracks the key and closes its row; a failed close untracks it all the same |
| SessionManager.Manager.CloseSession | crates/ludex-daemon/src/session_manager.rs:485-520 | closes a row with the runtimes sampled now |
| SessionManager.Manager.HeartbeatOpenSessions | crates/ludex-daemon/src/session_manager.rs:407-433 | writes the runtimes of open sessions in any order, up to the first failure; on success all of them |
| SessionManager.Manager.CloseAllOpen | crates/ludex-daemon/src/session_manager.rs:522-530 | shutdown closes every session it can and leaves the map empty |
| DaemonRuns.NextKeepsInv | crates/ludex-daemon/src/session_manager.rs:184-530 | every step of the daemon or from outside, failing or not, keeps: the books balanced, each map entry on its own open row, and each row's runtime equal to its monotonic elapsed seconds when last written |
| DaemonRuns.EveryRunKeepsInv | crates/ludex-daemon/src/session_manager.rs:213-252 | hence every run of the daemon from a new installation does, whatever fails and wherever it crashes |
| DaemonRuns.StopRecordsEnd | crates/ludex-daemon/src/session_manager.rs:345-352 | a tracked game's stop ends its row at that time as terminated, and the game was last played then |
| DaemonRuns.BeatRecordsLife | crates/ludex-core/src/repo/session.rs:58-71 | a heartbeat is the row's latest sign of life, ends nothing and leaves the statistics |
| DaemonRuns.RefusedStatementsWriteNothing | crates/ludex-daemon/src/session_manager.rs:271-389 | a statement the database refuses writes nothing; a start may have added its application before |
| DaemonRuns.OutsideStepsTakeEffect | crates/ludex-cli/src/merge.rs:17-23 | deletes, merges while the daemon is down and changed settings take effect as they are |
| DaemonRuns.RunPlaysIdleHistory | crates/ludex-daemon/src/idle.rs:195-208 | between two crashes the tracker goes through exactly the idle history of the run, so that the theorems of `Idle` hold of runs |
| DaemonRuns.CrashForgetsIdling | crates/ludex-daemon/src/idle.rs:63-66 | a crash keeps the database and the time, and the next tracker has seen nothing |
| DaemonRuns.BeatAllIsRun | crates/ludex-daemon/src/session_manager.rs:407-433 | a heartbeat batch, with any failures, is a run of single heartbeat steps at one instant |
| DaemonRuns.StopAllIsRun | crates/ludex-daemon/src/session_manager.rs:522-530 | shutdown is a run of single stop steps |
| DaemonRuns.RecoverAllIsRun | crates/ludex-daemon/src/session_manager.rs:184-209 | recovery is a run of single closing steps and changes nothing but the database |
| DaemonRuns.TrackingLostIffCloseFails | crates/ludex-daemon/src/session_manager.rs:345-352 | while the daemon is up, a step leaves some open row untracked if and only if it is a stop whose close fails |
| DaemonRuns.OpenMapMirrorsOpenRows | crates/ludex-daemon/src/session_manager.rs:271-352 | in every run, with crashes and recoveries, while the daemon is up the map and the open rows correspond one to one, agreeing on session, application and key, if and only if no close has failed since recovery last finished |
| DaemonRuns.EntriesNameOpenRows | crates/ludex-daemon/src/session_manager.rs:320-352 | whatever fails, each map entry names an open row of the application with its key |
| DaemonRuns.OpenSessionExistsReachableIff | crates/ludex-daemon/src/session_manager.rs:286-308 | in every run, while the daemon is up, some start gets past the map and meets an open row if and only if a close has failed since recovery last finished |
| DaemonRuns.UntrackedUntilRecovered | crates/ludex-daemon/src/session_manager.rs:171-183 | a row nobody tracks stays open and untracked through every step, crashes included, except a successful recovery of that row while the daemon is down |
| DaemonRuns.OpenRowDropsStarts | crates/ludex-daemon/src/session_manager.rs:286-308 | every start of the game of an open row meets the row and changes nothing, and it gets past the map if and only if the row is untracked |
| DaemonRuns.FailedCloseLosesNextStart | crates/ludex-daemon/src/session_manager.rs:345-352 | a run from a new installation in which one close fails and the next start of that game is lost |
| DaemonRuns.RecoveryBootsIff | crates/ludex-daemon/src/daemon.rs:117-120 | from any moment the daemon is down, running recovery brings it up if and only if every open row was listed and closed, and then nothing is open or tracked |
| DaemonRuns.CrashLosesAtMostOneInterval | crates/ludex-core/src/repo/session.rs:54-71 | over any run with crashes anywhere, a session begun and not deleted has its row; closed, it claims at most its true elapsed seconds, and with heartbeats on pace at most 60 less |
| DaemonRuns.EachSessionCountedOnce | crates/ludex-daemon/src/session_manager.rs:184-209 | once nothing is open, as after recovery, the run counts add up to the sessions begun and not deleted |
| Pricing.EveryRowPaysForIdling | crates/ludex-daemon/src/session_manager.rs:309-328 | over any run, each row's full runtime is the floored time from the session's start to its last write, and its interactive runtime is that less the growth of the idle price in between at the grace then in force, never below 0 |
| Pricing.NextKeepsPriced | crates/ludex-daemon/src/session_manager.rs:464-520 | every step keeps that, for tracked sessions, whose baselines are those of their start, and for rows, whoever closes, recovers, merges or deletes |
| DaemonRuns.LedgerStaysSound | crates/ludex-core/src/repo/session.rs:256-320 | after any run the cached statistics are the recomputed ones |
| Text.DecodePrefixAtNewline | crates/ludex-daemon/src/sources/steam.rs:452-467 | no code point straddles a newline byte: valid UTF-8 cut after a newline is valid |
| Text.DecodesIff | crates/ludex-daemon/src/sources/steam.rs:460-467 | bytes decode to a text exactly when they are its UTF-8 encoding as section 3 of RFC 3629 defines it |
| Text.SplitOnceIff | crates/ludex-daemon/src/sources/steam.rs:519-520 | a text is split at the first occurrence of the pattern, if there is one at all |
| Text.SplitPartition | crates/ludex-daemon/src/sources/steam.rs:525-527 | the pieces are the text cut at every separator |
| Text.LinesPartition | crates/ludex-daemon/src/sources/steam.rs:469 | the lines are the text cut after every newline, nothing lost |
| SteamLog.StateChangeRoundTrip | crates/ludex-daemon/src/sources/steam.rs:518-531 | parsing a printed state line gives back its appid and whether App Running is among its flags |
| SteamLog.StateChangeOfPieces | crates/ludex-daemon/src/sources/steam.rs:518-531 | with any pieces between the commas the appid comes back, and running exactly when some piece trims to the flag |
| SteamLog.PaddedFlagCounts | crates/ludex-daemon/src/sources/steam.rs:525-529 | the flag counts wherever it stands and whatever blanks surround it |
| SteamLog.ParsedLineForm | crates/ludex-daemon/src/sources/steam.rs:518-531 | a line that parses has the form of a state change, of a nonempty appid of digits |
| SteamLog.LastLineDecides | crates/ludex-daemon/src/sources/steam.rs:469-503 | after any lines, a game some line names is running exactly when the last such line carries App Running, any other exactly when it was before, and events sent stay sent |
| SteamLog.ReadingFollowsLog | crates/ludex-daemon/src/sources/steam.rs:424-507 | so for every schedule of appends and drains, over the lines read |
| SteamLog.ReplacedLogIsReadFromStart | crates/ludex-daemon/src/sources/steam.rs:436-441 | a log shorter than the cursor is read from its start, from there on as in one pass |
| SteamLog.IncrementalEqualsOnePass | crates/ludex-daemon/src/sources/steam.rs:424-507 | for any log that only grows and any schedule of appends and drains, the cursor stays on a line boundary, and events and running set are those of reading the bytes passed once |
| SteamLog.DrainAdvancesIff | crates/ludex-daemon/src/sources/steam.rs:446-467 | a drain advances if and only if a newline lies within the read limit and the bytes up to the last such newline are valid UTF-8 |
| SteamLog.DrainsCatchUp | crates/ludex-daemon/src/sources/steam.rs:424-507 | on a log that stopped growing, with valid lines shorter than the limit, repeated drains reach the end of the last line |
| SteamLog.DrainKeepsFaithful | crates/ludex-daemon/src/sources/steam.rs:469-503 | whatever happens to the file, truncation included, starts and stops of each appid alternate and the running set is what they leave running |
| SteamLog.ScanStartsEachRunningGameOnce | crates/ludex-daemon/src/sources/steam.rs:151-242 | the cold-start scan starts exactly the installed games with a live process, or, when processes could not be listed, with the manifest flag, each once however many libraries list it |
| SteamLog.SteamSource.constructor | crates/ludex-daemon/src/sources/steam.rs:312 | nothing is running before the scan |
| SteamLog.SteamSource.ColdStartScan | crates/ludex-daemon/src/sources/steam.rs:151-242 | the scan loop leaves the running set and events of the specification |
| SteamLog.SteamSource.DrainOrKeep | crates/ludex-daemon/src/sources/steam.rs:385-409 | a log that cannot be read leaves everything as it was |
| SteamLog.SteamSource.DrainLines | crates/ludex-daemon/src/sources/steam.rs:424-507 | one pass: truncation, limit, partial tail, invalid text and line loop |
| Foreground.RunnerStaysOrderly | crates/ludex-daemon/src/sources/kwin/source.rs:192-284 | over any activations, exits, timeouts and setting changes, events with the closing stop are start-stop pairs, the timer is armed exactly while the game is in the background, and the tracked process is watched |
| Foreground.TurnKeepsOrderly | crates/ludex-daemon/src/sources/kwin/transition.rs:150-301 | each turn keeps that |
| Foreground.AcceptedWindowStarts | crates/ludex-daemon/src/sources/kwin/transition.rs:172-223 | an accepted window of another process stops the game tracked before, if any, and starts, tracks and watches its own, keyed by its launcher or its executable |
| Foreground.NothingElseStarts | crates/ludex-daemon/src/sources/kwin/transition.rs:224-225 | while nothing is tracked every other turn changes nothing |
| Foreground.FocusChangesIff | crates/ludex-daemon/src/sources/kwin/transition.rs:156-248 | a game goes to the background, its deadline set, exactly when a rejected window takes the focus with pausing enabled, and comes back exactly when its own window does or a due timer finds pausing disabled |
| Foreground.GameEndsIff | crates/ludex-daemon/src/sources/kwin/transition.rs:150-301 | a tracked game is stopped exactly when another game is accepted, its process exits, or the timer runs out with pausing enabled; every other turn sends nothing and keeps it |
| Foreground.WithoutPauseFocusLossNeverEnds | crates/ludex-daemon/src/sources/kwin/transition.rs:226-282 | with pausing disabled, over any turns, a session ends only by exit or takeover, also when a timer is still armed |
| Foreground.DeadlineIsFocusLossPlusGrace | crates/ludex-daemon/src/sources/kwin/source.rs:445-455 | in every run an armed deadline is the moment the game lost focus plus the grace in force then |
| Foreground.UnresolvingTurnsChangeNothing | crates/ludex-daemon/src/sources/kwin/transition.rs:244-248 | however many rejected windows, unrelated exits or early timers, nothing changes while the game is in the background |
| Foreground.ShortAltTabIsInvisible | crates/ludex-daemon/src/sources/kwin/transition.rs:156-166 | leaving for rejected windows and coming back before the deadline sends nothing and restores the runner exactly |
| Foreground.ForegroundAlternates | crates/ludex-daemon/src/sources/kwin/source.rs:399-455 | every key's events alternate, never concern Steam keys, and leave the tracked game running, or none after closing |
| Foreground.ForegroundRunner.constructor | crates/ludex-daemon/src/sources/kwin/source.rs:221-223 | nothing tracked, no timer |
| Foreground.ForegroundRunner.ApplyOutcome | crates/ludex-daemon/src/sources/kwin/source.rs:399-455 | sends the events in order, watches a started process, takes the new state and timer |
| Foreground.ForegroundRunner.HandleActivation | crates/ludex-daemon/src/sources/kwin/source.rs:286-326 | one activation is one turn; the daemon's own windows are ignored |
| Foreground.ForegroundRunner.HandleExit | crates/ludex-daemon/src/sources/kwin/source.rs:231-245 | one exit is one turn |
| Foreground.ForegroundRunner.HandleTimer | crates/ludex-daemon/src/sources/kwin/source.rs:246-265 | a due timer is dropped and handled as one turn |
| Foreground.ForegroundRunner.SendClosingStop | crates/ludex-daemon/src/sources/kwin/source.rs:192-199 | on the way out the tracked game is stopped |
| Streams.ShuffleAlternates | crates/ludex-daemon/src/sources/steam.rs:469-503 | two alternating streams over disjoint keys alternate however interleaved, and the running keys are those running in either |
| EndToEnd.ManagerFollows | crates/ludex-daemon/src/session_manager.rs:271-352 | fed an alternating stream after recovery, the manager holds open exactly the running keys not dropped by the blocklist at their start |
| EndToEnd.ManagerNeverSurprised | crates/ludex-daemon/src/session_manager.rs:277-351 | on the way it meets no duplicate start, and an unknown stop exactly for a start it dropped |
| EndToEnd.OpenFollowsDeliveredEvents | crates/ludex-daemon/src/session_manager.rs:213-352 | the same for any two sources' histories of which any prefixes have arrived, interleaved in any way |
| EndToEnd.OpenFollowsSources | crates/ludex-daemon/src/session_manager.rs:213-352 | once all events have arrived, the open sessions are those of the running Steam games and the tracked foreground game, less those dropped |
| DisplayFold.Fold | crates/ludex-core/src/session_merge.rs:93-141 | the loop that changes the last span in place gives the fold |
| DisplayFold.FoldShowsMaximalRuns | crates/ludex-core/src/session_merge.rs:113-141 | the fold shows the rows cut exactly where neighbours may not join: any such cut gives its spans |
| DisplayFold.TwoRowsJoinIff | crates/ludex-core/src/session_merge.rs:119-132 | two rows show as one span exactly when of one application, the older closed, and no more than the gap apart |
| DisplayFold.DisplayedTotalsAreStatistics | crates/ludex-core/src/session_merge.rs:145-170 | while an application has nothing open, the spans displayed of its full listing add up to its cached totals |
| DisplayFold.FragmentIdsAreRowIds | crates/ludex-core/src/session_merge.rs:114-138 | read in order, the fragment ids are the row ids |
| DisplayFold.FoldConservesTotals | crates/ludex-core/src/session_merge.rs:145-170 | full and interactive totals are conserved when no sum leaves 64 bits |
| DisplayFold.NeighboursApart | crates/ludex-core/src/session_merge.rs:119-132 | no two neighbouring spans could still be joined |
| DisplayFold.FoldIdempotent | crates/ludex-core/src/session_merge.rs:93-141 | folding what is shown changes nothing |
| DisplayFold.LimitNeverDistortsSpans | crates/ludex-core/src/repo/session.rs:110-143 | folding only the newest n rows shows the same spans, the last with a prefix of its fragments, same id and end |
| DisplayFold.DeleteKeepsOtherSpansIff | crates/ludex-core/src/session_merge.rs:119-138 | in any listing, deleting a span's fragments leaves the other spans unchanged if and only if its neighbours may not join |
| DisplayFold.DeletingVisitJoinsNeighbours | app/src/routes/activity/+page.svelte:188-198 | a mixed listing in which deleting the visit to another game joins the spans around it |
| DisplayFold.SequentialNeighboursStayApart | crates/ludex-core/src/session_merge.rs:119-132 | in a listing of one application whose sessions do not overlap they never may |
| DisplayFold.DeleteWhatYouSee | crates/ludex-core/src/repo/session.rs:322-427 | deleting a displayed closed span of one application removes exactly its rows, keeps the books balanced, and the new listing shows the same spans without it, when the application's sessions do not overlap |
| DisplayFold.DeleteWhatYouSeeUnderLimit | crates/ludex-core/src/repo/session.rs:110-127 | the same when only the newest n rows are fetched: the next fetch shows the other spans as they were, the last perhaps with more fragments, and then older spans |
| Listings.RunsListSequentially | crates/ludex-daemon/src/session_manager.rs:184-530 | in every run without merges whose wall clock does not step back and never gives two starts of one game the same instant, an application's sessions are listed one after the other, only the newest possibly open |
| Listings.RunsDeleteWhatYouSee | crates/ludex-core/src/repo/session.rs:322-427 | so in every such run, whatever the limit, deleting a displayed closed span leaves the other displayed spans as they were |
| ActivityGrid.BlockCoversOverlap | app/src/lib/activityGrid.ts:53-78 | a block exists exactly when the session overlaps the day, has exactly that width and place, lies inside the lane, and its seconds are off by at most 500 ms |
| ActivityGrid.BuildLanes | app/src/lib/activityGrid.ts:101-123 | for each of the days that end with today, oldest first, the lane between its midnights with the blocks and total of its sessions; none for a count of 0 or less |
| ActivityGrid.LaneDrawsEachSession | app/src/lib/activityGrid.ts:113-119 | a lane draws each session on its own, in the order the sessions come |
| ActivityGrid.LanesConserveOverlap | app/src/lib/activityGrid.ts:30-37 | for days of any length, a session's clipped time summed over lanes is its overlap with the window |
| ActivityGrid.GridConservesPlaytime | app/src/lib/activityGrid.ts:90-123 | the grid's total seconds differ from the time played in the window by at most 500 ms per block |
| ActivityGrid.DrawnIffSelected | crates/ludex-core/src/repo/session.rs:159-186 | a stored session draws a block if and only if the range query selects it and, closed, it lasted some time, or, open, it and the window began before now |
| ActivityGrid.UnparseableDrawsNothing | app/src/lib/activityGrid.ts:62-66 | a session whose start or end cannot be parsed draws nothing |
| Backup.NameRoundTrip | crates/ludex-core/src/backup.rs:59-80 | for every second of the years 0 to 9999 the name parses back to it |
| Backup.NameOfOneMoment | crates/ludex-core/src/backup.rs:38-65 | the name of one moment, spelled out |
| Backup.YearStarts | crates/ludex-core/src/backup.rs:38-39 | the order of times is that of the Gregorian calendar |
| Backup.OnlyBackupsAreTouched | crates/ludex-core/src/backup.rs:126-132 | a file is listed exactly when its name is `ludex-`, anything, `.sqlite`; no other file is ever pruned |
| Backup.NameOrderIsTimeOrder | crates/ludex-core/src/backup.rs:140-143 | bytewise order of names is order of time, and equal names are equal times |
| Backup.ListBackups | crates/ludex-core/src/backup.rs:115-144 | lists exactly the backup names, in descending order, each with the one moment it was made for or without a timestamp |
| Backup.ParsedNameIsFormatted | crates/ludex-core/src/backup.rs:70-80 | a name that parses is exactly the name made for the moment it parses to |
| Backup.BackupDirectory.Prune | crates/ludex-core/src/backup.rs:150-168 | leaves exactly what is specified and reports exactly what went; a failure leaves the rest in place |
| Backup.PruneLeavesKeepAndIsIdempotent | crates/ludex-core/src/backup.rs:146-168 | min(n, max(1, keep)) backups are left, and pruning again changes nothing |
| Backup.PruneKeepsLatest | crates/ludex-core/src/backup.rs:146-168 | among snapshots, one is pruned exactly when max(1, keep) others are later |
| Backup.PruneKeepsLatestUnlessDisplaced | crates/ludex-core/src/backup.rs:123-143 | with other files in the directory, exactly when later snapshots and backup names sorting above it number max(1, keep) |
| Backup.UnparseableNamesSortFirst | crates/ludex-core/src/backup.rs:140-142 | a backup name whose stamp begins with a letter sorts above every snapshot |
| Backup.UnparseableListedLastIff | crates/ludex-core/src/backup.rs:140-143 | in a directory with a snapshot, names that cannot be parsed are listed last if and only if each sorts below the oldest snapshot |
| Backup.SortsOutsideSnapshotsIff | crates/ludex-core/src/backup.rs:140-143 | a name sorts below every snapshot of the years 0 to 9999 if and only if it sorts below the first, and above every one if and only if it sorts above the last |
| Backup.DigitLedNameSortsFirst | crates/ludex-core/src/backup.rs:140-143 | `ludex-9.sqlite` is a backup name without a timestamp and sorts above every snapshot of 2026 |

## Left out

- `last_played_at` in the ledger invariant: closing assigns it and merging may lose it, so only its rebuild after a delete has a law.
- `record_idle_interval`: only tests call it; called while an interval is open it breaks the meaning of the first interval after a baseline.
- A grace that changes within one session: the daemon's runs allow it, the theorems of `Idle` about several reads hold it fixed.
- The few statements between reading the idle baseline and the session's start instant, and between sampling the clock and reading the tracker: read as one instant.
- `end` and `apply_playback`: each does half of a close; the daemon uses `close_and_rollup`.
- Overflow of the statistics columns, and of SQLite's SUM, beyond 64 bits.
- RecoverOrphans: no other process writes while recovery runs.
- Steam log lines written between the cold-start scan and the first cursor read are skipped by the program; drain theorems start at the first cursor.
- SteamLog.IncrementalEqualsOnePass: stated for logs that only grow; a log found shorter than the cursor restarts at zero (`ReplacedLogIsReadFromStart`), one that has grown past the cursor again unnoticed is read on from there, as in the program.
- A receiver that has gone away, which ends the scan or the line loop early.
- Display names of games: those of the foreground source are modelled, no property is stated of them.
- Steam names, manifest and VDF parsing, `/proc` scanning, inotify, polling intervals: whether a manifest is readable, its flags and the live appids are inputs.
- The gate's own verdict, pidfd watching, the KWin script and D-Bus: verdicts and exits are inputs; a watched process that exits is seen at most as an exit turn.
- Flatpak keys: no source modelled here makes them.
- Enrichment, identity columns, metadata fill in `merge_into`, icons, groups, settings storage, notifications.
- Listings.RunsListSequentially: runs with a merge, a clock set back or two starts of one game at one instant are outside it; `DisplayFold.DeleteKeepsOtherSpansIff` covers every listing.
- Text timestamps: row times are integers in time order.
- The gap between sessions is an integer duration; its conversion through a floating-point number is not modelled. The two row types of the fold are one generic row with the untouched columns as `rest`.
- ActivityGrid.BuildLanes: the instants between which the walk over local days moves are a given function of the day; time zones and clock changes, which decide them, are not computed. Percentages are real numbers.
- `daily_playtime_since`, `create_snapshot`, `restore`, the backup scheduler.
- Backup.ListBackups: the library sort is modelled by insertion; paths and file sizes are dropped.
- Backup.NameRoundTrip: signed years and years beyond 9999 in names are not modelled.
- The idle watchers that feed `set_idle`.
