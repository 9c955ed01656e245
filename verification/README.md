# TradeBench, modelled and proved

TradeBench benchmarks trading engines: a bot fleet sends orders, an ingester
replays the telemetry against an order book and measures each run, a scorer
ranks the results, and a leaderboard pushes them to browsers. This project
models the parts where that can go wrong over unbounded inputs and
interleavings, and proves what holds in every case. `dafny verify
dfyconfig.toml` checks all of it.

| file | models |
|---|---|
| `Sorting.dfy` | the contract of `sort.Slice` on one numeric field (no stability promised) |
| `OrderBook.dfy` | price levels with first-come queues, and the flat list of resting orders they index |
| `Validator.dfy`, `ReplayMeaning.dfy`, `Ties.dfy` | the fill validator as it runs, what its counts mean, and what events sent at the same instant do to them |
| `Window.dfy`, `SnapshotMeaning.dfy` | run windows and their manager as objects, and what a snapshot says about the telemetry |
| `WindowProtocol.dfy`, `RunHistory.dfy`, `ManagerProgress.dfy`, `ManagerAlone.dfy` | the manager's operations cut at their lock steps and interleaved by three goroutines: the machine with its invariants, what happens to a run, progress, and the operations run alone |
| `Hub.dfy`, `Board.dfy`, `ClientView.dfy`, `Convergence.dfy`, `LeaderboardProtocol.dfy` | the hub, the Redis board, the browser's reducer, snapshot plus replay, and the whole live leaderboard as one machine |
| `Tracker.dfy`, `TrackerRuns.dfy` | the submission status store, and any number of submissions interleaving in it |
| `Fleet.dfy`, `TelemetryChannel.dfy` | pacing arithmetic of the bots, and the life of their telemetry channels |
| `Scoring.dfy` | the score formula and the keep-best board |

Conventions. Prices, scores and latencies in milliseconds are `real` (no NaN,
no rounding); times are whole nanoseconds as `int`; Kafka topics are sequences
of events; clock readings are parameters. A protocol is a `State`, an `Action`
type, `Enabled` and `Do`; `Reachable` covers every finite run of it, so the
theorems about reachable states hold for every interleaving. History variables
of a protocol (`finished`, `snaps`, `got`, ...) are never read by `Enabled` or
by program variables.

What the proofs found about the code:

- A cancel removes one order per side, the best priced and then the earliest of
  its ID. So the replay's books are the uncancelled orders if and only if no
  cancel of the log comes while two orders of its ID rest on one side
  (`BooksAsDeclaredIff`; `SharedIDMisjudged` is a wrong verdict). Even then the
  replay errs on one side only, towards more orders resting (`ReplayErrsOneWay`),
  and `VerdictsAgreeIff` says exactly when later verdicts are still right.
- Verdicts are independent of input order and of the sort used when events sent at
  the same instant are harmless to each other (`OrderDoesNotMatter`). Distinct send
  times within each symbol are enough, and an event delivered twice does no harm.
  Two tied events are harmless in every context if and only if neither acts on the
  side the other is judged against and neither cancels the other (`HarmlessIff`);
  any other tie changes the verdict on some batch (`TieChangesVerdict`).
- A run is reported by the first check that starts two seconds after its duration,
  whatever happens meanwhile (`RunIsReported`), with the metrics its telemetry
  determines (`SnapshotsReportTelemetry`).
- An event can be recorded in a window that was already snapshotted and removed,
  and is then never reported (`AddCanBeLate`). That happens if and only if a
  snapshot of the run is taken between the add's lookup and its recording
  (`LateIff`), at most once per snapshot (`EventsConserved`).
- The browser's first 50 are the server's Top50 if and only if each of the
  server's 50 was in the snapshot or was updated since the client joined
  (`ClientTopAgreesIff`); updates that never lower a score suffice, and
  `TopsCanDiffer` is a run in which the two differ.
- A submission ends completed with its score if and only if, among its own calls,
  it was queued, its score and its completion arrived after its run ID was set,
  and nothing queued, started or failed it after the completion
  (`EndsAsExpectedIff`). The upload handler publishes before it records the
  submission as queued, so a fast pipeline leaves it queued for good
  (`LateQueueLosesCompletion`), and a run.started message delivered again sets a
  completed submission back to running (`RedeliveredStartRegresses`).
- The order budget of the bots holds for runs of every length if and only if the
  target rate divides the workers' nanoseconds per second (`BudgetHoldsIff`), which
  every multiple of ten does. For other rates it holds up to forty million orders
  (`OrdersWithinBudget`) and fails in long enough runs (`LongRunOvershoots`).
- The project's documentation says the leaderboard keeps the best score through
  `ZADD GT`. The scorer's board does; the leaderboard service writes its own key
  with a plain `ZADD`, so it follows the latest run (`BoardsAgreeIff`,
  `WorseRunLowersLiveBoard`). The model follows the code.
- The documented latency and throughput formulas agree with the code exactly on
  non-negative measurements (`ComponentsAsDocumented`).

## Model

| member | source | states |
|---|---|---|
| `OrderBooks.InsertLevel` | apps/ingester/internal/correctness/orderbook.go:56-71 | inserting an order keeps the levels strictly sorted, non-empty, each the arrival-order filter of the flat list at its price, now with the order appended |
| `OrderBooks.RemoveFromLevels` | apps/ingester/internal/correctness/orderbook.go:73-86 | removal leaves an index of the flat list without the best-priced, then earliest, order of that ID, and unchanged if there is none |
| `OrderBooks.OrderBook.AddLimit` | apps/ingester/internal/correctness/orderbook.go:29-35 | the order joins the end of its own side, the other side is untouched, both indexes stay right |
| `OrderBooks.OrderBook.RemoveOrder` | apps/ingester/internal/correctness/orderbook.go:51-54 | each side loses one order of that ID, if it has any: a best-priced one and among equal prices the earliest |
| `OrderBooks.OrderBook.BestBid` | apps/ingester/internal/correctness/orderbook.go:37-42 | the highest resting bid, or none when no bid rests |
| `OrderBooks.OrderBook.BestAsk` | apps/ingester/internal/correctness/orderbook.go:44-49 | the lowest resting ask, or none when no ask rests |
| `OrderBooks.FirstLevelIsBest` | apps/ingester/internal/correctness/orderbook.go:37-49 | the first level of a represented side carries the extreme resting price, and there is no level exactly when nothing rests |
| `OrderBooks.LevelsAreUnique` | apps/ingester/internal/correctness/orderbook.go:15-23 | the index is determined by the flat list |
| `OrderBooks.LevelIsFirstCome` | apps/ingester/internal/correctness/orderbook.go:15-18 | the orders of a level are all those at its price, in the order they arrived |
| `OrderBooks.CancelDeletesIDIff` | apps/ingester/internal/correctness/orderbook.go:73-86 | a cancel deletes exactly the orders of its ID if and only if at most one rests on the side |
| `Validation.Validator.Book` | apps/ingester/internal/correctness/validator.go:24-29 | the symbol's book, created empty on first use and kept thereafter, no other book affected |
| `Validation.Validator.Validate` | apps/ingester/internal/correctness/validator.go:31-81 | sorts the batch in place by send time, replays it after all earlier history, and returns correct over total, or one when nothing counts |
| `Validation.Validator.ReplayAll` | apps/ingester/internal/correctness/validator.go:39-75 | the loop's totals are those of the fold over the history, and the books are up to date |
| `Validation.Validator.Replay` | apps/ingester/internal/correctness/validator.go:39-75 | one event moves one symbol's book and is counted and judged against the history before it |
| `Validation.Validator.Advance` | apps/ingester/internal/correctness/validator.go:40-74 | one event, in any state of the books, moves only its own symbol's book, and is counted and judged against that book |
| `Validation.Validator.Judge` | apps/ingester/internal/correctness/validator.go:42-74 | limit, market, cancel and unknown order types against the event's own book |
| `Validation.Validator.ShouldFill` | apps/ingester/internal/correctness/validator.go:83-96 | true exactly when some resting opposite order has a crossing price |
| `Validation.Validator.HasLiquidity` | apps/ingester/internal/correctness/validator.go:98-105 | true exactly when some opposite order rests |
| `Validation.RatioInUnit` | apps/ingester/internal/correctness/validator.go:77-80 | the ratio lies between zero and one |
| `ReplayMeaning.DeclaredMembers` | apps/ingester/internal/correctness/validator.go:42-74 | the declared book holds exactly the limit orders of the log with no later cancel of their ID |
| `ReplayMeaning.BooksAsDeclaredIff` | apps/ingester/internal/correctness/validator.go:72-74 | the replayed books are the uncancelled orders throughout if and only if no cancel of the log comes while two limit orders of its ID rest on one side |
| `ReplayMeaning.DistinctIsUnambiguous` | apps/ingester/internal/correctness/validator.go:42-74 | limit IDs that are distinct within each symbol are enough for that |
| `ReplayMeaning.HitIsDeclared` | apps/ingester/internal/correctness/validator.go:53-70 | under that condition the verdict on an event is the verdict read off the log without a book |
| `ReplayMeaning.DeclaredInBook` | apps/ingester/internal/correctness/orderbook.go:73-86 | whatever IDs are shared, the replayed book holds at least the uncancelled orders |
| `ReplayMeaning.ReplayErrsOneWay` | apps/ingester/internal/correctness/validator.go:53-70 | so every filled order that is right by the log counts as correct, and every unfilled market order that counts as correct is right by the log |
| `ReplayMeaning.VerdictsAgreeIff` | apps/ingester/internal/correctness/validator.go:83-105 | at any moment replay and log judge all further events against a side alike if and only if both see it empty or with the same best price |
| `ReplayMeaning.CountsMeanDeclared` | apps/ingester/internal/correctness/validator.go:36-75 | under that condition correct is the number of positions right by that reading, and total the number of market and filled limit events |
| `ReplayMeaning.RatioIsShare` | apps/ingester/internal/correctness/validator.go:31-81 | so the ratio is the share of the right ones among them, and one when there are none |
| `ReplayMeaning.ValidateFresh` | apps/ingester/internal/correctness/validator.go:31-81 | a new validator sorts its batch by send time and returns that share |
| `ReplayMeaning.SharedIDMisjudged` | apps/ingester/internal/correctness/orderbook.go:73-86 | two sells sharing an ID, one cancel and a filled buy: the replay calls the fill correct, the log does not |
| `ReplayMeaning.SymbolsAreIndependent` | apps/ingester/internal/correctness/validator.go:39-75 | the counts of a replay are the sums over symbols of replaying each symbol's own events |
| `Ties.HarmlessIff` | apps/ingester/internal/correctness/validator.go:42-74 | two neighbouring events may be swapped, whatever comes before and after, if and only if neither acts on the side the other is judged against and neither cancels the other |
| `Ties.DistinctTimesAreHarmless` | apps/ingester/internal/correctness/validator.go:32-34 | distinct send times within each symbol leave only harmless ties, and so do events delivered twice |
| `Ties.OrderDoesNotMatter` | apps/ingester/internal/correctness/validator.go:32-75 | any two time-sorted arrangements of the same events give the same counts when events sent at the same instant are harmless to each other |
| `Ties.ValidateTwice` | apps/ingester/internal/correctness/validator.go:31-81 | two validators given one such batch in any two orders return the same ratio |
| `Ties.TieChangesVerdict` | apps/ingester/internal/correctness/validator.go:32-34 | any tie that is not harmless is part of a batch on which the sort decides the verdict |
| `Windows.RunWindow.RecordEvent` | apps/ingester/internal/window/window.go:90-118 | count, latencies, first send and last acknowledgement after one event, and for an accepted one a fill event that carries its fields |
| `Windows.RunWindow.IsComplete` | apps/ingester/internal/window/window.go:165-172 | complete exactly when it has an order and has existed for the duration and two seconds, in nanoseconds |
| `Windows.RunWindow.Snapshot` | apps/ingester/internal/window/window.go:175-194 | the metrics of the window's contents; its events end up sorted and otherwise the same |
| `Windows.Manager.AddEvent` | apps/ingester/internal/window/window.go:72-119 | the run's window, opened with the known contestant if absent, records the event; nothing else changes |
| `Windows.Manager.WindowFor` | apps/ingester/internal/window/window.go:73-88 | finds or opens the run's window under the manager's lock |
| `Windows.Manager.SetContestantID` | apps/ingester/internal/window/window.go:124-137 | stores the name and renames the run's window if there is one |
| `Windows.Manager.CheckCompleted` | apps/ingester/internal/window/window.go:141-161 | returns one snapshot for each window complete by the clock reading taken for it and removes exactly those windows and their names, in any scan order |
| `Windows.MaxTPSIsFloor` | apps/ingester/internal/window/window.go:176-180 | the rate is the exact quotient rounded down, zero if no time passed |
| `Windows.VerdictInUnit` | apps/ingester/internal/window/window.go:182-183 | a snapshot's correctness lies between zero and one |
| `Windows.RecordAllAccumulates` | apps/ingester/internal/window/window.go:93-118 | after a batch the window holds its count, its positive latencies, its accepted fills, its earliest send and its latest acknowledgement |
| `Windows.SummaryIgnoresOrder` | apps/ingester/internal/window/window.go:93-118 | count, latencies and fills depend on the multiset of events only |
| `Windows.SnapshotIgnoresOrder` | apps/ingester/internal/window/window.go:175-194 | two windows with the same events in any orders have equal snapshots |
| `SnapshotMeaning.SnapshotReportsRun` | apps/ingester/internal/window/window.go:93-193 | on the telemetry alone: the latencies are the positive ones, the rate is orders over elapsed time, and the correctness is the share of right reports among accepted market and filled limit orders in send order, if no cancel is ambiguous |
| `WindowProtocol.ReachableInv` | apps/ingester/internal/window/window.go:72-161 | all protocol invariants hold in every reachable state of the three goroutines |
| `RunHistory.EventsConserved` | apps/ingester/internal/window/window.go:73-118 | finished adds are exactly the snapshotted, live and late events; at most one is late per snapshot |
| `RunHistory.LateIff` | apps/ingester/internal/window/window.go:73-118 | an add is late if and only if a snapshot of its run is taken between its lookup and its recording, and at most one can be |
| `RunHistory.AddCanBeLate` | apps/ingester/internal/window/window.go:88-91 | a run of the three goroutines in which an event reaches a window already removed, so the snapshotted and live events are not all that were added |
| `RunHistory.OrderCountsConserved` | apps/ingester/internal/window/window.go:93-158 | the same with the counts the windows and snapshots report |
| `RunHistory.SnapshotsAccumulate` | apps/ingester/internal/window/window.go:166-168 | every snapshot reports at least one order and has accumulated exactly its events |
| `RunHistory.MetricsIgnoreInterleaving` | apps/ingester/internal/window/window.go:175-194 | in any two runs, snapshots of the same events report the same metrics |
| `RunHistory.SnapshotsReportTelemetry` | apps/ingester/internal/window/window.go:175-193 | every snapshot of every run reports that of the events it holds |
| `RunHistory.CheckerDecides` | apps/ingester/internal/window/window.go:144-171 | looking at a window the checker reports its run if and only if it has an order and has existed for the duration and two seconds; an empty one has an add about to record in it |
| `RunHistory.RunIsReported` | apps/ingester/internal/window/window.go:72-161 | once an add has opened a run's window and finished, the first check to start two seconds after the duration reports the run, whatever the other threads do |
| `RunHistory.AddsFinishInOrder` | apps/ingester/internal/window/window.go:72-119 | the adds finished are those started, in order, but for the one under way |
| `RunHistory.AnnouncementsReturn` | apps/ingester/internal/window/window.go:124-137 | every announcement made has returned but for the one under way |
| `RunHistory.SnapshotsAreSpaced` | apps/ingester/internal/window/window.go:169-172 | two snapshots of one run are at least the duration and two seconds apart |
| `RunHistory.SnapshotContestantAnnounced` | apps/ingester/internal/window/window.go:76-85 | a named contestant in a snapshot was announced for that run |
| `RunHistory.FirstSnapshotNamesContestant` | apps/ingester/internal/window/window.go:124-154 | a completed, undisputed announcement is carried by the run's first snapshot, whatever the interleaving |
| `ManagerProgress.NoWindowHeldWhileWaiting` | apps/ingester/internal/window/window.go:73-91 | no thread waits for the manager's lock while it holds a window's lock |
| `ManagerProgress.NoDeadlock` | apps/ingester/internal/window/window.go:72-161 | in every reachable state with a busy thread some thread can step |
| `ManagerProgress.OperationsTerminate` | apps/ingester/internal/window/window.go:72-161 | operations under way take a bounded number of steps, and a schedule with no step left has finished them all |
| `ManagerAlone.AddAlone` | apps/ingester/internal/window/window.go:72-119 | run without interference, the lock steps of an add have the effect of the method |
| `ManagerAlone.SetAlone` | apps/ingester/internal/window/window.go:124-137 | likewise for naming a contestant |
| `ManagerAlone.CheckAlone` | apps/ingester/internal/window/window.go:141-161 | every schedule of a completion check without interference, in any scan order and with time passing, removes the windows the method removes and takes one snapshot for each, as the method returns them |
| `Hubs.Hub.Register` | apps/leaderboard/internal/hub/hub.go:52-56 | adds one open client |
| `Hubs.Hub.Unregister` | apps/leaderboard/internal/hub/hub.go:58-65 | removes the client and closes its channel only if it was registered |
| `Hubs.Hub.Broadcast` | apps/leaderboard/internal/hub/hub.go:67-79 | every client with room gets the message at the end of its queue; exactly the full ones are reported slow |
| `Boards.AfterShowsLatest` | apps/leaderboard/internal/redis/redis.go:40-50 | the board shows each contestant's latest update and leaves the others as they were |
| `Boards.TopLeavesOutOnlyWhenFull` | apps/leaderboard/internal/redis/redis.go:54-57 | a ranked read that leaves a contestant out has reached its limit |
| `ClientView.OnUpdate` | apps/frontend/src/hooks/useLeaderboard.ts:40-53 | the reducer's search, copy, replace or append, sort and ranking compute its value |
| `ClientView.SortDescSorts` | apps/frontend/src/hooks/useLeaderboard.ts:48-49 | the sort is a descending permutation |
| `ClientView.SortDescIsStable` | apps/frontend/src/hooks/useLeaderboard.ts:48-49 | entries of equal score keep their relative order |
| `ClientView.ReduceReplacesRow` | apps/frontend/src/hooks/useLeaderboard.ts:40-53 | one update replaces or adds exactly one contestant's row and leaves the list sorted, ranked and duplicate-free |
| `ClientView.ReduceKeepsPlaces` | apps/frontend/src/hooks/useLeaderboard.ts:42-49 | among rows of equal score a replaced row keeps its place and a new one comes last |
| `ClientView.ViewRows` | apps/frontend/src/hooks/useLeaderboard.ts:36-53 | after any updates each row is the contestant's latest update, or the snapshot's row if there was none |
| `Convergence.Converges` | apps/leaderboard/cmd/main.go:106-130 | a torn snapshot plus all updates since joining shows, for each listed contestant, the server's latest row, and lists exactly those read or updated |
| `Convergence.ReadListsFifty` | apps/leaderboard/internal/redis/redis.go:53-86 | the snapshot lists 50 contestants, or everyone when there are fewer |
| `Convergence.SeededReadsZeros` | apps/leaderboard/internal/redis/redis.go:70-84 | a contestant without stored metrics is listed with zeros |
| `Convergence.TopAgreesIff` | apps/leaderboard/internal/redis/redis.go:53-86 | the list's first 50 are the server's Top50 if and only if each of those was read or updated since joining |
| `Convergence.TopAgreesWithoutLowering` | apps/leaderboard/internal/redis/redis.go:53-86 | which holds whenever no update after the score read lowers a score |
| `LeaderboardProtocol.ReachableInv` | apps/leaderboard/internal/hub/hub.go:49-82 | all stream and snapshot invariants hold in every reachable state |
| `LeaderboardProtocol.StreamIsFaithful` | apps/leaderboard/internal/hub/hub.go:67-79 | received plus queued is an in-order, repetition-free selection of the broadcasts since joining, all of them while no unregistration is pending, with at most 256 queued |
| `LeaderboardProtocol.BroadcastReaches` | apps/leaderboard/internal/hub/hub.go:67-79 | a broadcast reaches every registered client with fewer than 256 messages queued, and exactly the others are scheduled for removal |
| `LeaderboardProtocol.ChannelsClosedOnce` | apps/leaderboard/internal/hub/hub.go:58-63 | a channel is closed at most once, and exactly when its client is no longer registered |
| `LeaderboardProtocol.NoSendOnClosed` | apps/leaderboard/internal/hub/hub.go:69-71 | a broadcast changes only clients whose channel is open |
| `LeaderboardProtocol.DuplicateUnregisterHarmless` | apps/leaderboard/internal/hub/hub.go:58-63 | one more unregistration request, served any time after its client has gone, leaves every run possible and ending in the same state |
| `LeaderboardProtocol.SlowClientLeaves` | apps/leaderboard/internal/hub/hub.go:67-79 | in every continuation, a client found full is gone with its channel closed once nothing is pending for it, and never returns |
| `LeaderboardProtocol.DisconnectedClientLeaves` | apps/leaderboard/cmd/main.go:133-147 | so does a client whose reader has stopped |
| `LeaderboardProtocol.StoppedWriterIsSilent` | apps/leaderboard/cmd/main.go:123-131 | what a client had received when its writer stopped is all it ever receives |
| `LeaderboardProtocol.UpdatesGetThrough` | apps/leaderboard/internal/consumer/kafka.go:81-96 | the consumer waits only while the hub is 256 broadcasts behind, and an update on the board can always get further |
| `LeaderboardProtocol.DrainRemovesPending` | apps/leaderboard/internal/hub/hub.go:58-63 | the pending unregistrations run out in as many steps as there are, and exactly the clients they name are gone |
| `LeaderboardProtocol.ClientConverges` | apps/leaderboard/internal/consumer/kafka.go:81-96 | in every run, a registered client with nothing in flight shows exactly the server's rows for each listed contestant and lists everyone updated since it joined |
| `LeaderboardProtocol.UnsnappedClientConverges` | apps/leaderboard/cmd/main.go:111-121 | a client whose snapshot read failed shows exactly the contestants updated since it joined, each with the server's row |
| `LeaderboardProtocol.FailedReadIsFinal` | apps/leaderboard/cmd/main.go:111-121 | such a client never gets a snapshot but does get its updates |
| `LeaderboardProtocol.ClientTopAgreesIff` | apps/leaderboard/cmd/main.go:106-130 | in every run, its first 50 are the server's Top50 if and only if none of those is unseen by the client |
| `LeaderboardProtocol.ClientTopAgrees` | apps/leaderboard/cmd/main.go:106-130 | in particular when no update since the score read lowered anyone |
| `LeaderboardProtocol.TopsCanDiffer` | apps/leaderboard/internal/redis/redis.go:53-57 | a run with 51 contestants in which the leader falls after the snapshot and the client's first 50 are not the server's |
| `Trackers.Tracker.Set` | apps/submission/internal/status/tracker.go:36-53 | creates the entry, or changes its status and, if named, its contestant |
| `Trackers.Tracker.SetRunID` | apps/submission/internal/status/tracker.go:56-63 | sets the run of a known submission |
| `Trackers.Tracker.Get` | apps/submission/internal/status/tracker.go:66-77 | the entry's value, or none |
| `Trackers.Tracker.FindRun` | apps/submission/internal/status/tracker.go:84-89 | the search finds an entry of that run if there is one, in any map order |
| `Trackers.Tracker.UpdateByRunID` | apps/submission/internal/status/tracker.go:80-90 | changes the status of one entry of that run, or nothing |
| `Trackers.Tracker.UpdateScoreByRunID` | apps/submission/internal/status/tracker.go:93-103 | changes the score of one entry of that run, or nothing |
| `TrackerRuns.RunTracks` | apps/submission/internal/consumer/kafka.go:110-220 | at every moment each entry is what its own submission's calls alone would leave, under any interleaving and redelivery |
| `TrackerRuns.SoloMeans` | apps/submission/internal/status/tracker.go:36-103 | a submission's entry read off its calls: which of them decide its contestant, run, score and completion |
| `TrackerRuns.StatusIsLastSet` | apps/submission/internal/consumer/kafka.go:110-220 | the status is that of the last call to set it: queued, running, failed, or completed once the run was known |
| `TrackerRuns.EndsAsExpectedIff` | apps/submission/internal/consumer/kafka.go:110-220 | the exact condition on its own calls under which a submission ends completed with its own run, score and contestant, in every interleaving |
| `TrackerRuns.IntendedOrderConverges` | apps/submission/internal/consumer/kafka.go:110-190 | in the intended order every submission does, and the tracker holds no other entries |
| `TrackerRuns.LateQueueLosesCompletion` | apps/submission/internal/handler/upload.go:127-137 | a run in which the pipeline overtakes the handler and the finished submission ends as queued |
| `TrackerRuns.RedeliveredStartRegresses` | apps/submission/internal/consumer/kafka.go:130-131 | a run.started message delivered again sets a completed submission back to running |
| `TrackerRuns.RedeliveredResultsHarmless` | apps/submission/internal/consumer/kafka.go:158-185 | completions and scores delivered again change nothing |
| `Fleet.DelayBounds` | apps/bots/internal/orchestrator/orchestrator.go:20-28 | the period is the exact share rounded down, positive, and no worker gets twenty requests a second |
| `Fleet.WorkersShareRate` | apps/bots/internal/orchestrator/orchestrator.go:20-24 | one worker for each full ten requests a second, at least one |
| `Fleet.StaggersWithinPeriod` | apps/bots/internal/orchestrator/orchestrator.go:42-44 | every worker's start delay is within one period |
| `Fleet.StaggersEvenlySpaced` | apps/bots/internal/orchestrator/orchestrator.go:42-44 | start delays are evenly spaced from zero, and distinct exactly when the period has a nanosecond for each worker |
| `Fleet.TicksBounded` | apps/bots/internal/orchestrator/orchestrator.go:46-56 | the ticks a worker acts on fit the run's duration |
| `Fleet.BudgetHoldsIff` | apps/bots/internal/orchestrator/orchestrator.go:20-65 | runs of every length send at most duration times target rate if and only if the target rate divides the workers' nanoseconds per second |
| `Fleet.MostOrdersIsMaximum` | apps/bots/internal/orchestrator/orchestrator.go:42-56 | the largest number of orders a given run can send, reached when no tick is late |
| `Fleet.OrdersWithinBudget` | apps/bots/internal/orchestrator/orchestrator.go:20-65 | at any rate all workers together send at most duration times target rate, up to forty million |
| `Fleet.TensAreExact` | apps/bots/internal/orchestrator/orchestrator.go:20-28 | target rates in tens divide, with ten orders a second for each worker |
| `Fleet.LongRunOvershoots` | apps/bots/internal/orchestrator/orchestrator.go:27-56 | for every other rate a run with prompt tickers that sends more than duration times target rate |
| `TelemetryChannel.ConcurrencyBounded` | apps/bots/internal/consumer/kafka.go:95-98 | the runs in flight are exactly the taken slots, at most the configured number |
| `TelemetryChannel.NoSendAfterClose` | apps/bots/internal/consumer/kafka.go:105-109 | a channel closes at most once, when all its workers are done |
| `TelemetryChannel.PublisherDrainsAll` | apps/bots/internal/publisher/kafka.go:38-58 | the publisher consumes a prefix of what was sent, and all of it once its loop ends; a send waits only while the publisher is 1000 events behind |
| `TelemetryChannel.RunNeverStuck` | apps/bots/internal/orchestrator/orchestrator.go:49-69 | a run that is not over can step without being cancelled, even with its workers blocked on a full channel |
| `TelemetryChannel.CancelFreesWorkers` | apps/bots/internal/orchestrator/orchestrator.go:50-63 | once the service is cancelled every worker can leave at any time, even one blocked on a full channel |
| `TelemetryChannel.RunEnds` | apps/bots/internal/orchestrator/orchestrator.go:36-69 | every run takes a bounded number of steps whatever other runs do, and when none is left its slot is free and the publisher has consumed all that was sent |
| `TelemetryChannel.OrdersAccountedFor` | apps/bots/internal/orchestrator/orchestrator.go:49-63 | in every run the events a worker passed on, then the one it holds or lost when cancelled, are those of the orders it sent, in order |
| `TelemetryChannel.OverRunPublishedAll` | apps/bots/internal/publisher/kafka.go:38-58 | without cancellation a run that is over has published the telemetry of every order once, in order for each bot, one for each tick |
| `Scoring.ComponentsAsDocumented` | apps/scorer/internal/scoring/formula.go:27-47 | the components equal the documented formulas exactly on non-negative measurements |
| `Scoring.ScoreAsDocumented` | apps/scorer/internal/scoring/formula.go:18-57 | the score is the documented formula with its parts kept in range, on all measurements |
| `Scoring.WeightsAsDocumented` | apps/scorer/internal/scoring/formula.go:18-25 | the score is 35 latency, 35 throughput and 30 correctness points |
| `Scoring.BetterScoresHigher` | apps/scorer/internal/scoring/formula.go:18-47 | lower latency, higher rate and higher correctness never lower the score, which stays within 0 and 100 |
| `Scoring.ClampIdleForFractions` | apps/scorer/internal/scoring/formula.go:49-57 | the clamp never acts on a correctness in the unit interval |
| `Scoring.IngestedScoreUnclamped` | apps/scorer/internal/consumer/kafka.go:75 | so it never acts on a snapshot of the ingester |
| `Scoring.ScorerBoard.Upsert` | apps/scorer/internal/leaderboard/redis.go:32-41 | adds a contestant or raises its score, never lowers one |
| `Scoring.ScorerBoard.Consume` | apps/scorer/internal/consumer/kafka.go:75-93 | one event published for each run with its fields and its documented score, and the board ends with the best of the old score and those |
| `Scoring.BoardHoldsBest` | apps/scorer/internal/leaderboard/redis.go:31-41 | the board holds exactly the contestants it held or that ran, each with the best of its old score and its runs |
| `Scoring.BoardIgnoresOrder` | apps/scorer/internal/leaderboard/redis.go:31-41 | the order of completion does not matter |
| `Scoring.BoardCarriesOver` | apps/scorer/internal/leaderboard/redis.go:31-41 | restarting the scorer between two batches makes no difference |
| `Scoring.LatestNeverAboveBest` | apps/leaderboard/internal/redis/redis.go:42-45 | the live board's score is never above the scorer's |
| `Scoring.BoardsAgreeIff` | apps/leaderboard/internal/redis/redis.go:42-45 | the boards agree on a contestant if and only if neither its old score nor an earlier run beat its latest |
| `Scoring.WorseRunLowersLiveBoard` | apps/leaderboard/internal/redis/redis.go:42-45 | a worse second run lowers the live board below the best |

## Left out

- Kafka, HTTP, WebSocket, JSON, MinIO, Docker, TimescaleDB, JWT, configuration and logging: I/O or libraries whose code is not part of this model. Topics are sequences of decoded events, and write errors appear only as a writer that stops.
- Redis failures: `UpdateScore` and `Upsert` always succeed. A failing `Top50` is modelled; the client then starts from an empty list (`LeaderboardProtocol.UnsnappedClientConverges`).
- Windows.RunWindow.RecordEvent: keeps every positive latency; the histogram library, whose code is not part of this model, drops those above its ten-second range.
- Windows.RunWindow.Snapshot: leaves the three percentiles as functions of the multiset of latencies, which it reports instead.
- Fleet.DelayBounds: target rates below one, for which the source divides by zero or asks for a ticker with a negative period; what the conversion of an infinite quotient gives depends on the platform.
- Floating point: rounding and NaN. `Fleet.Delay` is the exact quotient rounded down, `Windows.MaxTPS` the exact rate rounded down.
- Slice aliasing inside a book level: Go edits the order slices in place; here a level's orders are a sequence value in a field, and no two levels share one.
- `Validation.Validator.Validate` on a slice shared with another goroutine: the window passes its slice while holding the window's lock, so the array is not shared here.
- The metrics hash of the scorer's board: whether it follows the best run rests on what the `ZADD` reply counts, which is not shown.
- More than one telemetry loop: the bound of one late event per snapshot relies on the single consumer loop the service starts.
- Redis tie-breaking: `ZREVRANGE` may order equal scores in any way here, which covers the actual rule.
- The browser's reconnect: each connection is a new client with a new snapshot.
- Bot identifiers, random order generation and the HTTP calls of a bot, which are taken to return.
- 64-bit overflow of durations in nanoseconds, which takes a run of 292 years.
- The gateway, the sandbox service and the rest of the frontend: plumbing that branch-by-branch reading settles.
