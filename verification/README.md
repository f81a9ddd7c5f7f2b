# Verified model of the trading helper scripts

The helper scripts keep a trading engine alive, collect evidence about it and judge strategies off line. This
project models the ones whose mistakes are expensive and proves what they promise.

| modules | what they model |
|---|---|
| `LogClassifier`, `Watchdog`, `WatchdogBreakers`, `WatchdogAlerts`, `WatchdogCounting`, `WatchdogJudgement`, `WatchdogRefusals`, `WatchdogNotices`, `WatchdogProgress`, `WatchdogRearm`, `WatchdogWitness`, `EngineWatchdog` | the engine watchdog: one poll is a step over memory, persisted state and history; a restart of the watchdog itself is a step too |
| `FundingReplay`, `FundingDiscipline`, `FundingRecords`, `FundingDays`, `FundingLoops` | the funding-harvest replay and its lookahead check |
| `Shards`, `ShardEvidence` | the pytest shard selector and the verifier of its evidence |
| `WsProbe`, `WsProbeLoops` | the resilient websocket probe: sessions, reconnects, restarts, uptime, verdict |
| `AuditBridge`, `AuditBridgeLoops` | the direct audit write and the tail bridge that write one table |
| `GateBCapture`, `AutoCapture` | the authorised auto-capture with its cap of five |
| `MemoryDistill`, `DistillJobs` | the daily distillation with its cursor |
| `MakerPrice`, `MakerFill`, `MakerFillLoops` | passive close pricing and the replay of fills |
| `Wilson`, `RealArithmetic` | two implementations of the Wilson score interval |

How the parts fit: where a script changes things in place, a class or a method with the same loops is proved
equal to a step function, and the theorems are about all runs of that function. Histories are ghost to the
script: they record what it did, so that "between two re-arms" or "each event once" can be said. The class
methods are the connection; the lemmas in the table are the results.

Times are integers (milliseconds in the watchdog and the replay, microseconds in the fill simulation, seconds
in the capture, days in the distillation) except in the websocket probe, where they are reals as its clock
is; prices, rates and PnL are reals.

Where code and documentation disagree, or a promise holds only in part, the model follows the code:

- The bridge's header says that a failed INSERT holds the cursor back. It does not
  (`helper_scripts/canary/canary_audit_pg_writer.py:25` against `:295-302` and `:314`):
  `AuditBridge.FailedInsertIsPassedOver`; when a run does store all it read is `AuditBridge.RunCoversExactly`.
- The shard selector has no limit on the length of an id or of its evidence, the verifier refuses ids of more
  than 8192 bytes and files of more than 8 MiB: `ShardEvidence.HonestIsAccepted` is an equivalence.
- Recovery is documented as a complete re-arm. It is one only for a watchdog process that saw the engine go
  down: after a restart of the watchdog the early return
  (`helper_scripts/canary/engine_watchdog.py:1550` against `:1534-1538`) leaves an open breaker open and sends
  neither resolution nor all-clear. `WatchdogRearm.RearmsExactly` is the exact condition,
  `WatchdogRearm.BreakerOutlivesRecovery` a run.
- An interrupt after a segment of uptime was added, while its connection is closed (at the deadline too) or
  replaced, or while a checkpoint shows a temporary sum, makes the handler add a segment again:
  `WsProbe.UptimeExactly` says for every run when and by how much, `WsProbe.UptimeCanExceedElapsed` and
  `WsProbe.PassWithoutTheTime` are runs.
- The lookahead check reads the first of several funding events with one time, the replay the last:
  `FundingLoops.LeakCheckExactly`, `FundingLoops.DuplicateTimesDisagree`. The settlement loop pays only the
  first event of a time, which is what `FundingReplay.FundingCountedOnce` counts.
- A day whose cursor write raises is distilled again, and a first run that fails loses its day once the date
  changes: `MemoryDistill.RepeatsExactly`, `MemoryDistill.FailedDayIsNext`.
- A division by zero ends the replay and loses every trade: `FundingReplay.RaisesExactly`.
- The fill tolerance is meant to be well below a tick; `MakerFill.OwnQuoteDoesNotFill` says exactly when it is
  small enough.

## Model

| member | source | states |
|---|---|---|
| `WatchdogBreakers.AtMostSevenRestarts` | helper_scripts/canary/engine_watchdog.py:1060-1209 | Between two re-arms at most INERT_RESTART_LIMIT - 1 + MAX_CONSECUTIVE_FAILURES = 7 restart commands are issued, for every run, any mix of exit codes, process restarts and outages |
| `WatchdogBreakers.RestartsArePaced` | helper_scripts/canary/engine_watchdog.py:1027-1050 | In every run no command follows one that opened a breaker, and each keeps the 90 s settle window and, after a failure, the backoff away from the one before |
| `WatchdogBreakers.RestartsExactlyWhenDue` | helper_scripts/canary/engine_watchdog.py:1415-1439 | A restart that is due is never missed: a poll put down to a crash issues a command if and only if no maintenance flag is set, the last command opened no breaker, and its settle window and backoff are over |
| `WatchdogBreakers.FailureBreakerTakesTime` | helper_scripts/canary/engine_watchdog.py:1168-1184 | The exit-code breaker opens on the fifth failure in a row, and those five commands span at least 1110 s |
| `WatchdogBreakers.SkipReportsAreFew` | helper_scripts/canary/engine_watchdog.py:646-690 | While the maintenance flag does not change, at most two RESTART_SKIPPED reports fall between two commands and at most eight in an episode |
| `WatchdogBreakers.RestartKeepsBreakers` | helper_scripts/canary/engine_watchdog.py:1137-1199 | A command keeps the breaker invariant: not broken and three or more restarts since recovery means failures >= restarts - 2, at most four |
| `WatchdogBreakers.GateAllowsExactly` | helper_scripts/canary/engine_watchdog.py:1022-1050 | The persisted gate allows a restart exactly when the history since the re-arm does |
| `WatchdogBreakers.StepKeeps` | helper_scripts/canary/engine_watchdog.py:2228-2281 | Every turn of the main loop keeps the breaker and skip-report invariants that tie the persisted state to the history |
| `WatchdogJudgement.OutageNeverRestarts` | helper_scripts/canary/engine_watchdog.py:1329-1374 | For every stale poll after every run, past the grace period and not rolled back: the action is Outage iff the logs show one, whatever is known about the engine and whatever the probe says; then nothing persisted changes and only the edge is noted |
| `WatchdogJudgement.LiveEngineIsSpared` | helper_scripts/canary/watchdog_liveness_crosscheck.py:275-303 | For every such poll that is no outage: the restart is held off iff the cross-check is on, the probe is alive, fewer than 150 polls of the streak were held off and its first is less than 600 s ago |
| `WatchdogJudgement.GateIsConsultedExactly` | helper_scripts/canary/engine_watchdog.py:2228-2281 | The restart gate is consulted, once, iff the process is past its grace period and not rolled back, the logs show no outage and the engine is not spared; otherwise not at all |
| `WatchdogRefusals.RefusalIsReportedExactly` | helper_scripts/canary/engine_watchdog.py:1423-1439 | At the gate of every poll after every run: a restart is refused for exactly the reason the commands of the episode give, and the refusal is reported iff another reason, or none, was reported last |
| `WatchdogRefusals.GateRefusesFor` | helper_scripts/canary/engine_watchdog.py:1022-1050 | The gate answers maintenance, then open breaker, then the 90 s after the last command, then its backoff |
| `WatchdogNotices.NoticeIsSentExactly` | helper_scripts/canary/engine_dead_incident.py:78-140 | At the notify step of every poll after every run: the notice is sent iff the snapshot is at least 30 s old, the last command of the episode failed without opening a breaker, and the episode had no notice |
| `WatchdogNotices.RepingIsSentExactly` | helper_scripts/canary/engine_watchdog.py:1488-1497 | A re-ping is sent iff a breaker opened in this episode and the last alert is at least four hours old |
| `WatchdogWitness.BoundsAreAttained` | helper_scripts/canary/engine_watchdog.py:1027-1050 | The two bounds cannot be lowered: a concrete run of the step function issues seven commands and reports eight refusals before the breaker is open |
| `WatchdogProgress.OpensWithin` | helper_scripts/canary/engine_watchdog.py:1415-1439 | Progress: once the engine stays down after a recovery and polls come at most d apart without maintenance, a breaker is open after any poll more than 1290 s + 12 d after the first, whatever the commands return; more than 1110 s + 8 d if every command fails |
| `WatchdogProgress.BreakerOpensInTime` | helper_scripts/canary/engine_watchdog.py:1027-1199 | The same from any reachable state, with the time that its counters and windows leave |
| `WatchdogAlerts.ProtocolHolds` | helper_scripts/canary/engine_watchdog.py:1562-1583 | In every run, process restarts included: a breaker opens at most once per episode and is announced at once and once; re-pings are at least 4 h apart; at most one notify-only notice per episode. Where the code re-arms, the notice is resolved first and the all-clear is sent iff an alert was; when it re-arms is WatchdogRearm.RearmsExactly |
| `WatchdogAlerts.DueRepingIsSent` | helper_scripts/canary/engine_watchdog.py:1488-1497 | A re-ping that is due is never swallowed by key de-duplication: the hour in its key is at least four more than in the last one |
| `WatchdogAlerts.OrphanBranchUnreachable` | helper_scripts/canary/engine_dead_incident.py:103-107 | At the notify-only step of every poll after every run without a crash inside a step, the engine_dead key comes with its active marker, so the branch is not taken |
| `WatchdogAlerts.NotifyStepIsSafe` | helper_scripts/canary/engine_watchdog.py:1422-1481 | The alert invariant holds in the middle of a poll, where the notify-only step reads the state |
| `WatchdogRearm.RearmsExactly` | helper_scripts/canary/engine_watchdog.py:1534-1583 | Over every run: the next fresh snapshot re-arms everything iff nothing is remembered or this watchdog process itself saw the engine go down, and sends the all-clear iff it did and an alert was out |
| `WatchdogRearm.FreshRearmsExactly` | helper_scripts/canary/engine_watchdog.py:1545-1583 | The same for one poll, in terms of the liveness flag |
| `WatchdogRearm.AliveIsCleared` | helper_scripts/canary/engine_watchdog.py:1534-1564 | As long as the watchdog itself is not started again, an engine taken for alive has no restart, skip or alert state: every recovery re-arms completely |
| `WatchdogRearm.RestartHidesRecovery` | helper_scripts/canary/engine_watchdog.py:1550-1551 | A fresh snapshot after a restart of the watchdog changes nothing persisted and sends nothing |
| `WatchdogRearm.BreakerOutlivesRecovery` | helper_scripts/canary/engine_watchdog.py:1550-1551 | A concrete run in which the engine is back, the breaker is still open and no restart would answer the next crash |
| `WatchdogAlerts.NotifyKeepsAlerts` | helper_scripts/canary/engine_dead_incident.py:78-140 | The notify-only step keeps the alert invariant, whatever the age and the state |
| `WatchdogAlerts.StepKeeps` | helper_scripts/canary/engine_watchdog.py:1482-1497 | Every turn of the main loop keeps the alert invariant |
| `WatchdogCounting.CountingIsConserved` | helper_scripts/canary/engine_watchdog.py:1335-1404 | At every reachable state total crashes and total outages equal the recoveries, plus one while the engine is down |
| `WatchdogCounting.RollbackIsExact` | helper_scripts/canary/engine_watchdog.py:1502-1512 | A poll returns rollback iff it is a crash edge and at least three crash edges of the whole history of this process lie in the last hour |
| `WatchdogCounting.PruningIsExact` | helper_scripts/canary/engine_watchdog.py:280-283 | Pruning as the run goes leaves the same strikes as filtering the full history at the end |
| `WatchdogCounting.VetoIsBounded` | helper_scripts/canary/watchdog_liveness_crosscheck.py:253-303 | Between two streak resets at most 150 polls are suppressed, none 600 s or more after the first, and the streak is announced exactly once, before its first poll |
| `WatchdogCounting.SuppressionTouchesNothing` | helper_scripts/canary/engine_watchdog.py:1227-1268 | A suppressed poll answered the probe and changes neither the counts, the strikes, the liveness flag nor any persisted field; a poll whose probe is not alive is never suppressed |
| `WatchdogCounting.CrashPathCounts` | helper_scripts/canary/engine_watchdog.py:1391-1404 | The crash path counts an edge exactly once and judges the strikes on the full history |
| `LogClassifier.Classify` | helper_scripts/canary/engine_watchdog.py:414-483 | The scan over candidate logs answers network_outage iff no readable tail holds a crash or ambiguous token and some tail passes gate (b) or (c), or the merged tail passes (d) |
| `LogClassifier.LongestConsecutiveRun` | helper_scripts/canary/engine_watchdog.py:359-370 | The loop returns the longest run of network lines |
| `LogClassifier.LongestRunMeaning` | helper_scripts/canary/engine_watchdog.py:359-370 | The longest run is at least k iff k network lines follow each other somewhere |
| `LogClassifier.OrderIsIrrelevant` | helper_scripts/canary/engine_watchdog.py:420-483 | The answer does not depend on the order of the candidate logs |
| `LogClassifier.ConsecutiveGateIsRedundant` | helper_scripts/canary/engine_watchdog.py:443-455 | At the default thresholds gate (b) never changes the answer for a tail of at most twenty lines |
| `LogClassifier.MergedTotalsIgnoreOrder` | helper_scripts/canary/engine_watchdog.py:464-475 | Length and match count of the merged tail do not depend on the order |
| `LogClassifier.OutageExactly` | helper_scripts/canary/engine_watchdog.py:457-475 | At the default thresholds, in whole numbers: no crash or ambiguous token, and one log shows an outage alone or all together hold five network lines that are a tenth of their lines |
| `LogClassifier.FileShowsExactly` | helper_scripts/canary/engine_watchdog.py:443-455 | A single log shows one on five network lines in a row, or five that are a quarter of its lines |
| `EngineWatchdog.WatchdogProcess.constructor` | helper_scripts/canary/engine_watchdog.py:2157-2228 | A started process is in the initial state of the model |
| `EngineWatchdog.WatchdogProcess.Respawn` | helper_scripts/canary/engine_watchdog.py:2157-2228 | A process restart loses the memory and keeps the persisted state |
| `EngineWatchdog.WatchdogProcess.TriggerRestartCommand` | helper_scripts/canary/engine_watchdog.py:1053-1209 | Counts, settle window, both breakers, backoff and alert after a command equal the step function; true iff it succeeded and opened no breaker |
| `EngineWatchdog.WatchdogProcess.EmitRestartSkippedIfNew` | helper_scripts/canary/engine_watchdog.py:646-690 | One report per new reason key, and whether it was written |
| `EngineWatchdog.WatchdogProcess.EmitEngineDownAlertIfNew` | helper_scripts/canary/engine_watchdog.py:875-905 | One alert per new key; down-since is kept from the first |
| `EngineWatchdog.WatchdogProcess.MaybeEmitNotifyOnly` | helper_scripts/canary/engine_dead_incident.py:78-140 | The notify-only branches in place equal the step function |
| `EngineWatchdog.WatchdogProcess.RePingIfDue` | helper_scripts/canary/engine_watchdog.py:1488-1497 | The re-ping in place equals the step function |
| `EngineWatchdog.WatchdogProcess.PruneOldStrikes` | helper_scripts/canary/engine_watchdog.py:280-283 | The strikes kept are those after the cutoff, in order |
| `EngineWatchdog.WatchdogProcess.MaybeSuppressRestart` | helper_scripts/canary/engine_watchdog.py:1212-1275 | Suppresses iff the decision says so, and then records streak, first time and one announcement |
| `EngineWatchdog.WatchdogProcess.OnEngineCrash` | helper_scripts/canary/engine_watchdog.py:1278-1521 | The whole stale poll in place equals the step function, action included |
| `EngineWatchdog.WatchdogProcess.OnEngineRecovery` | helper_scripts/canary/engine_watchdog.py:1524-1610 | The whole recovery in place equals the step function: full re-arm, resolution, all-clear |
| `EngineWatchdog.WatchdogProcess.RunPolls` | helper_scripts/canary/engine_watchdog.py:2228-2281 | The main loop over any polls ends in the state of the step model, to which the theorems above apply |
| `FundingReplay.ReplayIsCausal` | helper_scripts/canary/replay_funding_harvest.py:526-636 | For ascending bars, changing or appending any perp bar, spot bar or funding event after T leaves every trade closed by T unchanged if both replays return; a replay that raises does so because of a bar after T, or the other raises too |
| `FundingReplay.PrefixOfBarsPrefixOfTrades` | helper_scripts/canary/replay_funding_harvest.py:526-636 | If a replay returns, the replay of a prefix of its bars returns a prefix of its trades |
| `FundingReplay.RaisesExactly` | helper_scripts/canary/replay_funding_harvest.py:618-636 | A replay that had not raised after k bars raises iff a later bar with data, without position and after the cooldown, divides by zero |
| `FundingReplay.DividesExactly` | helper_scripts/canary/replay_funding_harvest.py:392-418 | An entry decision divides by zero iff funding is above the threshold and no periods are expected, or a perp price of zero passes all other tests, which takes an entry limit above 100 percent |
| `FundingReplay.BooksAgree` | helper_scripts/canary/replay_funding_harvest.py:537-640 | The daily book sums to the net PnL of the closed trades plus the funding accrued on a position still open |
| `FundingReplay.FundingCountedOnce` | helper_scripts/canary/replay_funding_harvest.py:546-556 | For ascending inputs each trade is paid its notional times the rates of exactly the distinct event times in (entry, exit], each once, even when bars are skipped; a position still open has accrued the same up to the last bar with data |
| `FundingReplay.SettledIsExact` | helper_scripts/canary/replay_funding_harvest.py:549-556 | The settlement loop pays exactly the events after one time up to another |
| `FundingReplay.SettledInTwoSteps` | helper_scripts/canary/replay_funding_harvest.py:549-556 | Collecting at two bars pays what collecting once at the second pays |
| `FundingReplay.LatestIsCausal` | helper_scripts/canary/replay_funding_harvest.py:441-464 | A look-up at t reads nothing later than t |
| `FundingRecords.RecordsAddUp` | helper_scripts/canary/replay_funding_harvest.py:562-602 | Every trade: the perp leg is the fall of the price times the quantity, positive iff the price fell when the quantity is; the spot leg is the rise times a quantity worth the notional at an earlier price; fees are 11 and 20 basis points of the notional, which is the cap; net is funding and both legs less both fees; rates and spot prices are those in force at entry and exit |
| `FundingRecords.ClosingStep` | helper_scripts/canary/replay_funding_harvest.py:562-608 | A trade closes at its bar, at the perp price of that bar, and its spot leg is on the quantity of the last rebalance, or of the entry without one |
| `FundingRecords.EntersExactly` | helper_scripts/canary/replay_funding_harvest.py:618-636 | Without a position a bar with data opens one iff the cooldown since the last exit is over, the entry rules hold and the perp price is not zero, at the prices of the bar |
| `FundingRecords.KeptWhileSound` | helper_scripts/canary/replay_funding_harvest.py:421-438 | At every bar with data before its exit funding, basis and holding time of a trade were within their limits |
| `FundingRecords.LeftForItsReason` | helper_scripts/canary/replay_funding_harvest.py:421-438 | A trade left for what its reason names |
| `FundingRecords.ReasonsExactly` | helper_scripts/canary/replay_funding_harvest.py:421-438 | No reason is given iff nothing speaks against the position, and the one given is true |
| `FundingRecords.RebalancesExactly` | helper_scripts/canary/replay_funding_harvest.py:611-616 | The hedge is looked at iff the check interval is over, and set to the notional again iff it is then further off than the threshold and the price is positive; otherwise the spot leg stays |
| `FundingDays.DailyBookIsByDay` | helper_scripts/canary/replay_funding_harvest.py:537-544 | The daily book lists the UTC days with data in order, each once, with exactly what was earned at the bars of that day |
| `FundingLoops.IndexAtOrBefore` | helper_scripts/canary/replay_funding_harvest.py:451-461 | The binary search finds the last index at or before t on ascending times, -1 if there is none |
| `FundingLoops.InterpolateFundingAt` | helper_scripts/canary/replay_funding_harvest.py:441-464 | The rate in force at t: the newest event at or before it |
| `FundingLoops.BuildSpotIndex` | helper_scripts/canary/replay_funding_harvest.py:467-472 | The index maps each bar time to its last listed close |
| `FundingLoops.SpotPriceAt` | helper_scripts/canary/replay_funding_harvest.py:475-491 | The price at t: the newest spot bar at or before it, on unsorted bars too |
| `FundingLoops.SortKeys` | helper_scripts/canary/replay_funding_harvest.py:519-520 | The keys of the index in ascending order, each once |
| `FundingLoops.SyntheticSpotLedger.Open` | helper_scripts/canary/replay_funding_harvest.py:274-340 | Opening the spot leg sets quantity, basis and rebalance record |
| `FundingLoops.SyntheticSpotLedger.RebalanceTo` | helper_scripts/canary/replay_funding_harvest.py:274-340 | A rebalance moves only quantity and record; the entry price stays the basis |
| `FundingLoops.SyntheticSpotLedger.Close` | helper_scripts/canary/replay_funding_harvest.py:274-340 | Closing pays price difference times quantity and closes the leg |
| `FundingLoops.HarvestState.CheckRebalance` | helper_scripts/canary/replay_funding_harvest.py:611-616 | The drift check in place equals the step function |
| `FundingLoops.HarvestState.Enter` | helper_scripts/canary/replay_funding_harvest.py:625-636 | Opening a position in place equals the step function |
| `FundingLoops.CollectFunding` | helper_scripts/canary/replay_funding_harvest.py:546-556 | The settlement loop computes payment and last settled time |
| `FundingLoops.ReplayRun.TurnDay` | helper_scripts/canary/replay_funding_harvest.py:537-544 | The day book is closed and opened when the UTC day changes |
| `FundingLoops.InsertKey` | helper_scripts/canary/replay_funding_harvest.py:520-520 | A key is inserted in its place |
| `FundingLoops.ReplayRun.RecordTrade` | helper_scripts/canary/replay_funding_harvest.py:563-602 | The record of a closing trade, field by field |
| `FundingLoops.ReplayRun.CloseOut` | helper_scripts/canary/replay_funding_harvest.py:562-609 | Closing writes the trade record, the day book and a fresh state |
| `FundingLoops.ReplayRun.OnOpenBar` | helper_scripts/canary/replay_funding_harvest.py:546-616 | A bar with an open position: funding, exit, rebalance |
| `FundingLoops.ReplayRun.OnFlatBar` | helper_scripts/canary/replay_funding_harvest.py:618-636 | A bar without a position: cooldown, entry, and the division errors of the original |
| `FundingLoops.ReplayFundingHarvest` | helper_scripts/canary/replay_funding_harvest.py:494-642 | The whole replay returns the trades and daily book of the step model, or raises exactly when it does |
| `FundingLoops.SanityCheckLeakLookahead` | helper_scripts/canary/replay_funding_harvest.py:650-677 | The check passes iff every trade was rated at the newest prior event of the linear scan |
| `FundingLoops.ScanIsLatest` | helper_scripts/canary/replay_funding_harvest.py:660-669 | On strictly ascending non-negative times the linear scan equals the binary search |
| `FundingLoops.LeakCheckPasses` | helper_scripts/canary/replay_funding_harvest.py:650-677 | With strictly ascending non-negative event times the check passes on every replay output |
| `FundingLoops.LeakCheckExactly` | helper_scripts/canary/replay_funding_harvest.py:650-677 | With duplicate times allowed: a trade passes iff the rates of the first and the last event listed for the time in force at its entry are close |
| `FundingLoops.DuplicateTimesDisagree` | helper_scripts/canary/replay_funding_harvest.py:451-464 | A concrete pair of events with one time on which search and scan differ |
| `FundingDiscipline.TradesFollowTheRules` | helper_scripts/canary/replay_funding_harvest.py:402-438 | Over ascending bars every trade entered on positive funding above the threshold, a positive net edge and a small basis, at least the cooldown after the one before, and left at the first bar that gave a reason, for that reason; a position still open has been given none |
| `FundingDiscipline.NoEventIsPaidTwice` | helper_scripts/canary/replay_funding_harvest.py:546-556 | A time lies in the funding interval of at most one trade or the position still open |
| `FundingDiscipline.NeverOverdue` | helper_scripts/canary/replay_funding_harvest.py:436-437 | At no bar with data before its exit had a trade been held past the maximum |
| `Shards.StrideIsShard` | helper_scripts/ci/verify_pytest_shards.py:277-280 | The slice F[i::n] of the verifier is the selector's filter by position modulo n |
| `Shards.ShardIsBalanced` | helper_scripts/ci/verify_pytest_shards.py:251-257 | Shard i has quotient + 1 entries for i below the remainder and quotient otherwise |
| `Shards.ShardsPartition` | helper_scripts/ci/select_pytest_shard.py:85-90 | Shards of a sorted duplicate-free list are sorted, disjoint and cover it |
| `Shards.CanonicalIsUnique` | helper_scripts/ci/select_pytest_shard.py:85-85 | A sorted duplicate-free list is determined by its set |
| `Shards.SortedIsCanonical` | helper_scripts/ci/select_pytest_shard.py:85-85 | Sorting distinct ids gives the sorted duplicate-free list of the same ids |
| `Shards.SortedTest` | helper_scripts/ci/verify_pytest_shards.py:198-200 | Equal to its sort and without duplicates iff strictly ascending |
| `Shards.JoinIsInjective` | helper_scripts/ci/select_pytest_shard.py:35-37 | The newline-joined manifest payload determines a list of valid ids |
| `ShardEvidence.SelectNodeids` | helper_scripts/ci/select_pytest_shard.py:40-100 | A selection exists iff index, count, minimum and every id are valid, ids are distinct and the shard is not empty; it is the shard of the sorted list with both manifests |
| `ShardEvidence.ValidatePayload` | helper_scripts/ci/verify_pytest_shards.py:63-205 | Accepts a payload iff its file is within the size limit and every field check holds, booleans refused as integers |
| `ShardEvidence.GrowUnion` | helper_scripts/ci/verify_pytest_shards.py:262-268 | Grows the union and stops iff two lists overlap |
| `ShardEvidence.SortUnion` | helper_scripts/ci/verify_pytest_shards.py:269-269 | The sorted list of the union |
| `ShardEvidence.CheckAll` | helper_scripts/ci/verify_pytest_shards.py:231-240 | All payloads are accepted iff each is |
| `ShardEvidence.VerifyShardArtifacts` | helper_scripts/ci/verify_pytest_shards.py:208-289 | Accepts iff some list passes every check, and returns that list |
| `ShardEvidence.AcceptedIsHonest` | helper_scripts/ci/verify_pytest_shards.py:242-280 | Soundness: accepted evidence is what workers write about one sorted duplicate-free list of valid ids, shard by shard, within both size limits |
| `ShardEvidence.HonestIsAccepted` | helper_scripts/ci/verify_pytest_shards.py:63-146 | Completeness, exactly: evidence of honest workers is accepted iff no id is longer than 8192 bytes and no file than 8 MiB |
| `ShardEvidence.WorkersAreHonest` | helper_scripts/ci/select_pytest_shard.py:85-100 | Selections by workers that each saw their own permutation of one valid collection are honest evidence |
| `ShardEvidence.AnyOrderSameList` | helper_scripts/ci/select_pytest_shard.py:85-85 | The order of the collection does not matter |
| `ShardEvidence.SameShardsSameList` | helper_scripts/ci/verify_pytest_shards.py:277-280 | One set of evidence belongs to one list |
| `ShardEvidence.ManifestBinds` | helper_scripts/ci/verify_pytest_shards.py:274-275 | With a collision-free hash the full manifest determines the collection |
| `WsProbe.UptimeExactly` | helper_scripts/bybit/liquidation_topic_probe_v2.py:478-571 | Over every run with a clock that never goes back: the connections are disjoint intervals of the run, uptime exceeds the time they last by exactly what the reached turns count twice, and equals it iff no reached turn counts anything twice |
| `WsProbe.UptimeIsTimeOnline` | helper_scripts/bybit/liquidation_topic_probe_v2.py:690-736 | On a run without such a turn uptime is the time online, at most the elapsed time, and the ratio lies in [0, 1] |
| `WsProbe.TurnCounts` | helper_scripts/bybit/liquidation_topic_probe_v2.py:478-571 | For every turn, connection and option: uptime grows over the time online by exactly the segment that an interrupt of a close, a reconnect or a due checkpoint makes the handler add again, read off the turn alone |
| `WsProbe.UptimeCanExceedElapsed` | helper_scripts/bybit/liquidation_topic_probe_v2.py:568-571 | A concrete run of one second that reports two seconds of uptime |
| `WsProbe.TurnFits` | helper_scripts/bybit/liquidation_topic_probe_v2.py:481-566 | Every turn keeps the recorded connections successive and within the clock |
| `WsProbe.SuccessiveAreDisjoint` | helper_scripts/bybit/liquidation_topic_probe_v2.py:478-571 | Recorded connections do not overlap |
| `WsProbe.ReconnectIsBounded` | helper_scripts/bybit/liquidation_topic_probe_v2.py:574-624 | A reconnect makes at most six attempts with waits 1, 2, 4, 8, 16, 32, gives up only after six, and all but a successful last one are refused |
| `WsProbe.RestartsAreBounded` | helper_scripts/bybit/liquidation_topic_probe_v2.py:690-736 | For every limit, negative ones included, the restart counter ends at most one above the restarts it allows |
| `WsProbe.RestartBoundIsReached` | helper_scripts/bybit/liquidation_topic_probe_v2.py:690-736 | One refused session reaches that bound with a limit of zero or less |
| `WsProbe.RestartsExactly` | helper_scripts/bybit/liquidation_topic_probe_v2.py:690-736 | Every allowed restart takes place: n sessions that start within the duration and end exhausted give the smaller of n and one above the limit |
| `WsProbe.ExhaustedIsFollowed` | helper_scripts/bybit/liquidation_topic_probe_v2.py:704-726 | With time left an exhausted session is followed by the next iff fewer than the limit of restarts were made |
| `WsProbe.TurnCompletesExactly` | helper_scripts/bybit/liquidation_topic_probe_v2.py:478-484 | A turn completes its session iff the deadline is reached and nothing interrupts, and goes on only before it |
| `WsProbe.CompletedMeansDuration` | helper_scripts/bybit/liquidation_topic_probe_v2.py:693-702 | A session that completes has brought the run to within a second of its duration |
| `WsProbe.VerdictExactly` | helper_scripts/bybit/liquidation_topic_probe_v2.py:799-892 | Exactly when each of the nine verdicts is given |
| `WsProbe.PassIsAllGates` | helper_scripts/bybit/liquidation_topic_probe_v2.py:799-892 | PASS iff all six documented gates hold, for every mix of the other conditions |
| `WsProbe.PassCertifiesTimeOnline` | helper_scripts/bybit/liquidation_topic_probe_v2.py:799-892 | PASS certifies at least the minimum ratio of the minimum duration really online, less what the run counted twice |
| `WsProbe.UncutPassCertifiesInFull` | helper_scripts/bybit/liquidation_topic_probe_v2.py:799-892 | on a run that counted nothing twice, PASS certifies the minimum ratio of the minimum duration really online, in full |
| `WsProbe.PassWithoutTheTime` | helper_scripts/bybit/liquidation_topic_probe_v2.py:482-484 | A concrete run that passes with less: its last close is interrupted |
| `WsProbeLoops.ResilientProbe.TryReconnect` | helper_scripts/bybit/liquidation_topic_probe_v2.py:574-624 | The attempt loop in place equals the specification: end, counters and waits |
| `WsProbeLoops.ResilientProbe.Checkpoint` | helper_scripts/bybit/liquidation_topic_probe_v2.py:487-505 | A checkpoint that is not interrupted leaves uptime unchanged |
| `WsProbeLoops.ResilientProbe.Drop` | helper_scripts/bybit/liquidation_topic_probe_v2.py:507-566 | Losing the connection in place equals the specification |
| `WsProbeLoops.ResilientProbe.Complete` | helper_scripts/bybit/liquidation_topic_probe_v2.py:481-484 | Reaching the deadline in place equals the specification |
| `WsProbeLoops.ResilientProbe.PingAndReceive` | helper_scripts/bybit/liquidation_topic_probe_v2.py:506-566 | Ping and receive in place equal the specification |
| `WsProbeLoops.ResilientProbe.TakeTurn` | helper_scripts/bybit/liquidation_topic_probe_v2.py:480-566 | One turn of the session loop in place equals the specification |
| `WsProbeLoops.ResilientProbe.RunSession` | helper_scripts/bybit/liquidation_topic_probe_v2.py:430-571 | The session loop in place equals the specification, outcome included |
| `WsProbeLoops.ResilientProbe.Run` | helper_scripts/bybit/liquidation_topic_probe_v2.py:640-736 | The restart loop ends in the statistics of the specification, to which the theorems above apply |
| `AuditBridge.KeysStayUnique` | helper_scripts/canary/canary_audit_common.py:200-235 | Whatever happens in whatever order (writes, bridge runs, failures, rewinds, replaced files), no two rows share a dedup key |
| `AuditBridge.ExactlyOneRowEach` | helper_scripts/canary/canary_audit_pg_writer.py:232-315 | Direct writes, appends, rewinds and bridge runs in any order: while runs end on line boundaries and no INSERT raises, every mappable event before the cursor has exactly one row, unless the file was replaced and never reread from its start |
| `AuditBridge.RunCoversExactly` | helper_scripts/canary/canary_audit_pg_writer.py:285-314 | After a committed run every event read is stored iff each was stored before, or the server refused no INSERT of the run and one with its key ran |
| `AuditBridge.AbortedExactly` | helper_scripts/canary/canary_audit_pg_writer.py:285-302 | The transaction is aborted iff the server refuses the INSERT of some mappable event |
| `AuditBridge.CleanRunCovers` | helper_scripts/canary/canary_audit_pg_writer.py:285-314 | A run in which no INSERT raises stores every mappable event it read |
| `AuditBridge.RunCatchesUp` | helper_scripts/canary/canary_audit_pg_writer.py:232-315 | A run that works, from any state in which the file was not replaced unseen or has become shorter than the cursor, ends with everything in the file stored and the cursor at its end |
| `AuditBridge.FailedInsertIsPassedOver` | helper_scripts/canary/canary_audit_pg_writer.py:295-314 | A concrete run whose only INSERT fails moves the cursor, and no later run reads the event again |
| `AuditBridge.ReplayAddsNothing` | helper_scripts/canary/canary_audit_pg_writer.py:239-247 | Reading stored events again adds no row, so a rewind is safe |
| `AuditBridge.OrderOfPathsIsIrrelevant` | helper_scripts/canary/canary_audit_common.py:200-235 | A direct write and a clean bridge run leave the same keys in either order |
| `AuditBridge.PathsShareOneRow` | helper_scripts/canary/canary_audit_pg_writer.py:188-197 | An event and the direct write about it get one key, whether the event carries it or only its timestamp; whichever comes second adds nothing |
| `AuditBridge.KeyDetermines` | helper_scripts/canary/canary_audit_common.py:93-100 | Two derived keys are equal iff type and printed time are |
| `AuditBridge.TypeExactly` | helper_scripts/canary/canary_audit_common.py:66-80 | Exactly five events are audited, under their names in lower case |
| `AuditBridge.SeverityExactly` | helper_scripts/canary/canary_audit_common.py:66-72 | Severity is critical exactly for a crash or an open breaker, info exactly for a recovery, else warning |
| `AuditBridge.RowExactly` | helper_scripts/canary/canary_audit_pg_writer.py:180-216 | An event becomes a row iff its name is audited and it carries a key or a timestamp; its own key is kept, else one is derived |
| `AuditBridge.MappedTypesAreClean` | helper_scripts/canary/canary_audit_common.py:66-80 | No audit type contains the key separator |
| `AuditBridge.CutAtLineEnd` | helper_scripts/canary/canary_audit_pg_writer.py:122-155 | A file read in two pieces cut at a line end yields the events of the whole |
| `AuditBridge.InsertAllKeeps` | helper_scripts/canary/canary_audit_pg_writer.py:285-302 | A run only appends rows, one per inserted, and inserted plus skipped are the events read |
| `AuditBridge.FailedRunsChangeNothing` | helper_scripts/canary/canary_audit_pg_writer.py:276-308 | A run that cannot read, connect, find the table or commit leaves table and cursor alone |
| `AuditBridgeLoops.AuditStore.DirectWrite` | helper_scripts/canary/canary_audit_common.py:238-281 | Inserts iff the database answers and the key is new; never raises |
| `AuditBridgeLoops.AuditStore.InsertEvents` | helper_scripts/canary/canary_audit_pg_writer.py:285-302 | The INSERT loop in place equals the specification |
| `AuditBridgeLoops.AuditStore.TailAndInsert` | helper_scripts/canary/canary_audit_pg_writer.py:220-315 | One run in place equals the specification, with its exit code (0, 1, or 2 for a missing driver) and its counts |
| `GateBCapture.CapIsKept` | helper_scripts/canary/gate_b_auto_capture.py:247-286 | Over all runs from the empty state: at most five symbols, slots exact, at most as many launches as symbols, the cap recorded once iff it is reached, and the captured symbols are what the audit trail says |
| `GateBCapture.EverySlotIsTaken` | helper_scripts/canary/gate_b_auto_capture.py:355-364 | Every slot from 1 to k belongs to some symbol |
| `GateBCapture.LaunchesExactlyWhenDead` | helper_scripts/canary/gate_b_auto_capture.py:301-330 | A call launches iff it is enabled and not a dry run, a slot and an eligible symbol are left, the recorded probe is dead or expired, and the launch succeeds; failed launches and dry runs spend nothing |
| `GateBCapture.AliveExactly` | helper_scripts/canary/gate_b_auto_capture.py:301-338 | The recorded probe counts as alive iff there was a launch, its process answers, and less than 24 h have passed since the last launch on the audit trail |
| `GateBCapture.StatusExactly` | helper_scripts/canary/gate_b_auto_capture.py:193-404 | Exactly when each of the seven statuses is returned |
| `GateBCapture.SpendsOnTheOpen` | helper_scripts/canary/gate_b_auto_capture.py:353-378 | A spending call adds exactly the eligible symbols cut to the slots left, all under the run on record, and changes no earlier one |
| `GateBCapture.ProbesDoNotOverlap` | helper_scripts/canary/gate_b_auto_capture.py:301-338 | As long as the recorded process lives, launches are at least 24 h apart |
| `GateBCapture.ChosenExactly` | helper_scripts/canary/gate_b_auto_capture.py:141-168 | The eligible candidates name exactly the qualifying symbols without a slot, each once |
| `GateBCapture.CallKeeps` | helper_scripts/canary/gate_b_auto_capture.py:193-404 | Every call keeps the invariant and launches at most once |
| `AutoCapture.EligibleCandidates` | helper_scripts/canary/gate_b_auto_capture.py:141-168 | The scan with its seen set returns the specified list |
| `AutoCapture.CaptureState.RecordCapReached` | helper_scripts/canary/gate_b_auto_capture.py:247-276 | Records the cap once |
| `AutoCapture.CaptureState.AttributeAll` | helper_scripts/canary/gate_b_auto_capture.py:353-378 | Slots are given out in order, each with its audit line |
| `AutoCapture.CaptureState.MaybeAutoCapture` | helper_scripts/canary/gate_b_auto_capture.py:193-404 | One call in place equals the specification, status included |
| `AutoCapture.CaptureState.RunCalls` | helper_scripts/canary/gate_b_auto_capture.py:193-404 | Any sequence of calls ends within the cap |
| `MemoryDistill.WindowIsExact` | helper_scripts/cron/l2_memory_distill.py:171-186 | The pending days are exactly those after the cursor (on a first run yesterday) among the last seven full days, ascending without a gap |
| `MemoryDistill.DaysFollow` | helper_scripts/cron/l2_memory_distill.py:261-298 | Over all runs with ascending dates each distilled day determines the next exactly |
| `MemoryDistill.DaysStrictlyIncrease` | helper_scripts/cron/l2_memory_distill.py:282-296 | With every cursor write in place distilled days strictly increase: none is repeated |
| `MemoryDistill.RepeatsExactly` | helper_scripts/cron/l2_memory_distill.py:282-296 | A day is distilled twice in a row iff its cursor write failed and the second run still looks at it; days never go back |
| `MemoryDistill.UnstoredDayRepeats` | helper_scripts/cron/l2_memory_distill.py:296-296 | A concrete pair of runs that distils one day twice |
| `MemoryDistill.SkippedOnlyIfOld` | helper_scripts/cron/l2_memory_distill.py:181-184 | A day between two distilled ones was skipped only if it had left the seven-day window |
| `MemoryDistill.FailedDayIsNext` | helper_scripts/cron/l2_memory_distill.py:293-295 | The day a run stopped at is the next one tried (or the oldest of the window) iff a cursor exists by then or the next run is on the same date |
| `MemoryDistill.FinishedMeansCaughtUp` | helper_scripts/cron/l2_memory_distill.py:282-310 | A run that stops nowhere leaves nothing pending |
| `MemoryDistill.DayBeforeToday` | helper_scripts/cron/l2_memory_distill.py:176-184 | Only finished days of the last seven are distilled; without a cursor only yesterday |
| `DistillJobs.DistillJob.RunDaily` | helper_scripts/cron/l2_memory_distill.py:261-310 | The day loop in place equals the specification; exit code 0 iff no day stopped it |
| `MakerPrice.PriceExactly` | helper_scripts/calibration/phase_1b_maker_price.py:53-101 | Exactly when a close order is priced, and at what price, for every book |
| `MakerPrice.ClosePriceIsPassive` | helper_scripts/calibration/phase_1b_maker_price.py:68-152 | A price is positive and at least a tick beyond every side the book has; with both sides at least half the spread beyond its touch, and less than a tick more unless the buffer asks for it |
| `MakerPrice.PostOnlyIsPassive` | helper_scripts/calibration/phase_1b_maker_price.py:104-152 | The helper alone, zero ticks included: exactly that many ticks beyond its own touch, at least one from the other side, never across |
| `MakerPrice.QueueFactorMeaning` | helper_scripts/calibration/phase_1b_queue_adjustment.py:118-133 | The factor lies strictly between 0 and 1, so its clamp never acts; it grows with the order, falls with the depth, and is one half iff they are equal |
| `MakerPrice.AdjustmentOnlyLowers` | helper_scripts/calibration/phase_1b_queue_adjustment.py:166-200 | The adjusted probability lies between 0 and the original and never grows with the factor |
| `MakerPrice.QueueExactly` | helper_scripts/calibration/phase_1b_queue_adjustment.py:180-200 | A factor takes off exactly weight times factor of the result without it, strictly iff probability, factor and weight are positive and the rejection is below 1 |
| `MakerPrice.RejectionExactly` | helper_scripts/calibration/phase_1b_queue_adjustment.py:166-180 | Without factor and rejection nothing changes; a rejection leaves its complement of the result without it |
| `MakerPrice.OutOfRangeCountsAsNearest` | helper_scripts/calibration/phase_1b_queue_adjustment.py:166-200 | Inputs outside [0, 1] count as the nearest one within |
| `MakerFill.LatestMeaning` | helper_scripts/calibration/phase_1b_sweep_replay.py:144-154 | The scan finds the newest sample at or before a time, if there is one |
| `MakerFill.FillExactly` | helper_scripts/calibration/phase_1b_sweep_replay.py:313-340 | There is a fill iff some sample of the window crosses within the tolerance; the first such sample dates it |
| `MakerFill.OwnQuoteDoesNotFill` | helper_scripts/calibration/phase_1b_sweep_replay.py:326-340 | The quote an order was priced from fills it iff spread and distance together are within the tolerance; never when the tick is not below the tolerance |
| `MakerFill.LongerWindowKeepsFill` | helper_scripts/calibration/phase_1b_sweep_replay.py:313-340 | A longer timeout keeps a fill and its price, and on ordered samples its time |
| `MakerFill.LongerTimeoutNeverHurts` | helper_scripts/calibration/phase_1b_sweep_replay.py:486-515 | Raising only the timeout changes no eligible count and lowers neither fills nor either rate |
| `MakerFill.OutcomeAddsUp` | helper_scripts/calibration/phase_1b_sweep_replay.py:486-515 | Attempts are the eligible ones and the five kinds of skips; 0 <= queue-adjusted rate <= fill rate <= 1 |
| `MakerFill.RatesAreShares` | helper_scripts/calibration/phase_1b_sweep_replay.py:486-515 | The rates are exactly the shares of fills and of adjusted probabilities in the eligible seeds, zero without any |
| `MakerFill.QueueLowersTheRateExactly` | helper_scripts/calibration/phase_1b_sweep_replay.py:370-387 | With a weight the adjusted rate of a cell is strictly below the one without iff some fill has a known queue; nothing else changes |
| `MakerFill.FilledExactly` | helper_scripts/calibration/phase_1b_sweep_replay.py:313-340 | A priced seed is filled iff a sample within the timeout crosses its price within a millionth |
| `MakerFill.SkippedForItsReason` | helper_scripts/calibration/phase_1b_sweep_replay.py:285-294 | Among unpriced seeds: crossed book, else spread beyond the guard, else missing tick size, else counted as spread |
| `MakerFill.SkippedBeforePricing` | helper_scripts/calibration/phase_1b_sweep_replay.py:430-471 | Exactly when a seed is skipped for its family, for want of a quote or of a tick size |
| `MakerFill.OwnSideOnly` | helper_scripts/calibration/phase_1b_queue_adjustment.py:203-220 | The queue is read on the side the order rests on and does not depend on the other |
| `MakerFill.ResultsAreSound` | helper_scripts/calibration/phase_1b_sweep_replay.py:370-408 | Only eligible seeds are filled, and only filled ones have a positive adjusted probability |
| `MakerFillLoops.BboAtOrBefore` | helper_scripts/calibration/phase_1b_sweep_replay.py:144-154 | The scan in place equals its specification |
| `MakerFillLoops.ReplayFill` | helper_scripts/calibration/phase_1b_sweep_replay.py:326-340 | The replay loop stops at the first crossing sample, and finds one iff there is one |
| `MakerFillLoops.SimulateCellAgainstFill` | helper_scripts/calibration/phase_1b_sweep_replay.py:184-408 | One simulation equals the specification |
| `MakerFillLoops.SimulateCell` | helper_scripts/calibration/phase_1b_sweep_replay.py:411-537 | The aggregate of a cell equals the specification and is ordered |
| `Wilson.IntervalIsWilson` | helper_scripts/calibration/phase_1b_sweep_report.py:97-105 | The interval is Wilson's: its ends are roots of (1 + z^2/n) t^2 - (2p + z^2/n) t + p^2, 0 <= low <= p <= high <= 1, and it is exactly the set of rates within z standard errors of p |
| `Wilson.NoClampActs` | helper_scripts/calibration/phase_1b_sweep_report.py:103-104 | Neither clamp changes an end |
| `Wilson.ImplementationsAgree` | helper_scripts/cron/ac19_alt_bucket_jsonl_writer.py:109-147 | Both implementations give the same ends up to the factor 100, and the second one's clamps never act |
| `Wilson.WriterRefusesExactly` | helper_scripts/cron/ac19_alt_bucket_jsonl_writer.py:109-112 | The writer raises iff the fills are out of range |

## Left out

- Sockets, HTTP, subprocesses, databases, files, locks, signals and command lines: their results are inputs of a step (exit code, probe answer, log tails, attempt, fate of an INSERT).
- The text of alerts, logs and payloads, timestamps that are only written, and sending itself (Telegram, webhooks); the watchdog's alert is its key.
- A crash of the watchdog in the middle of a poll, a failing `save_state`, and a persisted state edited by hand.
- The choice of candidate log paths and the reading and lower-casing of their tails; `LogClassifier` starts from the lines.
- The watchdog's inert probe (`helper_scripts/canary/engine_watchdog.py:1650-2154`), the incident sentinel and the announcement watchers: the same edge and de-duplication patterns, easier.
- Floating point: rounding, NaN and infinities. An infinite basis is a constructor of its own in `FundingReplay`.
- The other sanity checks of the replay (selection bias, deflated Sharpe, bootstrap) and its output.
- SHA-256 is any function; only `ShardEvidence.ManifestBinds` needs it to be free of collisions.
- UTF-8 decoding of node ids, and the directory checks around the evidence; payloads are values, the size of their file is an input.
- An interrupt of the websocket probe during its first connection of a session, during the 60 s pause or while an earlier one is being handled, and a checkpoint that cannot be written: each ends the program without a report. Also message parsing, keepalive warnings and the texts of errors; the fatal-error list is one flag of `Assess`. A session whose listed turns run out is interrupted there, and a run whose listed sessions run out stops.
- Line parsing of the event file: any function from a line to events, so the repair of glued objects is inside it; of the separators `splitlines` knows only the newline is modelled.
- PostgreSQL's rule that a refused INSERT aborts its transaction, so that later ones raise and the commit keeps nothing, is built into `AuditBridge`; an error raised before the server is reached is the other kind of failure there.
- Audit writes and bridge runs are atomic; two overlapping database transactions, which the guard of the INSERT does not see, are not part of this model.
- The condition `stale` in `AuditBridge` marks a replaced file that grew past the cursor before a run saw it; such a run reads the new file from its middle, as the code does.
- Upper-casing of announcement titles, and a capture state file that is lost or malformed (the code starts from an empty one and with it a new cap).
- A lost or unreadable distillation cursor, which the code treats as a first run; the pipeline itself and its statistics file.
- Fee saving, adverse selection, the 81 cells, the classification of cells and buckets, CSV and Markdown output; the stripping of prefixes from exit reasons.
- The square root of the Wilson interval is an argument, constrained to be one.
