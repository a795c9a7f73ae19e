# Verified model of the trading pipeline

This project models the decision logic of a deterministic paper-trading pipeline and proves what it promises.
Ticks become one-minute candles; candles become indicators and scanner signals; candidate signals become
recommendations of a language model and simulated trades; a scheduler drives the whole through the trading day.

Run `dafny verify dfyconfig.toml`.

## How the model is built

| file | what it holds |
|---|---|
| `Foundations.dfy` | optional values, list operations, ASCII text and its order, instants and IST session time, decimal rounding, stable sorting, the candle type |
| `CandleBatch.dfy` | one token's track as steps, and the batch reading of its quotes; the first refines the second |
| `CandleGuarantees.dfy`, `CandleOrder.dfy` | conservation of volume, gaps, prices, and when the emitted candles are strictly ordered |
| `CandleBuilder.dfy` | the builder object with its per-token maps in insertion order, and many tokens on one feed |
| `PaperSimulator.dfy` | instructions, the exit scan, no look-ahead, the loss bound |
| `PaperLedger.dfy`, `PaperService.dfy`, `PaperEngine.dfy` | the ledger and its one write, the sequential replay, and the repository and service objects |
| `PaperConcurrency.dfy`, `PaperRivals.dfy` | replays that interleave at their awaits, and how far past the cap they get |
| `PaperFlatDay.dfy` | a concrete day of candles and signals on which promises are tried out |
| `PaperReport.dfy` | replay summaries, reconciliation to the last digit, journal reports |
| `Scheduler.dfy`, `SchedulerBudget.dfy`, `SchedulerService.dfy` | the scheduler as steps between awaits with its invariant, the retry budget over runs, and the scheduler object |
| `Indicators.dfy`, `Sessions.dfy`, `Strategies.dfy` | recurrences and their bounds, session completeness, vetoes and the two strategies |
| `ScannerReplay.dfy` | replaying stored candles into an append-only signal store |
| `DecisionOutput.dfy`, `DecisionRedaction.dfy`, `DecisionService.dfy`, `DecisionConcurrency.dfy`, `DecisionAutomation.dfy` | validating an adapter's answer, what redaction keeps out, keyed evaluation, interleaved evaluations, bounded drains |
| `Universe.dfy` | classifying a pool of symbols, ranking and cutting |
| `IndicatorLaws.dfy`, `SessionLaws.dfy`, `StrategyLaws.dfy`, `ScannerLaws.dfy`, `PaperLaws.dfy`, `ReportLaws.dfy`, `SchedulerLaws.dfy`, `DecisionLaws.dfy`, `UniverseLaws.dfy`, `TextLaws.dfy` | what each operation computes, written on its inputs with the arithmetic, times, codes and orders spelled out |
| `Pipeline.dfy` | what the builder guarantees, used where the scanner and the paper engine need it |

Conventions. An instant is a whole number of microseconds, the resolution of the source's datetimes. A `Decimal` is an exact
real and every `quantize` is written out. Keys that the source joins into strings, or hashes, are tuples. Objects that the source updates in
place are classes whose methods are proved to do what a specification function says; the theorems are about those
functions and about runs of them. What such a function means
is stated a second time, on the inputs alone, in the files of laws. Clock readings, adapter answers, job summaries and scores are inputs. A `schedule`
is any sequence of steps, so a theorem about every schedule is a theorem about every interleaving.

Some promises do not hold as they stand. Each has a lemma with a failing input and a theorem with the exact condition under
which it does hold:

- A tick accepted for a minute that a flush already emitted reopens that minute and may emit it twice
  (`CandleGuarantees.LateQuoteReopensFlushedMinute`). The builder agrees with the batch reading after every event if and only
  if no tick does this (`CandleBatch.RefinesThroughoutIff`). When gaps go forward in time, a token's candles are out of order if
  and only if a flush emitted a minute, a later quote reopened it and the reopened candle was emitted too
  (`CandleOrder.OrderBreaksIffEmittedAgain`); on any feed, if and only if some step emits a working candle that starts no later
  than the candle before it (`CandleGuarantees.OrderedIffNeverGoesBack`).
- The daily cap can be exceeded by interleaved replays (`PaperRivals.InterleavingCanExceedCap`). It holds at the end of
  a schedule if and only if no step recorded a trade on a day that was already full at that moment
  (`PaperConcurrency.CapHoldsIffNeverStale`); whole replays in sequence never do
  (`PaperReplay.SequentialReplaysRespectCap`), and N interleaved replays exceed it by at most N - 1
  (`PaperConcurrency.CapExceededByAtMostRivals`), which every cap and every N can reach (`PaperRivals.RivalsReachBound`).
- A trade can lose more than the planned risk (`PaperSimulator.ForceFlatCanExceedPlannedRisk`): if and only if the first bar
  that triggers an exit after the first filling bar is at or after force-flat and closes below the stop
  (`PaperSimulator.LossExceedsPlannedIff`).
- A cost off the six-place grid breaks the reconciliation of journal and trades
  (`PaperReconciliation.OffGridCostBreaksReconciliation`). On six-place candles a replay ends reconciled, and its report shows
  the ledger, if and only if the cost setting is on the grid or no trade was closed
  (`PaperReconciliation.ReplayReconcilesIff`, `PaperReport.ReportShowsLedgerIff`).
- The recovery budget of floor(window / interval) + 1 attempts can be exceeded by one, because the window test and the
  recorded instant are two clock readings (`SchedulerBudget.BusyDayOverruns`). It holds for every run whose two readings are
  less than g apart if and only if g is at most what the window lacks of a whole number of intervals
  (`SchedulerBudget.RetryBudgetIff`).
- The continuity check truncates to seconds, so it accepts candles half a second off the minute that the completeness
  check refuses (`Sessions.SubsecondStartsDisagree`); a session is complete if and only if it starts at 09:15, passes that
  check and all its starts are whole minutes (`Sessions.CompleteIffContinuous`).
- Without the active-instrument or special-character rule a pool entry can land twice in a selection
  (`UniverseSelection.InactiveLandsTwice`): if and only if it is a known NSE symbol that is special or inactive while the
  settings let it pass (`UniverseSelection.EntriesLandOnce`).
- Redaction can leave a secret in a stored text when the mark that replaces it completes the secret again
  (`DecisionRedaction.CompletedIsShown`). One secret, whatever it looks like, stays out of every stored text if and only if the
  mark neither contains it nor lies in it, no end of the mark begins it, and where a beginning of the mark ends it, the part
  before cannot stand in front of the secret without a match of its own (`DecisionRedaction.OneSecretIsGoneIff`). Any number of
  secrets that overlap the mark at neither end nor contain it stay out if and only if none occurs in the mark
  (`DecisionRedaction.RedactionIsCompleteIff`). Keys are not redacted at all (`DecisionRedaction.SecretKeysAreStored`).

The builder's own docstring promises to ignore duplicate ticks; the code accepts a repeated instant that brings more volume, and the model
follows the code.

## Model

| member | source | states |
|---|---|---|
| CandleBatch.ExtremesAreExtreme | backend/app/market_data/candle_builder.py:24-27 | the batch high and low are prices of the minute and bound every price of it |
| CandleBatch.GainTelescopes | backend/app/market_data/candle_builder.py:96-111 | in a publishable minute the accumulated volume steps equal last cumulative volume minus the one before the minute |
| CandleBatch.BuilderRefinesBatch | backend/app/market_data/candle_builder.py:63-136 | on every feed that reopens no flushed minute, the track and the candles since the last gap are exactly those of the batch reading: accepted ticks grouped by minute, each closed minute published iff a volume baseline preceded it and volume never fell in it |
| CandleBatch.RefinesThroughoutIff | backend/app/market_data/candle_builder.py:69-80 | the builder agrees with the batch after every event if and only if no accepted tick falls into a minute already flushed |
| CandleBatch.FinalFlushesNeverReopen | backend/app/market_data/candle_builder.py:113-121 | if no accepted tick is older than an earlier flush cutoff, no minute is reopened |
| CandleGuarantees.VolumeIsConserved | backend/app/market_data/candle_builder.py:96-111 | volume emitted, discarded and still in the working candle always sums to the positive steps between consecutive volume-bearing accepted ticks since the last gap |
| CandleGuarantees.LaterOrRicherIsAccepted | backend/app/market_data/candle_builder.py:63-80 | a quote is accepted iff it is the first, later than the last, or at its instant with more volume than last reported |
| CandleGuarantees.CandlesAreWellFormed | backend/app/market_data/candle_builder.py:24-45 | every candle ever emitted has low <= open, close <= high and no negative volume |
| CandleGuarantees.FirstMinuteIsNeverEmitted | backend/app/market_data/candle_builder.py:48-55 | the first minute after a start or a gap is never emitted; every candle since then starts later |
| CandleGuarantees.GapStartsAfresh | backend/app/market_data/candle_builder.py:123-127 | after a gap the builder emits what a fresh builder would emit for the suffix, so no candle mixes ticks from both sides |
| CandleGuarantees.EmissionsAreOrdered | backend/app/market_data/candle_builder.py:69-76 | emitted candles start on whole minutes, strictly increasing, when gaps go forward in time and no minute is reopened |
| CandleGuarantees.OrderedIffNeverGoesBack | backend/app/market_data/candle_builder.py:83-136 | the candles ever emitted start on strictly increasing whole minutes if and only if no step emits a working candle that starts no later than the last one emitted |
| CandleOrder.OrderBreaksIffEmittedAgain | backend/app/market_data/candle_builder.py:69-121 | when gaps go forward in time, the candles are out of order iff some flush emitted a minute, a later accepted quote reopened it, and the reopened candle was emitted too |
| CandleGuarantees.LateQuoteReopensFlushedMinute | backend/app/market_data/candle_builder.py:113-121 | a feed on which one minute is emitted twice |
| CandleBuilder.OneMinuteCandleBuilder.AcceptTick | backend/app/market_data/candle_builder.py:63-111 | the in-place method takes the token's track exactly one specified step, returns the specified candles, keeps or moves the token in the insertion order, and leaves every other token's track alone |
| CandleBuilder.OneMinuteCandleBuilder.RollToMinute | backend/app/market_data/candle_builder.py:129-136 | forgets a working candle of another minute and returns it iff its volume is complete |
| CandleBuilder.OneMinuteCandleBuilder.FlushCompletedBefore | backend/app/market_data/candle_builder.py:113-121 | every token is flushed as specified; the candles returned are those of the flushed tokens in insertion order, and the other tokens keep their order |
| CandleBuilder.OneMinuteCandleBuilder.InvalidateAfterStreamGap | backend/app/market_data/candle_builder.py:123-127 | every token's track is fresh again |
| CandleBuilder.CandlesFromFeed | backend/app/market_data/candle_builder.py:63-127 | on any interleaving of tokens, flushes and gaps the builder emits exactly the specified candles in the specified order |
| CandleBuilder.TokensDoNotInterfere | backend/app/market_data/candle_builder.py:63-127 | in that output each token's candles are exactly those of a run over its own events |
| CandleBuilder.OrderListsWorking | backend/app/market_data/candle_builder.py:57-61 | after any feed the insertion order lists, once each, exactly the tokens that have a working candle |
| PaperSimulator.InstructionsAreSound | backend/app/paper/simulator.py:57-93 | every instruction has 0 < stop < entry < target, a positive quantity and a planned risk of exactly (entry - stop) * quantity, from a signal with no defect whose own candle was found |
| PaperSimulator.InstructionPricesFollowConfig | backend/app/paper/simulator.py:50-93 | exact entry = close of the first candle at the signal time * (1 + buffer/100), exact stop = entry * (1 - stop/100), exact target = entry + multiple * (entry - stop), each rounded half up to six places; quantity, mode, cost and identity as configured and signalled |
| PaperLaws.PaperedIffNothingIsWrong | backend/app/paper/simulator.py:30-93 | an instruction is built iff the signal has no defect, its candle is found and its prices have no problem; otherwise the first reason, in the checked order, rejects with nothing entered |
| PaperLaws.DefectIsFirst | backend/app/paper/simulator.py:178-240 | the eight defects of a signal and their order |
| PaperSimulator.ScanExits | backend/app/paper/simulator.py:129-176 | the exit loop returns the first triggering bar's exit, or a time exit at the last bar, or an open trade; the last return of the source is unreachable |
| PaperSimulator.Simulate | backend/app/paper/simulator.py:95-176 | the scan computes the specified outcome |
| PaperSimulator.SimulationFollowsFirsts | backend/app/paper/simulator.py:103-176 | over the candles in any order: the entry is the earliest later bar of the day that fills, the exit the earliest bar after it that meets force-flat, stop or target in that priority, or the day's last bar |
| PaperLaws.TradeIsReadOffCandles | backend/app/paper/simulator.py:95-176 | on the candles in any order, with every comparison written out: a trade is created iff a later candle of the day can fill, at the earliest one and at the entry price; it ends at the time and price of the earliest candle that can end it, by force-flat, stop, target in that order, at the last close, or not; gross, costs and net follow |
| PaperSimulator.NoFillMeansNothingFills | backend/app/paper/simulator.py:103-132 | a no-fill is reported iff no later bar of the day before force-flat spans the entry price |
| PaperSimulator.LaterCandlesChangeNothing | backend/app/paper/simulator.py:103-176 | strictly later candles never change a stop, target or force-flat outcome, nor the entry of a filled trade |
| PaperSimulator.NoFillIsFinalAfterForceFlat | backend/app/paper/simulator.py:116-132 | a missed entry is final once a bar of that day at or after force-flat was seen |
| PaperSimulator.CandleOrderIsIrrelevant | backend/app/paper/simulator.py:103-110 | with distinct start times the order of the candles does not matter |
| PaperSimulator.LossIsBoundedByPlannedRisk | backend/app/paper/schemas.py:294-329 | gross is below minus the planned risk iff the trade was forced flat below its stop, and equals it iff it was stopped or forced flat at the stop |
| PaperSimulator.LossExceedsPlannedIff | backend/app/paper/simulator.py:134-150 | on candles with distinct starts, more than the planned risk is lost iff the first exit-triggering bar after the first filling bar is at or after force-flat and closes below the stop |
| PaperSimulator.LossEqualsPlannedIff | backend/app/paper/simulator.py:134-158 | exactly the planned risk is lost iff that bar force-flats at the stop or, before force-flat, reaches the stop |
| PaperSimulator.ForceFlatCanExceedPlannedRisk | backend/app/paper/simulator.py:134-150 | for a sound instruction some well-formed candles with positive prices lose more than planned iff the force-flat time leaves room after the signal on its day |
| PaperLedger.RecordKeepsBalance | backend/app/paper/repository.py:495-570 | every write that is not refused keeps the books balanced: one trade per signal, each on one filled BUY of its own, filled BUYs equal trades, SELLs equal closed trades, ids consecutive |
| PaperLedger.BalancedMeansOneTradeEach | backend/app/paper/repository.py:501-502 | in a balanced ledger two trades of one signal, or on one BUY, are the same trade |
| PaperLedger.RejectionOnlyJournals | backend/app/paper/repository.py:503-570 | recording a rejection adds one journal row and nothing else |
| PaperLaws.MissedFillIsWritten | backend/app/paper/repository.py:495-570 | a missed fill writes one unfilled BUY, its event and a row |
| PaperLaws.TradeIsWritten | backend/app/paper/repository.py:495-570 | a trade writes a filled BUY at the reference price, a SELL at the exit price once closed, their events, a trade on both, and a row |
| PaperLaws.RowRepeatsOutcome | backend/app/paper/repository.py:565-570 | a journal row repeats the outcome, its amounts with six places |
| PaperEngine.PaperRepository.RecordPaperOutcome | backend/app/paper/repository.py:495-570 | the in-place write produces the specified ledger, or refuses a second trade and changes nothing |
| PaperEngine.PaperRepository.CountPaperTradesForDay | backend/app/paper/repository.py:487-493 | counts the trades of the signals of one IST day |
| PaperEngine.PaperService.ReplaySignal | backend/app/paper/service.py:79-117 | one signal, uninterrupted, is one step of the replay function |
| PaperEngine.PaperService.RunReplay | backend/app/paper/service.py:61-123 | a whole replay is the replay function on the loaded signals, or a refusal that changes nothing |
| PaperLaws.RefusedUnlessPapering | backend/app/paper/service.py:187-200 | a replay is refused in live mode, then when disabled, then in any mode but paper |
| PaperReplay.CandidatesAreEarliest | backend/app/paper/repository.py:452-467 | the loaded signals are stored candidates of the symbol and time window, each once, by time and then id; any such signal left out means the limit is reached and every loaded one comes before it |
| PaperReplay.ReplayKeepsBooks | backend/app/paper/service.py:78-123 | from a balanced ledger every replay ends balanced, with exactly one outcome and one journal row per loaded signal, in order |
| PaperLaws.ReplayDecides | backend/app/paper/service.py:79-117 | a signal with a trade is refused as a duplicate, under a cap below one or on a day with as many trades as the cap as capped, each with its code and nothing entered; any other gets what the engine makes of it, and that is what is written |
| PaperLaws.CandlesAreOfTheDay | backend/app/paper/service.py:90-95 | a signal is simulated on its symbol's one-minute candles from its time to the end asked for, by default 23:59 IST of its day, in order, the first hundred thousand of them |
| PaperReplay.ReplayTradesGreedily | backend/app/paper/service.py:79-117 | from an empty ledger a replay trades, on each IST day, exactly the first max_trades_per_day fillable signals in replay order |
| PaperReplay.ReplayIsIdempotent | backend/app/paper/service.py:150-163 | from any ledger, repeating a replay on the same inputs adds no trade |
| PaperReplay.SequentialReplaysRespectCap | backend/app/paper/service.py:165-185 | sequential replays of any selections never push a day over the cap |
| PaperEvaluation.EnvIsShaped | backend/app/paper/schemas.py:230-329 | whatever the signal and candles, the engine's outcome is a rejection, a no-fill or a trade, with net = gross - costs, and it belongs to the signal |
| PaperEvaluation.LoadedReplayTradesGreedily | backend/app/paper/service.py:61-123 | for any stored signals with unique ids and any stored candles, the loaded replay leaves a balanced ledger with exactly the first max_trades_per_day fillable signals of each day traded, and repeats without a new trade |
| PaperConcurrency.EveryScheduleIsSafe | backend/app/paper/service.py:79-117 | under every interleaving of any number of replays the ledger stays balanced and holds one journal row per reported outcome |
| PaperConcurrency.TradesAreKept | backend/app/paper/repository.py:196-223 | no step changes or removes a recorded trade |
| PaperConcurrency.LosingRacerOnlyJournals | backend/app/paper/service.py:107-116 | a replay that lost the race for a signal changes nothing, and then only adds a journal rejection |
| PaperConcurrency.AloneIsReplay | backend/app/paper/service.py:61-123 | uninterrupted, the stepwise replay is the sequential one |
| PaperRivals.InterleavingCanExceedCap | backend/app/paper/service.py:165-185 | for every cap and every number N of replays, stored signals and candles and a schedule on which the engine records cap + N - 1 trades on one day |
| PaperRivals.RivalsReachBound | backend/app/paper/service.py:165-185 | any cap + N - 1 fillable signals of a day can be spread over N replays, started together on an empty ledger, so that a schedule trades them all: the bound on exceeding the cap is tight |
| PaperConcurrency.CapBrokenOnlyByStaleStep | backend/app/paper/service.py:165-185 | a step breaks a respected cap iff it records a trade on a day that is already full |
| PaperConcurrency.CapHoldsIffNeverStale | backend/app/paper/service.py:79-117 | under any schedule of any replays the cap holds at the end iff no step was stale when taken |
| PaperConcurrency.CapExceededByAtMostRivals | backend/app/paper/service.py:165-185 | under every schedule of N replays a day holds at most its cap plus N - 1 trades |
| PaperSummary.SummaryCounts | backend/app/paper/schemas.py:180-198 | the summary's counts are the numbers of rejections, no-fills and trades, and attempts are no-fills plus trades |
| ReportLaws.SummaryCountsOutcomes | backend/app/paper/schemas.py:180-198 | those counts are the numbers of outcomes with a rejection reason, with a missed fill and with a trade |
| PaperSummary.SummaryMatchesLedger | backend/app/paper/schemas.py:180-210 | rejections, no-fills and trades add up to the loaded signals, and the ledger grew by exactly the reported trades |
| PaperReconciliation.MoneyFixesExactlyGrid | backend/app/paper/schemas.py:340-345 | writing an amount with six places changes nothing iff it is on the six-place grid |
| PaperReconciliation.WriteReconcilesIff | backend/app/paper/repository.py:495-570 | a write keeps the journal's sums equal to the trades' sums iff its amounts are on the grid |
| PaperReconciliation.EvaluateFollowsCost | backend/app/paper/schemas.py:294-329 | on six-place candles an outcome of the engine is on the grid iff it closes no trade or the cost setting is on the grid |
| PaperReconciliation.ReplayReconcilesIff | backend/app/paper/schemas.py:340-345 | on six-place candles a replay of a reconciled ledger ends reconciled iff the cost setting is on the grid or no trade was closed |
| PaperReport.BuildPaperReport | backend/app/paper/reporting.py:29-68 | the loop's totals are the sums and counts over the listed outcomes: simulated, by exit reason, by status, rejections, decided and per verdict, and the three published amounts |
| ReportLaws.ReportCountsRows | backend/app/paper/reporting.py:29-60 | each count is the number of rows with that flag, status, reason or verdict, an empty verdict being unknown |
| ReportLaws.NewestAreListed | backend/app/paper/repository.py:572-578 | the newest rows come first, each with the decision on its signal |
| ReportLaws.ReportIsBounded | backend/app/paper/service.py:125-128 | a report lists between one and ten thousand outcomes, as many as asked for in between |
| ReportLaws.SumsAddUp | backend/app/paper/reporting.py:29-60 | totals of rows and of trades add amount by amount |
| PaperReport.ExitCountsCoverOutcomes | backend/app/paper/reporting.py:32-33 | the exit-reason counts add up to the outcomes |
| PaperReport.PublishedTotalsAreExact | backend/app/paper/reporting.py:66-78 | over a six-place journal that fits the limit, rounding the published totals changes nothing |
| PaperReport.ReportShowsLedgerIff | backend/app/paper/service.py:125-133 | from stored six-place candles to the published figures: the report over the whole journal shows exactly the trades' totals, net equal to gross minus costs, iff the cost setting is on the grid or the replay closed no trade |
| PaperEngine.PaperService.Report | backend/app/paper/service.py:125-133 | the report lists the newest outcomes up to the bounded limit; when the whole journal fits, its totals are the ledger's iff the ledger reconciles |
| PaperReconciliation.OffGridCostBreaksReconciliation | backend/app/paper/reporting.py:77-78 | stored candles and a cost of half a millionth on which a replay closes a trade and the ledger no longer reconciles |
| SchedulerGuarantees.InvariantHolds | backend/app/ops/market_ops_scheduler.py:140-372 | every step of the loop, of a running job and of an operator keeps the invariant under a clock that does not go back |
| SchedulerGuarantees.ReachableStatesAreSane | backend/app/ops/market_ops_scheduler.py:200-311 | in every reachable state: waiting implies a pending stream start, nothing pending means recovery is reset, no due key ran twice whatever was pruned, attempts lie in the window an interval apart, at most one link per episode |
| SchedulerBudget.AttemptsPerDay | backend/app/ops/market_ops_scheduler.py:254-293 | in every run a day sees at most floor(window / interval) + 2 attempts per start, and one fewer while recorded instants follow their window tests by less than the slack |
| SchedulerBudget.BusyDayOverruns | backend/app/ops/market_ops_scheduler.py:254-281 | for every window and interval, a run with one attempt more than floor(window / interval) + 1 |
| SchedulerBudget.RetryBudgetIff | backend/app/ops/market_ops_scheduler.py:254-293 | every run with clock readings less than g apart keeps floor(window / interval) + 1 iff g is at most what the window lacks of a whole number of intervals |
| SchedulerBudget.SlackIsAtLeastASecond | backend/app/ops/market_ops_scheduler.py:254-293 | with a whole-second window that slack is at least one second |
| SchedulerGuarantees.ScannerBatchesPerDay | backend/app/ops/market_ops_scheduler.py:334-372 | in every run the automatic keys are distinct and a day's scanner batches number at most floor((stop - start) / interval) + 1 |
| SchedulerGuarantees.JobsNeverOverlap | backend/app/ops/market_ops_scheduler.py:140-180 | in every run, between two job starts the first job returned or was cancelled while it still held the lock |
| SchedulerService.MarketOpsScheduler.ProcessRecoverySummary | backend/app/ops/market_ops_scheduler.py:200-239 | the in-place handling of a job summary is the recovery protocol's step, and says whether a login link goes out |
| SchedulerService.MarketOpsScheduler.BeginDueJob | backend/app/ops/market_ops_scheduler.py:334-343 | starts a due job iff its key is new and the lock is free, and remembers the key |
| SchedulerLaws.WhichJobIsDue | backend/app/ops/market_ops_scheduler.py:348-373 | a daily job is due in its own configured minute unless an earlier-listed one shares it; otherwise a scanner batch is due in the first poll of a slot within the hours; nothing else is ever due |
| SchedulerLaws.RunsStartOnTime | backend/app/ops/market_ops_scheduler.py:334-373 | in every run every executed key was started by the loop, under the lock, at an instant in its own minute or slot |
| SchedulerLaws.SummaryMovesRecovery | backend/app/ops/market_ops_scheduler.py:200-239 | what every job, event and outcome does to recovery, the next retry and the login link |
| SchedulerLaws.LookDecides | backend/app/ops/market_ops_scheduler.py:254-281 | recovery is tried, expires, is dropped or waits, by the local time, the window, the lock and the retry instant |
| SchedulerLaws.DueStartsIff | backend/app/ops/market_ops_scheduler.py:334-343 | a look starts one job iff one is due, its key is new and the lock is free |
| SchedulerLaws.ReleaseKeepsToday | backend/app/ops/market_ops_scheduler.py:343-346 | releasing the loop's due job keeps exactly the keys of the day it was started on |
| SchedulerLaws.StartAndStop | backend/app/ops/market_ops_scheduler.py:241-252 | what starting and stopping the loop do to recovery and the lock |
| SchedulerLaws.OtherSteps | backend/app/ops/market_ops_scheduler.py:140-170 | what a returned job, a notice of expiry and an operator change, and what they leave alone |
| SchedulerLaws.HistoryLeavesNothingOut | backend/app/ops/market_ops_scheduler.py:254-343 | the recorded history holds every due job started, every recovery attempt and every link |
| SchedulerService.MarketOpsScheduler.JobReturned | backend/app/ops/market_ops_scheduler.py:154-170 | a returned job is processed once; a link is sent exactly when the protocol says so |
| SchedulerService.MarketOpsScheduler.ReleaseJobLock | backend/app/ops/market_ops_scheduler.py:343-346 | frees the lock and prunes old keys only behind the loop's own due job |
| SchedulerService.MarketOpsScheduler.BeginRecovery | backend/app/ops/market_ops_scheduler.py:254-281 | attempts recovery exactly when pending, enabled, inside the window, unlocked and due, and schedules the next |
| SchedulerService.MarketOpsScheduler.Start | backend/app/ops/market_ops_scheduler.py:241-252 | a start inside the window arms recovery at once |
| SchedulerService.MarketOpsScheduler.Stop | backend/app/ops/market_ops_scheduler.py:72-88 | stopping cancels the loop and the job it runs, not an operator's |
| SchedulerService.MarketOpsScheduler.RunJob | backend/app/ops/market_ops_scheduler.py:140-153 | an operator's job is refused, with nothing changed, while any job holds the lock |
| Rounding.Q4MonotoneWithHalfUnitError | backend/app/analysis/indicators.py:181-182 | half-up rounding to four places is monotone and errs by at most half a unit |
| Rounding.PlacesExactly | backend/app/analysis/indicators.py:181-182 | which number each of the three roundings gives, ties included |
| MarketClock.IstClockRuns | backend/app/analysis/indicators.py:10-11 | the epoch is 05:30 IST of date zero, and dates and times run from there |
| Indicators.Ema | backend/app/analysis/indicators.py:16-25 | the loop computes the rounded recurrence, or nothing without enough values |
| IndicatorLaws.EmaRecurrence | backend/app/analysis/indicators.py:16-25 | the first average times the period is the sum; with one more value x, (period + 1) * new = 2 * x + (period - 1) * old, for every history and period |
| Indicators.EmaIsBounded | backend/app/analysis/indicators.py:16-25 | for every length and period, rounded bounds on the inputs bound the EMA |
| Indicators.RsiWilder | backend/app/analysis/indicators.py:28-49 | both loops together compute Wilder's averages of gains and losses and the index from them |
| IndicatorLaws.AverageMoveRecurrence | backend/app/analysis/indicators.py:32-46 | the first average rise, or fall, times the period is the sum of the changes of that sign; with one more close, period * new = (period - 1) * old + its own change of that sign |
| IndicatorLaws.RsiIsShareOfGains | backend/app/analysis/indicators.py:28-49 | the index is 100 * gain / (gain + loss) to four places, 100 without losses, and there iff there are more closes than the period |
| Indicators.RsiIsBounded | backend/app/analysis/indicators.py:28-49 | the index lies within 0 and 100 for every history and period |
| Indicators.RsiMirrors | backend/app/analysis/indicators.py:32-49 | mirrored prices swap the two averages, and the unrounded index becomes its complement to 100 |
| Indicators.AtrWilder | backend/app/analysis/indicators.py:52-68 | both loops compute the smoothed true range |
| IndicatorLaws.TrueRangeIsWidest | backend/app/analysis/indicators.py:56-64 | the true range is the largest of the three ranges; for a well-formed bar the bar stretched to the close before |
| IndicatorLaws.AtrRecurrence | backend/app/analysis/indicators.py:52-68 | first mean and recurrence over the true ranges of consecutive bars, published to four places |
| Indicators.AtrIsBounded | backend/app/analysis/indicators.py:52-68 | on well-formed candles ATR lies between zero and the rounded greatest true range |
| Indicators.VwapIsBounded | backend/app/analysis/indicators.py:71-77 | on well-formed candles VWAP lies between the rounded lowest low and highest high |
| IndicatorLaws.VwapRecurrence | backend/app/analysis/indicators.py:71-77 | one bar has the mean of high, low and close; a further bar joins with the weight of its volume |
| IndicatorLaws.VolumeRatioComparesVolumes | backend/app/analysis/indicators.py:114-122 | ratio * (volume of the bars before) = period * latest volume, and there iff those bars have volume |
| IndicatorLaws.RelativeMoveComparesRatios | backend/app/analysis/indicators.py:125-136 | a hundred times the difference of the two closing ratios |
| IndicatorLaws.SpreadComparesSides | backend/app/analysis/indicators.py:139-146 | 200 * (ask - bid) / (ask + bid), iff the sum is positive and the sides are in order |
| IndicatorLaws.AveragesArePublished | backend/app/analysis/indicators.py:16-77 | from which length on an EMA, an average range and VWAP are there, and that they are the unrounded averages to four places |
| Indicators.SpreadInRange | backend/app/analysis/indicators.py:139-146 | a published spread is not negative and at most 200 percent for a non-negative bid |
| Sessions.CurrentSessionIsLatestDate | backend/app/analysis/feature_builder.py:140-167 | the current session is, in time order, exactly the regular candles on the latest candle's date |
| SessionLaws.RegularFromOpen | backend/app/analysis/feature_builder.py:174-175 | regular candles are those from 09:15 on, in time order |
| Sessions.PriorSessionIsDateBefore | backend/app/analysis/feature_builder.py:152-167 | the prior session is exactly the regular candles of the latest earlier date, empty only when there is none |
| Sessions.CandleContinuityOk | backend/app/analysis/indicators.py:149-161 | the loop decides whether every same-day pair is sixty truncated seconds apart |
| SessionLaws.ContinuityIsAMinuteApart | backend/app/analysis/indicators.py:149-161 | neighbours of one date must be at least sixty and less than sixty-one seconds apart |
| Sessions.HasContinuousPrefix | backend/app/analysis/feature_builder.py:209-221 | the loop decides whether the first candles start at 09:15 and run minute by minute |
| SessionLaws.CompleteMeansEveryMinute | backend/app/analysis/feature_builder.py:182-221 | opening range and session are complete iff every minute from 09:15 is there, of one-minute candles only |
| Sessions.CompleteIffContinuous | backend/app/analysis/feature_builder.py:196-221 | a session is complete through its latest candle iff it starts at 09:15, the continuity check passes and all starts are whole minutes |
| Sessions.LoadedSessionCompleteIffContinuous | backend/app/analysis/feature_builder.py:117-131 | the same for the current session of any loaded candles |
| Sessions.SubsecondStartsDisagree | backend/app/analysis/indicators.py:158-160 | two candles on which the two checks disagree |
| Sessions.CompleteSessionCountsMinutes | backend/app/analysis/feature_builder.py:196-206 | in a complete session the latest candle's time gives the number of candles |
| Sessions.OpeningRangeUsesFirstMinutes | backend/app/analysis/indicators.py:80-98 | with a complete opening range it is measured on exactly the first m candles iff the next candle starts after those minutes |
| Sessions.OpeningRangeOnWholeMinutes | backend/app/analysis/feature_builder.py:182-193 | with distinct whole-minute starts a complete opening range always uses exactly the first m candles |
| StrategyLaws.OpeningBarsByClock | backend/app/analysis/indicators.py:80-98 | the opening range is measured on exactly the candles of the last candle's date from 09:15 until so many minutes later |
| StrategyLaws.PreviousDayIsPriorSession | backend/app/analysis/feature_builder.py:44-46 | the previous day's high and low are those of the prior session, and absent while the current session is empty |
| Strategies.HardVetoes | backend/app/scanners/vetoes.py:27-69 | for any bars, also none, the appended and deduplicated reasons are exactly those that apply, in the declared order |
| Collections.Unique | backend/app/scanners/vetoes.py:72-79 | keeps the first occurrence of every value in order |
| Collections.FirstOccurrencesAreUnique | backend/app/scanners/strategies.py:275-282 | nothing is repeated and nothing lost |
| Strategies.EvaluateStrategy | backend/app/scanners/strategies.py:55-236 | the stepwise evaluation of either strategy yields the specified signal |
| Strategies.CandidateIffNothingTriggers | backend/app/scanners/strategies.py:197-198 | a bar is a candidate iff no reason applies; otherwise the reasons given are exactly those that apply, once each |
| StrategyLaws.EvaluationSaysWhy | backend/app/scanners/vetoes.py:27-69 | the reasons of an evaluation, each at its place with its condition written on the candles, indicators, quote and settings |
| StrategyLaws.CandidateIffConditionsHold | backend/app/scanners/strategies.py:88-165 | without a hard veto a bar is a candidate iff the comparisons of its strategy hold, written on closes, EMA 9 and 20, VWAP, opening high and volume ratio |
| StrategyLaws.EvaluationReportsIndicators | backend/app/analysis/feature_builder.py:31-66 | which indicator over which candles an evaluation reports |
| StrategyLaws.KeysAgreeIff | backend/app/scanners/strategies.py:218-225 | two evaluations share a key iff symbol, timeframe, strategy, bar start and run agree, no run and an empty one counting as live |
| Strategies.BreakoutCandidateWindow | backend/app/scanners/strategies.py:88-102 | a breakout candidate's bar starts at or after 09:15 plus the opening range and not after 14:30 |
| Strategies.BreakoutBeatsOpeningMinutes | backend/app/scanners/strategies.py:90-93 | with distinct whole-minute starts it closes above the high of each of the first m minutes, all of them present |
| Strategies.PullbackCandidateIsComplete | backend/app/scanners/vetoes.py:45-54 | a pullback candidate has every minute of its session from 09:15 through its bar, and at least fifty bars of history |
| ScannerReplay.ScannerService.ReplayBar | backend/app/scanners/service.py:213-234 | the inner loop stores and counts exactly as specified |
| ScannerReplay.ScannerService.RunReplay | backend/app/scanners/service.py:178-241 | the nested loops leave the specified store and counts; any other timeframe is refused and changes nothing |
| ScannerReplay.ReplayAccounts | backend/app/scanners/service.py:204-241 | evaluated = bars * strategies = inserted + duplicates = candidates + rejected, the store grows by the inserted, and no stored signal changes |
| ScannerLaws.BarSeesItsPast | backend/app/scanners/service.py:206-225 | a bar shows a strategy the candles up to itself and the benchmark up to its start, not stale and without a quote |
| ScannerLaws.BarEvaluationAt | backend/app/scanners/service.py:213-225 | a bar is evaluated once for each strategy, in order |
| ScannerLaws.ReplayCountsStatuses | backend/app/scanners/service.py:226-234 | the candidates and the rejections counted are those among the evaluations |
| ScannerLaws.LastCandlesAreLoaded | backend/app/scanners/repository.py:172-186 | a replay loads the last candles of the timeframe, all of them up to the limit |
| ScannerLaws.ReplayIsOfSymbol | backend/app/scanners/service.py:179-204 | a replay is of the last candles of its own symbol, in time order, and of the benchmark only where one is configured |
| ScannerReplay.RerunInsertsNothing | backend/app/scanners/repository.py:188-192 | replaying a run again inserts nothing, even if other signals were stored in between |
| ScannerReplay.ReplayDoesNotLookAhead | backend/app/scanners/service.py:206-212 | strictly later candles, also of the benchmark, change no signal of an earlier bar and add only signals of later bars |
| ScannerReplay.StoredHistoryDoesNotLookAhead | backend/app/scanners/repository.py:172-186 | the same for candles appended to the stored lists, below the bar limit |
| DecisionOutput.SanitizedHasNoProhibitedKey | backend/app/decision/service.py:433-451 | the stored payload holds no prohibited key at any depth |
| DecisionOutput.CleanOutputIsStoredVerbatim | backend/app/decision/service.py:422-459 | an output without prohibited keys and secrets is stored unchanged |
| DecisionRedaction.OneSecretIsGoneIff | backend/app/decision/service.py:444-448 | a single secret of any form stays out of every text of every stored payload iff the mark cannot complete it: exact conditions on overlap, containment and earlier matches |
| DecisionRedaction.CompletedIsShown | backend/app/decision/service.py:444-448 | for every secret the mark can complete, a text whose redacted form shows the secret |
| DecisionRedaction.RedactionIsCompleteIff | backend/app/decision/service.py:444-448 | any number of secrets that overlap the mark at neither end nor contain it stay out of every stored text iff none occurs in the mark |
| DecisionRedaction.BracketlessIsClear | backend/app/decision/service.py:444-448 | every secret without the brackets of the mark is such a secret |
| DecisionOutput.EligibleIff | backend/app/decision/service.py:302-350 | exactly which answers end as ELIGIBLE |
| DecisionLaws.ValidationNamesFirstProblem | backend/app/decision/service.py:302-350 | the ten problems of an answer in their order and codes: the first rejects with no confidence; without one the answer stands, or becomes a watch with the missing facts in live shadow |
| DecisionLaws.SchemaLimits | backend/app/decision/schemas.py:68-79 | which numbers of confidence, reasons, warnings and target no decision may carry |
| DecisionLaws.ProhibitedIffFragment | backend/app/decision/service.py:353-368 | a key is prohibited iff in small letters it contains one of the eight fragments |
| TextLaws.ContainsIff | backend/app/decision/service.py:353-368 | a fragment is contained iff it stands at some position |
| DecisionLaws.SanitizingKeepsOtherKeys | backend/app/decision/service.py:433-441 | sanitizing keeps every field whose key is not prohibited, in order |
| DecisionRedaction.SecretKeysAreStored | backend/app/decision/service.py:433-441 | a key that is not prohibited is stored as it is, whatever secret it holds |
| DecisionOutput.FailureMeansReject | backend/app/decision/service.py:370-380 | an error code always comes with a schema-valid rejection of zero confidence; without one the answer was admissible |
| DecisionOutput.ShadowDowngrade | backend/app/decision/service.py:336-342 | in live shadow an eligible answer over an incomplete context becomes a watch with all warnings once each, and raises iff they exceed twenty |
| DecisionOutput.RaisesOnlyInShadow | backend/app/decision/service.py:383-393 | nothing else raises |
| DecisionStore.RecordKeepsConsistency | backend/app/decision/repository.py:101-148 | recording keeps keys unique, runs and recommendations paired, and failed runs rejected, and changes no existing row |
| DecisionStore.RecordStoresKey | backend/app/decision/repository.py:137-148 | after a keyed recording the key is stored at the row returned, old or new |
| DecisionStore.EntryIsSound | backend/app/decision/service.py:160-204 | what an evaluation records is keyed unless forced, and rejects whenever it carries an error code |
| DecisionLaws.EntryTellsWhatHappened | backend/app/decision/service.py:160-204 | what is recorded for missing or invalid features, an adapter failure, a crash and an answer |
| DecisionLaws.RecordingAddsEntry | backend/app/decision/repository.py:84-154 | the run and the recommendation a recording adds, numbered and linked |
| DecisionLaws.EvaluationDecides | backend/app/decision/service.py:118-204 | the refusals in their order, the stored answer, the new record, or the exception |
| DecisionLaws.KeysAgreeIff | backend/app/decision/service.py:144-158 | two evaluations share a key iff signal id and key, adapter, model, prompt version and mode agree |
| DecisionStore.EvaluationIsIdempotent | backend/app/decision/service.py:144-158 | evaluating again unforced returns the stored recommendation and changes nothing, whatever the adapter would answer |
| DecisionEngine.DecisionRepository.FindByEvaluationKey | backend/app/decision/repository.py:76-82 | finds the stored recommendation of a key, if any |
| DecisionEngine.DecisionRepository.RecordDecision | backend/app/decision/repository.py:84-154 | both rows are added, or, when the key is taken, neither, and the existing row is returned |
| DecisionEngine.DecisionService.Evaluate | backend/app/decision/service.py:118-204 | the method does what the evaluation function says, keeps the store consistent, and asks the adapter only for a candidate whose key is not stored |
| DecisionConcurrency.KeysAreUnique | backend/app/decision/repository.py:137-148 | under every interleaving, within and across instances, at most one recommendation per key, and every failed run rejects |
| DecisionConcurrency.EvaluationsAgree | backend/app/decision/service.py:135-158 | all unforced evaluations of a key return the same recommendation and at most one of them created it |
| DecisionConcurrency.InstanceCallsOnce | backend/app/decision/service.py:135-142 | of two unforced evaluations of a key on one instance that succeeded, one was served from the store |
| DecisionConcurrency.StoredKeyIsNotAskedAgain | backend/app/decision/service.py:153-168 | with one instance no evaluation is past its lookup while its key is stored |
| DecisionConcurrency.AloneIsOneEvaluation | backend/app/decision/service.py:144-204 | a task that runs alone is one locked evaluation |
| DecisionDrain.RoundBatchIsPending | backend/app/decision/repository.py:207-239 | a batch holds unevaluated candidates, each once, in the requested order |
| DecisionLaws.BatchTakesFirst | backend/app/decision/repository.py:207-239 | a batch holds the first pending candidates of the window and symbols, by creation time and id; one left out means the limit is reached and comes later |
| DecisionDrain.BatchEvaluates | backend/app/decision/automation.py:125-171 | a batch creates one record for exactly those candidates whose evaluation does not raise, finds none existing, and the pending count falls by as many |
| DecisionLaws.BatchCountsFailures | backend/app/decision/automation.py:125-171 | a batch reports as failed exactly the evaluations that raise or record an error code |
| DecisionDrain.RoundCreates | backend/app/decision/automation.py:91-102 | whatever is answered, none existed and candidates fall by the records created, which number min(limit, remaining) iff no evaluation of the batch raises |
| DecisionDrain.RoundsAccount | backend/app/decision/automation.py:91-171 | over any number of rounds, each with its own answers, candidates disappear exactly as records are created |
| DecisionDrain.DrainFinishes | backend/app/decision/automation.py:91-171 | when no evaluation of any round raises, nothing remains after n rounds iff n * limit covers the candidates there were |
| DecisionAutomation.DecisionAutomationService.EvaluateCandidates | backend/app/decision/automation.py:104-171 | the loop's counters and store are those of the batch, and truncated is reported iff more candidates were pending than the limit |
| DecisionAutomation.DecisionAutomationService.EvaluateLatest | backend/app/decision/automation.py:91-102 | one bounded round, newest first, or a refusal that changes nothing |
| DecisionAutomation.DecisionAutomationService.EvaluateScannerBatch | backend/app/decision/automation.py:63-89 | skipped for the first applicable reason with nothing stored, else one bounded batch, oldest first |
| DecisionLaws.RoundIsBounded | backend/app/decision/automation.py:91-102 | the bound is the setting within one and fifty, and a manual round takes what was asked for within one and that bound |
| DecisionLaws.SkipNamesFirstReason | backend/app/decision/automation.py:225-236 | an automatic run is skipped for the first of five reasons |
| UniversePool.KeyParsesToItself | backend/app/universe/validation.py:39-46 | normalizing is idempotent: a key parses to its own exchange and name |
| UniverseLaws.EntryIffOneColon | backend/app/universe/validation.py:40-46 | an entry is read iff it is two texts around a single colon, as both stripped and in capitals, neither empty |
| UniverseLaws.PlainIffCapitalsAndDigits | backend/app/universe/validation.py:13 | a name is plain iff it is nonempty and all capitals and digits |
| UniverseLaws.KeyKinds | backend/app/universe/validation.py:46-51 | which entries are of another exchange and which have special characters |
| TextLaws.CasesSwapAlphabets | backend/app/universe/validation.py:41-44 | capitals and small letters swap the two alphabets and touch nothing else |
| TextLaws.BlanksAreSpaces | backend/app/universe/validation.py:41-44 | which characters stripping removes |
| TextLaws.StripTakesBlanks | backend/app/universe/validation.py:41-44 | stripping takes only blanks off the two ends, and leaves none there |
| UniversePool.Validate | backend/app/universe/validation.py:29-128 | the parsing loop, the lists built from it, the over-limit flag and the error and warning lists are the specified report |
| UniversePool.ErrorsAreExact | backend/app/universe/validation.py:29-128 | an error is reported iff loading reported it or its condition holds, and none twice |
| UniverseLaws.ErrorsInOrder | backend/app/universe/validation.py:62-110 | the errors in their order, each with its condition |
| UniverseLaws.ListsAreSorted | backend/app/universe/validation.py:86-106 | the lists are sorted, and the duplicates are the keys met more than once |
| UniversePool.ClassificationIsExact | backend/app/universe/validation.py:76-106 | every list holds exactly the keys it is named after |
| UniverseSelection.ValidationExclusions | backend/app/universe/service.py:210-234 | collecting reasons in a dict yields the excluded symbols in order with all their reasons |
| UniverseLaws.ReasonsNameLists | backend/app/universe/service.py:210-234 | each list a symbol is on gives its own reason, in order |
| UniverseSelection.UniverseSelectionService.Select | backend/app/universe/service.py:58-163 | with the timeframe defaulted and the stale policy stripped and lower-cased: a refusal for the first invalid setting, else the specified run with its counts, errors and warnings, saved iff storing is on and it is no dry run |
| UniverseLaws.RefusalNamesFirstProblem | backend/app/universe/service.py:72-87 | the five problems of a request, in order, with zero and empty values standing for the configured ones |
| UniverseLaws.BestScoresAreSelected | backend/app/universe/service.py:127-133 | by the market's own scores: no symbol left out scores more than a selected one, nor as much with an earlier text; one is left out only when the limit is reached |
| UniverseLaws.RunReportsPool | backend/app/universe/service.py:134-163 | the counts, errors and warnings of a returned run; excluded symbols only where asked for |
| TextLaws.TextLeIff | backend/app/universe/service.py:127-130 | text order: a beginning comes first, else the first difference decides |
| Ordering.SortIsStable | backend/app/universe/service.py:127-130 | sorting keeps the order of elements that tie |
| UniverseSelection.EntriesLandOnce | backend/app/universe/service.py:103-133 | every distinct entry lands once among ranked and excluded, twice exactly when it is a known NSE symbol, special or inactive, that the settings let pass; nothing else lands |
| UniverseSelection.BothFlagsLandOnce | backend/app/universe/validation.py:76-106 | with both exclusion rules on every distinct entry lands exactly once |
| UniverseSelection.InactiveLandsTwice | backend/app/universe/service.py:211-222 | without the active rule an inactive instrument lands twice |
| UniverseSelection.RanksFollowOrder | backend/app/universe/service.py:127-132 | ranks are 1..n, no total rises from one rank to the next and equal totals are in text order, and the selection is the first N |
| UniverseSelection.SelectionIgnoresArrangement | backend/app/universe/service.py:103-132 | rearranging or repeating pool entries changes neither ranking nor selection |
| Pipeline.BuiltCandlesAreUsable | backend/app/market_data/candle_builder.py:63-127 | an orderly feed yields well-formed, strictly ordered, whole-minute candles |
| Pipeline.FeedContinuesTradesStay | backend/app/paper/simulator.py:103-176 | while a feed goes on, a stopped, targeted or flattened trade stays as simulated and a fill keeps its time and price |
| Pipeline.BuiltCandlesBoundLoss | backend/app/paper/simulator.py:134-176 | on built candles a trade loses more than planned only by a forced close below its stop |
| Pipeline.BreakoutOnBuiltCandles | backend/app/scanners/strategies.py:88-102 | a breakout candidate on built candles, at any point of the feed, starts in its window and closes above every opening minute |

## Left out

- Routes, dependency wiring, command line, migrations and deployment: plumbing without a hard property.
- The broker clients, token cipher, state store, notifier and prompt text; the language model is an arbitrary answer, failure or exception.
- SQL queries: the in-memory repositories are modelled, with the unique trade per signal, the unique evaluation key, atomic rollback and the identity-aware listing taken from the SQL side; its additional entry-submitted order event is not modelled.
- The external-fact text pattern and the schema parser: parameters of the validation, the parser constrained to the schema's limits.
- Scoring formulas of the universe: an opaque score that depends on the symbol and its active flag.
- `run_batch`, `run_once` and the live staleness check of the scanner: sums of per-symbol counts, easy members.
- Veto counters of a scanner run, the future-live qualification map, event payloads, `last_error` and status snapshots: records of what was decided, not decisions.
- Loading the pool file: its entries, errors and warnings are inputs. Warnings of a scored symbol belong to its opaque score.
- Per-signal result rows and notifications of a decision batch.
- Parsing of configuration strings and pool files; settings arrive parsed. Text is ASCII: no Unicode case folding.
- The 28-digit decimal context and overflow: arithmetic between roundings is exact.
- Time zones with daylight saving: the scheduler's zone is a fixed offset, and session times are IST.
- Liveness of the scheduler: the loop sleeps and one-shot minutes take precedence, so slots may be skipped by design.
- Ids drawn from database sequences: rows are numbered by table length.
- DecisionRedaction.RedactionIsCompleteIff: several secrets that overlap the mark at an end or contain it are not covered together, only each alone by `DecisionRedaction.OneSecretIsGoneIff`; an object key that holds a secret is stored as it is.
- DecisionConcurrency.InstanceCallsOnce: speaks of evaluations that returned; an evaluation that raised stores nothing and may be repeated.
