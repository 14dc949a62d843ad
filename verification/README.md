# Verified model of the trading system's core

This project models the parts of the trading system whose correctness does not depend on a
network or a database, and proves what they promise over every input and every run.

* `Backtest`, `BacktestTrades`, `BacktestRuns`, `BacktestReaders`, `BacktestAudit`: the candle
  execution engine with its moving stop, cooldown, daily PnL and equity curve; the life of one
  trade, conservation, causality derived from what a strategy reads, spacing of trades, agreement
  with the independent reference arithmetic, and a worst-case loss per trade. `RiskApproval` is the risk
  manager it asks, `HistoryView` the prefix view its strategies read, `Metrics` the one-pass
  drawdown and streaks.
* `Ledger`, `Collector`, `CollectorEngine`: the prospective collector. `Ledger` is the repository
  with its unique keys, one method per transaction. `Collector` is the protocol as a state machine
  that may crash between any two commits. `CollectorEngine` holds the live engine and the downtime
  recovery as they run, each shown to perform only protocol steps. `Lease` is the collector lease.
* `PromptSplitter`: the lossless splitter of large JSON prompts.
* `CallRate`: the persistent cadence of paid market-discovery calls.
* `Execution`: autonomous order execution against an arbitrary gateway, and the scan that spends
  position slots. `RiskBudget` is the daily risk budget, native stop management, and order levels
  and size. `Portfolio` is the global portfolio risk manager.
* `RollingWindows`, `CandleCache`, `Pagination`: fast forms that refine simple ones.

Code that changes state step by step is a class or a loop proved against a specification
function; the theorems are about those functions, so they hold of every call and every run.
`Decimal` and `float` are exact reals, with the explicit quantize, floor and ceiling steps
written out. Each repository method is one atomic transaction, and hashes are injective, so that
a key stands for its hash. Strategies, exchanges, data providers and clocks are parameters.

## What turned out otherwise

The model follows the code in these places, where the code and its promise part ways.

* The history view resolves slice bounds against the prefix and then slices the whole list with
  them, so a bound of -1 is read again as "last element". `view[::-1]` is empty, and a negative
  step that starts before the first candle returns candles that have not closed.
  `HistoryView.SliceIsPrefixSlice`, `HistoryView.SliceLeaksExactly` and
  `HistoryView.SliceHidesFutureExactly` say exactly when. A run is causal when none of its
  strategy's reads leaks (`BacktestReaders.RunsOfReadersAreCausal`), and
  `BacktestReaders.LeakBreaksCausality` is a run in which one does.
* The prompt splitter refuses a prompt exactly when no legal partition exists or exactly 32768
  characters follow the last structural character (`PromptSplitter.SplittableExactly`).
  `PromptSplitter.PaddedArrayIsRefused` is such a prompt.
* Cancellation passes every `except Exception` of the autonomous executor. When the task is
  cancelled while protection is installed or verified, or during the emergency close, `execute`
  ends with a confirmed fill that is bare while the kill switch is off
  (`Execution.CancelledInstallLeavesBareFill`). An execution is safe if and only if that does not
  happen (`Execution.ExecutionIsSafe`). A cancellation while the order is being submitted leaves it
  SUBMITTING, its outcome unknown, with the kill switch off.
* A `ControlledLiveBlocked` raised after a fill, by the reconciliation snapshot or the notifier, is
  handled like a refusal before submission, so the slot is not spent and fills can exceed the free
  slots (`Execution.LateBlocksExceedSlots`). `Execution.SlotsHoldExactly` gives the candidate lists
  for which they never can. Neither the Bybit snapshot nor the notifier that ship with the system
  raises it: the snapshot only reads, and the notifier only sends a message.
* A fetch through the candle cache with a start that is not on the bar grid downloads the bar the
  start falls in again every time (`CandleCache.SecondFetchIsFree`).
* In the engine the consecutive-loss limit never changes a run, because the loss counter it passes
  on is zero whenever no cooldown is active (`BacktestRuns.LossLimitIsInert`).
* A stop moved past entry makes the daily budget treat the position as unprotected, and every new
  entry is refused until it closes (`RiskBudget.LockedProfitBlocksAdmission`).

## Model

| member | source | states |
|---|---|---|
| RiskApproval.ApprovedExactly | app/risk/manager.py:9-47 | a trade is approved if and only if it passes every gate and a size of one millionth fits the risk, notional, leverage and balance caps |
| RiskApproval.ApprovedSize | app/risk/manager.py:27-47 | an approved size fits all four caps while one millionth more breaks one, and the risk amount is at most half a cent over the configured share of equity |
| RiskApproval.TruncatedSizeIsLargest | app/risk/manager.py:33-44 | truncating the smallest quotient gives the largest multiple of one millionth that the caps allow |
| RiskApproval.FitsIsBelowLargest | app/risk/manager.py:33-43 | a quantity respects every cap exactly when it does not exceed the smallest of the four quotients |
| RiskApproval.LossCounterMatters | app/risk/manager.py:16-19 | with a zero counter or an active cooldown, the consecutive-loss limit never decides between approval and refusal |
| HistoryView.GetSeesPrefixOnly | app/backtest/core.py:302-309 | indexing the view equals indexing the closed prefix, and succeeds exactly for indices of that prefix |
| HistoryView.SliceIsPrefixSlice | app/backtest/core.py:302-305 | a slice of the view equals the slice of the closed prefix if and only if its step is positive or its resolved bounds survive a second resolution |
| HistoryView.ForwardSlicesHideFuture | app/backtest/core.py:302-305 | two views with the same closed candles give the same result for every slice with a positive step |
| HistoryView.SliceLeaksExactly | app/backtest/core.py:302-305 | a slice reads a candle that has not closed if and only if its step is negative, its start lies before the first candle and its stop does not |
| HistoryView.HiddenSlices | app/backtest/core.py:302-305 | a slice that does not leak, negative steps included, reads the same from the view and from the closed candles alone |
| HistoryView.SliceHidesFutureExactly | app/backtest/core.py:302-305 | a slice gives one answer whatever candles follow if and only if it has no negative step from before the first candle to a stop that is not |
| HistoryView.ReversedViewExamples | app/backtest/core.py:302-305 | concrete inputs: the reversed view is empty, and one slice returns future candles |
| Backtest.ValidateCandles | app/backtest/core.py:106-123 | the reported errors are exactly the violations present, so no error means sound, strictly increasing, evenly spaced candles |
| Backtest.LivePosition.AdvanceProtection | app/backtest/core.py:269-289 | the trade record is updated to the watermarks, break-even and trailing stop of the specification |
| Backtest.Books.Book | app/backtest/core.py:235-246 | closing adds exactly the settlement's PnL to the balance and its trade to the list, and clears the position |
| Backtest.Books.Exit | app/backtest/core.py:174-182 | the exit half of a candle: settlement with daily PnL, loss counter and last-loss time, or else advanced protection |
| Backtest.Books.Enter | app/backtest/core.py:183-201 | the entry half of a candle: risk approval, then sizing at the actual fill; nothing but the open position changes |
| Backtest.Books.Mark | app/backtest/core.py:202-206 | marking to the close extends the curve and the points and changes no balance |
| Backtest.Books.CloseOut | app/backtest/core.py:207-212 | a trade left open is closed at the last close and the last curve entry is overwritten |
| Backtest.Run | app/backtest/core.py:160-214 | the candle loop computes the report of the specified final state, with the same refusals |
| BacktestRuns.EveryStateOk | app/backtest/core.py:171-206 | after every candle of every run: balance is start plus closed PnL, daily sums and the loss counter agree with the trades, no last-loss time is recorded exactly when the counter is zero, entries obey their limits, stops only tightened |
| BacktestRuns.StepKeeps | app/backtest/core.py:171-206 | one candle keeps all of that, whatever the strategy answers |
| BacktestRuns.RunConserves | app/backtest/core.py:171-214 | final equity is the starting balance plus the PnL of all trades, and realized PnL at every point is the PnL of the trades closed by then |
| BacktestRuns.RunTradesOk | app/backtest/core.py:183-211 | every trade is the settlement, at the level its reason names, of an entry that obeyed its risk, notional, leverage, reward, daily-loss and cooldown limits |
| BacktestRuns.EntryIsOk | app/backtest/core.py:183-201 | an opened trade obeys those limits at its actual fill |
| BacktestRuns.TradesAreSpaced | app/backtest/core.py:170-191 | reported trades never overlap, a loss is followed by at least the cooldown, and no entry happens once the day has used up its loss limit |
| BacktestRuns.SameDecisionsSameRun | app/backtest/core.py:171-206 | two candle lists that agree on the first k candles and draw the same decisions from them leave the engine in the same state after k candles |
| BacktestRuns.RunsAreCausal | app/backtest/core.py:171-206 | so they do for every strategy that depends on closed candles only, whatever follows |
| BacktestReaders.DiscreetIsCausal | app/backtest/core.py:292-315 | a strategy whose reads of its view (length, items, slices, concatenation, each chosen from the answers so far) never leak depends on closed candles only |
| BacktestReaders.ForwardReadersAreCausal | app/backtest/core.py:292-315 | so does every strategy that takes no slice with a negative step |
| BacktestReaders.RunsOfReadersAreCausal | app/backtest/core.py:160-206 | causality of a run derived from its reads: when none of them leaks, the states after k common candles agree |
| BacktestReaders.LeakBreaksCausality | app/backtest/core.py:160-206 | concrete input: with one leaking read, the states after one common candle differ |
| BacktestRuns.LossLimitIsInert | app/backtest/core.py:186-189 | any two positive consecutive-loss limits give identical runs |
| BacktestTrades.OpensExactly | app/backtest/core.py:183-201 | an action opens a trade if and only if it is approved, fills at a positive price away from its stop and one millionth fits there; the size opened is the largest that fits |
| BacktestTrades.ProtectionInClosedForm | app/backtest/core.py:269-289 | moving the stop candle by candle gives the tightest of the initial stop, break-even once the best price has gained one unit of risk, and the trailing distance behind the best price |
| BacktestTrades.OpenTradeIsHeldSince | app/backtest/core.py:171-201 | in every run an open trade carries exactly the protection of the candles since the one it was opened on |
| BacktestTrades.HeldUntilReached | app/trading/positions.py:26-41 | a held trade is closed by a candle if and only if the candle trades at its stop or its target, at the stop whenever that is reached |
| BacktestTrades.MarkIsCloseBeforeExitCosts | app/backtest/core.py:248-253 | marking a trade equals closing it there, before the costs of leaving |
| BacktestAudit.CloseMatchesReference | app/backtest/audit.py:40-73 | a market settlement equals the reference trade in every field, and before costs earns exactly the reference price move |
| BacktestAudit.SettlementCount | app/backtest/core.py:255-267 | the interval multiples in (opened, exit] number the difference of two floor divisions |
| BacktestAudit.FundingCountsSettlements | app/backtest/core.py:255-267 | funding is charged once per interval multiple in (opened, exit], a long paying a positive rate and a short receiving it |
| BacktestAudit.MarketTradesMatchReference | app/backtest/audit.py:40-73 | every market trade of every run equals the reference trade at its exit price in every field, with exactly the due funding |
| BacktestAudit.SettlementBounded | app/backtest/core.py:227-246 | a settlement at or beyond the initial stop loses at most risk, exit costs at that stop, entry fee and funding |
| BacktestAudit.MarketLossesAreBounded | app/backtest/core.py:183-211 | no market trade of any run loses more than that, and its risk and notional were within the configured caps |
| BacktestAudit.MarketFillBeyondStop | app/backtest/core.py:223-225 | a market entry fills on the far side of its reference from the stop |
| Metrics.Drawdown | app/backtest/core.py:318-323 | the one-pass drawdown is the largest fall over all pairs of points, starting balance included; on positive curves so is the relative one |
| Metrics.ShadowDrawdown | app/shadow/repository.py:787-799 | the collector's drawdown is the largest fall of the realized equity walk |
| Metrics.Streaks | app/backtest/core.py:341-345 | the one-pass streaks are the longest all-winning and all-losing contiguous runs |
| Metrics.ExtendFall | app/backtest/core.py:321-322 | one more point extends the largest fall by the fall from the running peak |
| Metrics.ExtendFallPct | app/backtest/core.py:321-323 | the same for the relative fall on positive curves |
| Metrics.ExtendRun | app/backtest/core.py:341-345 | one more trade extends or ends the current run and the best run accordingly |
| PromptSplitter.SplitAtBoundaries | app/ai/service.py:60-79 | the pass yields a partition cut only after structural characters outside strings, with the fewest parts of all it can reach, and fails exactly when it can reach none |
| PromptSplitter.PromptContent | app/ai/service.py:47-84 | short prompts stay whole; a long one is split exactly when it parses and some reachable partition has at most 100 parts |
| PromptSplitter.PartsAreThePrompt | app/ai/service.py:47-84 | the parts concatenate to the prompt, and each is non-empty and at most 32768 characters |
| PromptSplitter.JoiningKeepsTokens | app/ai/service.py:50-53 | joining the parts with newlines leaves the JSON token sequence of section 2 of RFC 8259 unchanged |
| PromptSplitter.WindowHasBoundary | app/ai/service.py:73-77 | greedy stays ahead: whenever a reachable partition exists, one of its cuts lies in the current window |
| PromptSplitter.SplittableExactly | app/ai/service.py:73-77 | a long prompt is splittable by the pass if and only if a legal partition exists and its tail is not exactly one full part |
| PromptSplitter.GreedyIsNearlyOptimal | app/ai/service.py:60-79 | the pass uses at most one part more than any legal partition, and none more when the prompt ends in a structural character |
| PromptSplitter.PaddedArrayIsRefused | app/ai/service.py:73-75 | a concrete prompt with a legal partition that the pass refuses |
| CallRate.EligibleOrderMeetsMinimums | app/ai/market_discovery.py:387-422 | an eligible market's smallest order meets both exchange minimums within the 15 USDT cap |
| CallRate.ScoreInRange | app/ai/market_discovery.py:429-466 | every eligible market scores between 2.5 and 100 |
| CallRate.MarketDiscoveryRepository.Initialize | app/ai/market_discovery.py:131-151 | a restart keeps the stored cadence and creates it only when missing |
| CallRate.MarketDiscoveryRepository.ClaimLocalSlot | app/ai/market_discovery.py:153-164 | a slot is granted exactly when it is later than the stored one, and only then stored |
| CallRate.MarketDiscoveryRepository.ClaimHermes | app/ai/market_discovery.py:183-211 | a call is granted exactly after the minimum interval or for a strong event with other candidates, and only then stored |
| CallRate.ChainIsBounded | app/ai/market_discovery.py:195-204 | at most twenty strong calls follow one another, because each multiplies a score that stays within [2.5, 100] |
| CallRate.CallsPerStart | app/ai/market_discovery.py:183-211 | at most 21 calls per chain start, and starts lie a full interval apart |
| CallRate.CallRateBound | app/ai/market_discovery.py:183-211 | over any monotone sequence of scans, restarts included, calls in elapsed time T number at most 21 * (floor(T / 30 min) + 1) |
| CallRate.RisingScansAreGranted | app/ai/market_discovery.py:183-211 | `claim_hermes` grants each of the first 21 scans of a concrete rising market with four-decimal scores |
| CallRate.BoundIsReached | app/ai/market_discovery.py:183-211 | the bound is tight for `claim_hermes` alone: 21 calls can fall within one interval when no slots keep the scans apart |
| CallRate.RunCycle | app/ai/market_discovery.py:497-530 | one cycle claims its slot, then scans, then claims the call, as the specification does |
| CallRate.SlotsIncrease | app/ai/market_discovery.py:153-164 | claimed slots strictly increase over any sequence of cycles, and every call used up a slot of its own |
| CallRate.OneCallPerSlot | app/ai/market_discovery.py:497-530 | calls number at most one per five minutes of scheduled time |
| CallRate.ServiceCallBound | app/ai/market_discovery.py:497-536 | chains and slots together: 25 times the calls is at most 21 times five more than the slots between the first and the last call |
| Ledger.ShadowRepository.SaveQuote | app/shadow/repository.py:50-70 | a quote is added, nothing else changes |
| Ledger.ShadowRepository.SaveCandle | app/shadow/repository.py:72-102 | a candle is stored exactly when its key is free; a stored one is never rewritten |
| Ledger.ShadowRepository.RecordRecoveredCandle | app/shadow/repository.py:104-185 | a recovered candle and its suppressed decision are written together or not at all |
| Ledger.ShadowRepository.LastCandleOpen | app/shadow/repository.py:187-196 | the latest stored open time of a pair, or none exactly when the pair has no candle |
| Ledger.ShadowRepository.ProspectiveCandles | app/shadow/repository.py:198-211 | exactly the stored candles of a pair, oldest first |
| Ledger.ShadowRepository.RecordDecision | app/shadow/repository.py:213-235 | decision, trade and first-trade event commit together, the event exactly for the first trade; a taken key rolls back |
| Ledger.ShadowRepository.RepairOrphanDecisions | app/shadow/repository.py:237-301 | exactly the undecided candles get a WAIT, and the count of them is returned |
| Ledger.ShadowRepository.InterruptedDecisions | app/shadow/repository.py:248-296 | the rows written by the repair: one WAIT per undecided candle, marked by whether a quote had been saved |
| Ledger.ShadowRepository.OpenTrade | app/shadow/repository.py:303-315 | an open trade of the pair is found exactly when there is one |
| Ledger.ShadowRepository.CloseTrade | app/shadow/repository.py:337-365 | only an open trade closes, with its event; anything else changes nothing |
| Ledger.AscendingIsUnique | app/shadow/repository.py:198-211 | the ordered query has one possible answer |
| Collector.StepKeeps | app/shadow/repository.py:72-301 | every protocol step, a crash included, keeps the ledger invariant |
| Collector.RunsKeep | app/shadow/repository.py:72-301 | the invariant holds throughout every run, wherever it crashes |
| Collector.RunsExtend | app/shadow/repository.py:72-365 | rows are never rewritten or lost, and a trade only goes from open to closed |
| Collector.PassedCandlesNeverTrade | app/shadow/repository.py:104-185 | recovered, orphaned and already decided candles never gain a trade later |
| Collector.LedgerOverEveryRun | app/shadow/engine.py:109-198 | over every run: a trade exists only for a live, allowed signal, at most one is open per pair, the first trade is announced exactly once and each close once |
| Collector.RepairDecidesEverything | app/shadow/repository.py:237-301 | after a repair every candle has its decision, old decisions stand, and orphans have no trade |
| Collector.NextOpenIsNew | app/shadow/engine.py:112-121 | the next candle to fetch is new, one hour after the last one or at the lock hour |
| Collector.NoGaps | app/shadow/recovery.py:27-49 | the stored opens of a pair are exactly the hours from the lock hour to the last one, each closed when observed |
| Collector.MemoryAgreesWithDatabase | app/shadow/engine.py:63-74 | during every cycle the in-memory history is the warm-up followed by the stored candles |
| CollectorEngine.ProspectiveShadowEngine.constructor | app/shadow/engine.py:46-74 | the rebuilt history is the warm-up followed by the stored candles, oldest first |
| CollectorEngine.ProspectiveShadowEngine.ProcessCandles | app/shadow/engine.py:109-139 | a live pass is a run of protocol steps that commits only offered candles and decides each by judging the history that ends with it; unless something raised, the pair is caught up to the hour |
| CollectorEngine.ProspectiveShadowEngine.CommitCandle | app/shadow/engine.py:119-138 | a due candle is stored and appended to the history, which is the commit step of the protocol |
| CollectorEngine.ProspectiveShadowEngine.TakeCandle | app/shadow/engine.py:123-139 | one due candle is committed and then decided, or left undecided when judging it raises; the pair advances by one hour, and the pass goes on exactly when neither the judgement nor the announcement of a stored trade raised |
| CollectorEngine.ProspectiveShadowEngine.DecideCandle | app/shadow/engine.py:141-189 | the decision written is the verdict's: no signal is WAIT, an open trade or a refused order is REJECT, otherwise ALLOW with its trade, which stays stored when announcing it raises |
| CollectorEngine.OthersLeavePair | app/shadow/engine.py:79-101 | whatever other exchanges do between two candles of a live pass, the pass finds its pair as it left it, with the ledger invariant intact |
| CollectorEngine.RecoverPair | app/shadow/recovery.py:20-57 | recovery of one pair is a run of recovery steps over candles the venue answered with, up to the last closed hour |
| CollectorEngine.RecoverAfterDowntime | app/shadow/recovery.py:8-67 | the whole recovery is such a run, counts the candles it added in all and for each exchange, and leaves every pair that raised nothing caught up |
| CollectorEngine.RecoverOne | app/shadow/recovery.py:38-49 | one recovered candle is one recovery step and never collides with a stored row |
| CollectorEngine.CaughtUpStays | app/shadow/recovery.py:20-57 | a pair once caught up stays so |
| Lease.CollectorLease.Acquire | app/shadow/repository.py:526-578 | the lease is granted exactly when free, already owned or expired, counting restarts and clearing the recorded flags |
| Lease.CollectorLease.RecordRuntime | app/shadow/repository.py:580-619 | only the owner records its switches, and real orders are reported enabled exactly when all four allow it |
| Lease.CollectorLease.Heartbeat | app/shadow/repository.py:621-639 | only the owner extends the lease |
| Lease.CollectorLease.Release | app/shadow/repository.py:641-651 | only the owner ends the lease, at once |
| Lease.RunKeeps | app/shadow/repository.py:526-651 | over every monotone run, an unexpired belief is the row's own grant |
| Lease.MutualExclusion | app/shadow/repository.py:526-578 | no two processes ever hold unexpired grants |
| Lease.TakeoverEndsOtherGrants | app/shadow/repository.py:545-560 | another process takes over only once the previous grant has expired or been released |
| Lease.LostUntilReacquired | app/shadow/repository.py:621-639 | a process that lost the lease is shut out until it acquires again |
| Lease.RowDescribesOwner | app/shadow/repository.py:545-619 | restarts are successful acquisitions minus one, and a recorded real-order flag comes from the present owner's own switches |
| Execution.ExecutionService.ClaimSubmission | app/trading/controlled_live.py:658-700 | an order is reserved exactly when its approved AI proposal matches, the state row and the stored profile and selection hashes check out, the kill switch is off and its id is new |
| Execution.ExecutionService.Execute | app/ai/live_trader.py:1025-1045 | claim, submit and guard the fill, for every gateway behaviour, cancellation of each call included |
| Execution.ExecutionService.Guard | app/ai/live_trader.py:1050-1092 | from a confirmed fill on: protect or close it, then reconcile, with the handlers a cancellation passes |
| Execution.ExecutionIsSafe | app/ai/live_trader.py:1025-1092 | every confirmed fill ends verified protected, confirmed closed or covered by the kill switch if and only if the task is not cancelled while a filled order is being protected or emergency-closed; the stored status tells what happened, and success means protected |
| Execution.CancelledInstallLeavesBareFill | app/ai/live_trader.py:1051-1067 | a concrete gateway: cancelled during installation, the fill is bare, its status FILLED_UNPROTECTED and the kill switch off |
| Execution.EveryRunIsSafe | app/ai/live_trader.py:1025-1092 | a sequence of executions ends safe if and only if none was cut short by such a cancellation or the kill switch has been set |
| Execution.SafeThroughout | app/ai/live_trader.py:1025-1092 | it is safe after every execution if and only if none was cut short |
| Execution.ExecuteCandidates | app/ai/live_trader.py:1156-1251 | the scan loop gives the specified dispositions, slots and open symbols |
| Execution.BlockedFillsAreLate | app/ai/live_trader.py:1197-1251 | a fill leaves its slot unspent with the scan going on if and only if ControlledLiveBlocked was raised after it |
| Execution.SlotsAreExact | app/ai/live_trader.py:1156-1251 | the fills of a scan are the slots it spent plus its unspent fills, so they stay within the free slots if and only if the unspent fills are no more than the slots left |
| Execution.SlotsHoldExactly | app/ai/live_trader.py:1156-1251 | distinct candidates can never be filled beyond the slots, whatever the stored state, if and only if none that is blocked after its fill is followed by one that would be filled |
| Execution.NoLateBlockNeverExceeds | app/ai/live_trader.py:1156-1251 | in particular never when no candidate is blocked after its fill |
| Execution.FillsWithinSlots | app/ai/live_trader.py:1156-1251 | in any case fills number at most the free slots plus the late blocks |
| Execution.FillsHitNewSymbols | app/ai/live_trader.py:1179-1196 | fills never hit a symbol that was open, and none twice |
| Execution.NothingAfterFailure | app/ai/live_trader.py:1236-1251 | a failed-closed candidate, or one at which the scan is cancelled, is the last one looked at |
| Execution.LateBlocksExceedSlots | app/ai/live_trader.py:1225-1251 | a concrete gateway with which two fills use one slot |
| RiskBudget.OpenPositionsPlannedRisk | app/exchanges/bybit_v5_gateway.py:1483-1516 | the total planned risk, or a refusal exactly when some open position lacks valid native protection |
| RiskBudget.AuthorizeEntry | app/exchanges/bybit_v5_gateway.py:402-434 | the budget clause of the guard passes exactly when realized loss, open planned risk and the entry's own planned loss fit under the daily cap |
| RiskBudget.TighteningLowersRisk | app/exchanges/bybit_v5_gateway.py:1509-1514 | moving a stop toward profit lowers the loss at the stop, and the planned risk while the stop stays on the losing side |
| RiskBudget.NativeProtection.Manage | app/exchanges/bybit_v5_gateway.py:1184-1226 | only a strictly tighter stop is sent, together with the live take-profit; confirmation needs the read-back |
| RiskBudget.StopsOnlyTighten | app/exchanges/bybit_v5_gateway.py:1184-1226 | over any sequence of updates and reactions stops only move toward profit and the take-profit stays; confirmed ones strictly tighten |
| RiskBudget.EventKeepsBudget | app/exchanges/bybit_v5_gateway.py:402-434 | an admission, a close at no more than the planned loss, a tightening or a new day keeps the budget |
| RiskBudget.BudgetHoldsOverRuns | app/exchanges/bybit_v5_gateway.py:402-434 | over every such run realized loss plus open risk stays within the daily cap |
| RiskBudget.LockedProfitBlocksAdmission | app/exchanges/bybit_v5_gateway.py:1496-1508 | a stop past entry makes every admission fail |
| RiskBudget.LevelsMoveOutward | app/ai/live_trader.py:883-908 | accepted levels are the requested ones moved outward by less than a tick, on opposite sides of entry and within the distance bounds |
| RiskBudget.ClearLevelsAreAccepted | app/ai/live_trader.py:883-908 | ordered levels that keep a tick clear of both distance bounds are accepted |
| RiskBudget.OrderIsLargestWithinNotional | app/ai/live_trader.py:781-788 | the quantity is the largest whole number of steps within the fixed notional |
| Portfolio.CorrelatedExposure | app/risk/portfolio.py:92-99 | the loop's total is the exposure of the proposal's correlation group with the proposal |
| Portfolio.PortfolioManager.Add | app/exchanges/portfolio.py:41-45 | a new key is appended, a taken one refused without change |
| Portfolio.PortfolioManager.Remove | app/exchanges/portfolio.py:47-48 | exactly the named position leaves, the others keep their order |
| Portfolio.ApprovedExactly | app/risk/portfolio.py:50-90 | a proposal is allowed if and only if it is eligible and every sum it weighs in on stays within its limit |
| Portfolio.ApprovalCovers | app/risk/portfolio.py:50-90 | approval bounds every sum the proposal weighs in on |
| Portfolio.ApprovedAddKeepsLimits | app/risk/portfolio.py:50-90 | adding a position that fulfils an approved proposal keeps every limit |
| Portfolio.RemoveKeepsLimits | app/exchanges/portfolio.py:47-48 | removing a position keeps every limit |
| Portfolio.LimitsHoldOverRuns | app/risk/portfolio.py:50-99 | every sequence of approve-then-add and remove keeps every limit, with daily PnL and exchange health as each approval finds them |
| Portfolio.LimitsAsStated | app/risk/portfolio.py:50-99 | so per-account exposure and count, total and leveraged exposure, open risk and each group's exposure stay within their limits |
| RollingWindows.SumSlides | app/strategy_lab/features.py:238-242 | adding the newest value and taking off the leaving one gives the next window's sum |
| RollingWindows.RelativeVolume | app/strategy_lab/features.py:234-245 | each output is the volume over the mean of the window before it, computed afresh |
| RollingWindows.RollingVwap | app/strategy_lab/features.py:248-259 | each output is the window's traded value over its volume, computed afresh, or the close without volume |
| RollingWindows.ShortcutVariance | app/strategy_lab/features.py:272-273 | mean of squares less squared mean is the mean squared distance from the mean, so it is never negative and the clamp does nothing |
| RollingWindows.RollingMeanVariance | app/strategy_lab/features.py:262-276 | the running sums give the mean and variance of each window, computed afresh |
| RollingWindows.MirrorGrows | app/strategy_lab/features.py:283 | inserting keeps the sorted list holding exactly the values of the window |
| RollingWindows.MirrorShrinks | app/strategy_lab/features.py:284-286 | popping before the insertion point removes exactly the leaving value |
| RollingWindows.CountOfMultiset | app/strategy_lab/features.py:287 | a count does not depend on the order of the window |
| RollingWindows.RollingPercentile | app/strategy_lab/features.py:279-288 | each output is 100 times the share of the last `period` values that do not exceed the newest |
| CandleCache.FloorTime | app/backtest/persistence.py:148-149 | the start of the bar an instant falls in, on the grid |
| CandleCache.GapsAreExact | app/backtest/persistence.py:48-64 | the missing ranges are ordered, disjoint, cover exactly the uncached grid points, and are the only such list |
| CandleCache.RangesAreMaximal | app/backtest/persistence.py:54-63 | the grid point before a range and the one ending it are cached, the ends of the span aside |
| CandleCache.GapListIsUnique | app/backtest/persistence.py:48-64 | the specification of the missing ranges has one solution |
| CandleCache.HistoricalCandleCache.Load | app/backtest/persistence.py:35-46 | a candle is returned exactly when it is stored for an instant of the half-open span, and the result is in strictly ascending time order |
| CandleCache.HistoricalCandleCache.MissingRanges | app/backtest/persistence.py:48-64 | the scan loop returns those ranges |
| CandleCache.HistoricalCandleCache.Save | app/backtest/persistence.py:66-81 | the new table is the old one with the absent keys added |
| CandleCache.LoadedIsUnique | app/backtest/persistence.py:35-46 | the stored candles of a span have one such order, so the query has one answer |
| CandleCache.LoadedIsExact | app/backtest/persistence.py:35-46 | a candle is loaded exactly when it is stored and lies in the span |
| CandleCache.SavedKeepsRows | app/backtest/persistence.py:66-81 | saving never changes a stored candle and adds only saved ones |
| CandleCache.CachedHistoricalDataProvider.Fetch | app/backtest/persistence.py:88-95 | the missing ranges are downloaded in order until one fails, then the span is loaded and validated |
| CandleCache.FetchKeepsRows | app/backtest/persistence.py:88-95 | whatever the provider answers, no stored candle changes and other series are untouched |
| CandleCache.FetchReturnsTheGrid | app/backtest/persistence.py:88-95 | with a provider that has what is asked, the result is valid and holds every grid point of the span exactly once |
| CandleCache.WhatStaysMissing | app/backtest/persistence.py:48-64 | what a complete cache still reports missing: nothing for an aligned start, otherwise just the bar the start falls in |
| CandleCache.SecondFetchIsFree | app/backtest/persistence.py:88-95 | a second identical fetch asks the provider for nothing if and only if the start is on the grid or the span holds no bar |
| Pagination.FetchBybit | app/backtest/historical.py:41-54 | the backward loop ends and returns exactly the venue's candles from start to end inclusive |
| Pagination.FetchBinance | app/backtest/historical.py:58-66 | the forward loop ends and returns exactly the same |
| Pagination.FetchCcxt | app/backtest/historical.py:90-131 | the loop ends whatever the venue answers, and returns exactly the candles from start up to but not including end |
| Pagination.Dedupe | app/backtest/historical.py:137-140 | the deduplicated candles, refused exactly when one of them is not sound |
| Pagination.DedupedKeepsTheLast | app/backtest/historical.py:138 | strictly ascending, and of the candles with one timestamp the last |
| Pagination.CollectedIsTheQuery | app/backtest/historical.py:137-140 | rows that are those of a span, in any order and repetition, deduplicate to the one unbounded query |
| Pagination.VenueCompletesTheCache | app/backtest/persistence.py:88-95 | against a venue with a bar at every grid point, the paginated download gives the cache all it asks for |

## Left out

- Time: backtest, cache and pagination instants are whole microseconds from 1970 on; naive and aware datetimes are not told apart.
- Rounding of 28-digit `Decimal` and of floats, and the square root that turns the variance into the deviation: values are exact reals.
- Strategies: tuple actions, regime, signal-score and context fields are carried or dropped, and strategy state outside the view is not modelled.
- Other metrics: Sharpe and Sortino ratios, profit factors, Monte Carlo, walk-forward and calibration statistics would add formulas only.
- The last equity point after an END_OF_DATA close may use a peak that includes the mark it overwrites, so drawdown is stated for the curve passed to the metrics.
- BacktestAudit.MarketLossesAreBounded: a long with an execution rate above one, whose exit price could turn negative, and a negative reward requirement, with which a target could lie behind the stop, are outside the bound.
- BacktestReaders.RunsOfReadersAreCausal: a strategy that reaches past its view into private attributes is not a reader.
- Metrics.Drawdown: the relative drawdown is described for positive curves only; for others the code divides by a negative peak or skips it.
- PromptSplitter.PromptContent: whether the prompt parses is a parameter, and a parser that raises something other than ValueError is not modelled.
- Market discovery: indicators, the market scan, stored decisions and daily counters; the signature stands for its hash.
- CallRate.ServiceCallBound: cycles run one after another on a monotone clock, and a scan takes at most its age limit of 45 seconds.
- Collector: signal computation and the price arithmetic of position tracking are answers of the environment; notifications, exchange health, daily snapshots and system events of other kinds are not recorded.
- Collector.LedgerOverEveryRun: one collector at a time writes rows. The code checks ownership only at the heartbeat, so the lease itself is where mutual exclusion is proved.
- CollectorEngine.ProspectiveShadowEngine.ProcessCandles: the method runs without interleaving. In the code other exchanges run only where it awaits, which is before the first candle and after a stored trade, never between a commit and its decision; that they leave the pair alone there is `CollectorEngine.OthersLeavePair`.
- Ledger: database races and constraint errors inside a transaction beyond the unique keys shown.
- Execution: begin_scan, the sort order of candidates and the gates of a preview are one answer per candidate, and so are the checks of the state row and of the stored hashes; repository writes are taken to succeed. A process that dies inside a gateway call leaves what a cancellation there leaves; one that dies between an answer and the write of its status is not modelled.
- RiskBudget.BudgetHoldsOverRuns: a run is one whose plans cover entry costs and the loss at the stop, and whose positions lose no more than that; the guard cannot know a worse fill in advance.
- RiskBudget.AuthorizeEntry: the non-AI budget rule only; the experiment loss limit, the margin and equity checks and the consecutive-loss rule are other single comparisons. A position side other than Buy or Sell is not modelled.
- Portfolio: equity and prices are fixed over a run, as the limits are re-evaluated only on approval; failover and the dashboard are left out.
- CandleCache.FetchReturnsTheGrid: the provider must have every bar of each range it is asked for; what a fetch does when it has not is only that it keeps every stored row and returns valid candles or an error.
- Pagination.FetchBybit: the venue answers from a fixed history with at most one candle per bar; retries and failed requests are left out.
- HTTP, signing, Telegram, OpenAI clients, command line, reports, migrations and settings checks.
