# cryptozavr, verified

A Dafny model of the parts of cryptozavr where state, money and time interact, with proofs about
whole runs. `dafny verify dfyconfig.toml` checks everything.

## What is modelled

- **The backtest pipeline** (`Strategy`, `Indicators`, `Evaluator`, `Simulator`, `Report`, `Engine`).
  A strategy and a candle series go in; indicator loops fill columns, three-valued conditions are
  folded per bar, a mutable simulator trades one position, and a report re-checks the result. `Runs`,
  `Accounting`, `Comparison` and `Fees` hold the laws of whole runs: no look-ahead, cash conservation,
  a product formula for the account, chronology, solvency, the exact condition under which a run
  yields a report, and what changing the initial equity or the fee does to a run. `IndicatorLaws`,
  `SignalLaws`, `Bars` and `EngineLaws` say what the columns, signals, positions and records are in
  prices, weights and money, without the steps that compute them. `Counterexamples` holds concrete
  engine runs on which an expectation fails.
- **The position watch** (`Watch`, `WatchLaws`, `WakeUp`, `WakeRuns`). The tick loop, its event log and
  its long-poll waiters, the latter as a transition system whose steps are the code between two
  suspension points.
- **The paper ledger** (`Paper`, `Rounding`, `Ledger`, `LedgerLaws`, `LedgerRuns`). The guarded table
  updates as methods of a mutable repository, and every interleaving of open, close, terminal callback and resume over them;
  the callbacks carry the verdicts of the watch's own tick loop.
- **Algorithms with sharp specifications**: history pagination (`Paginator`), the token bucket
  (`TokenBucket`), support and resistance levels (`Clustering`, `Pivots`), and the structural diff of
  strategies read as a patch (`SpecDiff`, `DiffLaws`).

`Base` holds shared vocabulary. Methods that change state are proved to move exactly along a
specification function; the laws are proved about those functions, over every input, run or schedule.

## Where the code departs from its promises

- A winner whose gross move is smaller than its two fees has a favourable price move and a negative
  pnl, which the trade record rejects; one such trade aborts the whole run (`Engine.ExactAcceptance`,
  `Counterexamples.CostlyWinnerAborts`).
- An entry on bar 0 with a non-zero fee or slippage makes the first equity point differ from the
  initial equity, so the report is rejected (`Engine.FinishedReport`,
  `Counterexamples.FirstBarEntryAborts`).
- A rejected record leaves the cash moved and the position open (`Simulator.TradeSimulator.Close`,
  `Bars.CloseMeaning`).
- When both levels fall inside a bar the target wins for SHORT. The comment calls this the worst
  case; for SHORT it is the best one (`Simulator.CollisionTakesLower`,
  `Counterexamples.ShortTakesTarget`). The model follows the code.
- Scaling the account scales the run only while the size refusals (dust, minimum notional) stay the
  same (`Comparison.ScalingExact`, `Counterexamples.SmallAccountSitsOut`).
- Raising the fee can raise the result, by making the account too small for an entry that would
  have lost; the cheaper run's records tell when (`Fees.BelowExact`, `Counterexamples.RefusalMatters`).
- The stored candle history answers the newest rows, the paginator expects the earliest
  (`Paginator.NewestComplete`, `Paginator.NewestMissesStart`).
- A terminal callback cancelled before its write leaves a running trade whose watch is over
  (`Ledger.CallbackEndExact`, `Ledger.CutLeavesRunning`).
- A tick stream that just ends leaves the watch marked running, with nobody notified and nobody left to
  notify (`WakeRuns.EndAlone`).
- Zero price levels stay apart and yield equal levels, unless a positive level at the head of a
  descending list reaches them at a width of 100 percent or more (`Clustering.MeansOrderedExact`,
  `Clustering.ZeroLevelsSplit`).

## Model

| member | source | states |
|---|---|---|
| `Indicators.ComputeEma` | src/cryptozavr/application/backtest/indicators/ema.py:30-44 | The loop returns, per bar, the seeded recurrence `EmaAt`: nothing before period - 1 bars, the mean of the first window there, then a weighted step per bar; shorter series are all undecided. |
| `Indicators.ComputeRsi` | src/cryptozavr/application/backtest/indicators/rsi.py:27-47 | The in-place smoothing loop returns on every bar the RSI of the Wilder averages of gains and losses up to that bar, undecided before `period`. |
| `Indicators.ComputeAtr` | src/cryptozavr/application/backtest/indicators/atr.py:25-49 | The loop returns on every bar the Wilder average of the true ranges up to that bar, undecided before `period`. |
| `Indicators.ComputeAll` | src/cryptozavr/application/backtest/indicators/factory.py:43-63 | One column per distinct reference of the entry and exit conditions, each holding that reference's values; it fails exactly when some reference has no constructor arguments that work, naming one. |
| `Indicators.WarmUpIsPrefix` | src/cryptozavr/application/backtest/indicators/factory.py:27-40 | For every indicator kind the undecided values are exactly the first `WarmUp` bars, including the two EMA warm-ups of MACD. |
| `Indicators.ValueLocal` | src/cryptozavr/application/backtest/indicators/factory.py:54-63 | The value of any indicator on bar i is the same on every two series that agree up to bar i. |
| `Indicators.EmaBounds` | src/cryptozavr/application/backtest/indicators/ema.py:36-44 | Over the whole loop the EMA stays inside every interval holding the prices seen so far. |
| `Indicators.WilderBounds` | src/cryptozavr/application/backtest/indicators/rsi.py:37-46 | Over the whole smoothing loop a Wilder average stays inside every interval holding the terms seen so far. |
| `Indicators.IndicatorBounds` | src/cryptozavr/application/backtest/indicators/atr.py:25-49 | SMA and EMA lie between the least and greatest price seen, ATR between the least and greatest true range seen, on every bar with a value. |
| `Indicators.RsiRatio` | src/cryptozavr/application/backtest/indicators/rsi.py:50-54 | The branching RSI formula is 100 times the gains' share of the average moves, which lies in [0, 100]. |
| `Indicators.RsiRange` | src/cryptozavr/application/backtest/indicators/rsi.py:27-54 | RSI lies in [0, 100] on every bar, for any prices. |
| `Indicators.RsiReflection` | src/cryptozavr/application/backtest/indicators/rsi.py:27-54 | Reflecting the whole price series turns RSI into 100 - RSI exactly when the two averages are not both zero. |
| `IndicatorLaws.ValueMeaning` | src/cryptozavr/application/backtest/indicators/factory.py:27-40 | An indicator has a value exactly after enough bars, and the value is said without the loops: SMA times the period is the sum of the window; EMA, ATR and the two RSI averages weigh the term j bars back alpha (1 - alpha)^j over a discounted seed mean; RSI is the rises' share of the moves; MACD is the 12-bar average less the slow one; prices, rises, falls and true ranges are given by their own defining properties. |
| `Base.SumConcat` | src/cryptozavr/application/backtest/indicators/sma.py:22-24 | The sum of two joined lists is the sum of their sums; with the sum of one term this fixes every window sum and mean. |
| `IndicatorLaws.EmaClosedForm` | src/cryptozavr/application/backtest/indicators/ema.py:36-44 | The recurrence equals the weighted sum with alpha = 2 / (period + 1). |
| `IndicatorLaws.WilderClosedForm` | src/cryptozavr/application/backtest/indicators/rsi.py:33-46 | The smoothing equals the weighted sum with alpha = 1 / period. |
| `IndicatorLaws.RangeSpans` | src/cryptozavr/application/backtest/indicators/atr.py:33-40 | On a bar whose low is not above its high, the largest of the three distances spans the bar and the close before it. |
| `IndicatorLaws.ColumnsExact` | src/cryptozavr/application/backtest/indicators/factory.py:43-63 | There is a column for a reference exactly when some entry or exit condition reads it. |
| `Evaluator.SignalWarmUp` | src/cryptozavr/application/backtest/evaluator/strategy_evaluator.py:21-60 | The entry signal is undecided on bar i exactly when i is below a number computed from the entry conditions' kinds, periods and crossing operators; likewise for the exit signal. |
| `Evaluator.WarmUpOfIsMax` | src/cryptozavr/application/backtest/evaluator/strategy_evaluator.py:21-30 | That number is the largest warm-up of the conditions: three-valued folds are undecided while any condition is. |
| `Evaluator.ConditionWarmUpIsPrefix` | src/cryptozavr/application/backtest/evaluator/condition.py:20-77 | A condition is undecided exactly below its own warm-up, one bar longer for crossing operators. |
| `Evaluator.CrossingIsNoticed` | src/cryptozavr/application/backtest/evaluator/condition.py:56-77 | Between a bar on the near side and a later bar on the far side, both decided, the crossing operator fires on some bar in between. |
| `Evaluator.StrategyCrossingIsNoticed` | src/cryptozavr/application/backtest/evaluator/condition.py:56-77 | The same over computed columns, where decidedness at the two ends is enough. |
| `Evaluator.CrossingsExclusive` | src/cryptozavr/application/backtest/evaluator/condition.py:68-77 | The two crossing operators of one pair of series never fire on the same bar. |
| `Evaluator.SignalLocal` | src/cryptozavr/application/backtest/evaluator/strategy_evaluator.py:42-60 | Both signals of a bar depend on no later bar. |
| `SignalLaws.EvaluationMeaning` | src/cryptozavr/application/backtest/evaluator/condition.py:20-77 | A condition is decided exactly when both sides have a value on the bar, for a crossing also on the bar before; it is true exactly when the relation it names holds between these values. |
| `SignalLaws.SignalMeaning` | src/cryptozavr/application/backtest/evaluator/strategy_evaluator.py:21-60 | The entry signal is true exactly when every entry condition holds by the indicator values; the exit signal exactly when all exit conditions are decided and one holds; each is undecided exactly when one of its conditions is; without exit conditions the exit signal is false. |
| `Report.MaxDrawdown` | src/cryptozavr/application/analytics/visitors/max_drawdown.py:18-32 | The one-pass loop returns the quadratic definition: the least number in [0, 1] that no fall from an earlier positive point, clamped to 1, exceeds, attained if positive; for every non-empty curve, negative points included. |
| `Report.MaxDrawdownUnique` | src/cryptozavr/application/analytics/visitors/max_drawdown.py:18-32 | At most one number meets that definition. |
| `Report.PeakDominates` | src/cryptozavr/application/analytics/visitors/max_drawdown.py:22-31 | A clamped fall from any earlier positive point is at most the fall from the running peak, which is why one pass suffices. |
| `Report.ProfitFactor` | src/cryptozavr/application/analytics/visitors/profit_factor.py:23-35 | A ratio exists exactly when some trade lost; it exceeds one exactly when the trades' total pnl is positive. |
| `Report.ProfitMinusLoss` | src/cryptozavr/application/analytics/visitors/profit_factor.py:23-33 | Gross profit minus gross loss is the total pnl, and gross loss is positive exactly when some trade lost. |
| `Report.ProfitOfWinners` | src/cryptozavr/application/analytics/visitors/profit_factor.py:23-33 | Gross profit is the total pnl of the winning trades, gross loss is what the others took from it. |
| `Report.RecordAccepted` | src/cryptozavr/application/analytics/backtest_report.py:44-70 | A record passes exactly when time, size, prices and the sign of its pnl are in order, and each error names the first rule broken. |
| `Report.ReportAccepted` | src/cryptozavr/application/analytics/backtest_report.py:92-120 | The neighbour-by-neighbour checks amount to: all trades and all points in order, a positive start, and endpoints that agree. |
| `Simulator.TradeSimulator.constructor` | src/cryptozavr/application/backtest/simulator/trade_simulator.py:59-73 | A fresh simulator holds the initial equity, no position, no trade and no equity point. |
| `Simulator.TradeSimulator.Tick` | src/cryptozavr/application/backtest/simulator/trade_simulator.py:91-107 | The whole new state after a bar: at most one of entry and exit, then one equity point marked to the close; a rejected trade record stops the bar before its point. |
| `Simulator.TradeSimulator.Open` | src/cryptozavr/application/backtest/simulator/trade_simulator.py:124-180 | The whole new state after an entry attempt: unchanged on a non-positive fill, dust or a notional below the minimum; otherwise fee debited, levels set by side and open time recorded. |
| `Simulator.TradeSimulator.MaybeClose` | src/cryptozavr/application/backtest/simulator/trade_simulator.py:182-209 | The whole new state after the exit decision: a level inside the bar before the signal; with both inside, the stop for LONG and the target for SHORT. |
| `Simulator.TradeSimulator.Close` | src/cryptozavr/application/backtest/simulator/trade_simulator.py:211-259 | The whole new state after a close, including the state left behind when the trade record is rejected: cash moved, position still open. |
| `Simulator.TradeSimulator.CloseOpenPosition` | src/cryptozavr/application/backtest/simulator/trade_simulator.py:118-122 | Nothing without a position; otherwise a close at the slipped last price. |
| `Simulator.TradeSimulator.ReplaceLastEquityPoint` | src/cryptozavr/application/backtest/simulator/trade_simulator.py:109-116 | Only the last point's equity changes, its time stays; an empty curve stays empty. |
| `Simulator.CollisionTakesLower` | src/cryptozavr/application/backtest/simulator/trade_simulator.py:182-209 | With both levels inside a bar a position always leaves at the lower one, a loss for LONG and a win for SHORT before fees, whatever the exit signal. |
| `Simulator.DustThreshold` | src/cryptozavr/application/backtest/simulator/trade_simulator.py:47-49 | A size is dust exactly when its magnitude is below 1e-10. |
| `Bars.LeftExactly` | src/cryptozavr/application/backtest/simulator/trade_simulator.py:182-259 | On any bar of any run an open position is gone afterwards exactly when low <= target <= high, low <= stop <= high or the exit is signalled; its record carries entry (1 +/- takeProfitPct) or entry (1 -/+ stopLossPct) when only that level is inside, the lower level when both are, and the close less or plus slippage otherwise. |
| `Bars.BarMeaning` | src/cryptozavr/application/backtest/simulator/trade_simulator.py:91-107 | Every bar of every run takes the one action its prices and signal call for, with every amount, time and level written out, and adds one point: the account's worth at the close. |
| `Bars.FlushMeaning` | src/cryptozavr/application/backtest/simulator/trade_simulator.py:118-122 | A position still open at the end is recorded at the slipped last close, and the last point becomes the cash. |
| `Bars.CloseMeaning` | src/cryptozavr/application/backtest/simulator/trade_simulator.py:211-259 | A close writes its record exactly when the constructor takes it; otherwise the cash has moved by the same amount and nothing else. |
| `Runs.RunFollowsPath` | src/cryptozavr/application/backtest/engine.py:64-74 | A run completes exactly when every record on the unchecked path passes its constructor, and then ends in the path's state; this carries the laws below from paths to runs. |
| `Runs.TicksFollowPath` | src/cryptozavr/application/backtest/simulator/trade_simulator.py:91-107 | The same bar by bar. |
| `Runs.FinishedChronology` | src/cryptozavr/application/backtest/engine.py:64-84 | After every run: no open position, trades disjoint in time (open <= close < next open), one strictly ordered point per bar, the last one equal to the cash. |
| `Runs.PathGrows` | src/cryptozavr/application/backtest/simulator/trade_simulator.py:91-107 | Equity points and trades once written never change. |
| `Runs.PositionIsRecorded` | src/cryptozavr/application/backtest/simulator/trade_simulator.py:211-259 | Every position ever held ends as a trade with its entry price and size. |
| `Accounting.PathBooks` | src/cryptozavr/application/backtest/simulator/trade_simulator.py:124-269 | After every bar: equity is initial plus the pnl of closed trades minus the fee of the open entry, and capital is initial times the product of the trades' factors. |
| `Accounting.FinalEquity` | src/cryptozavr/application/backtest/simulator/trade_simulator.py:124-259 | Final equity is initial plus total pnl, and initial times the product over trades of 1 + s·ret - s·f·(1 + exit/entry). |
| `Accounting.SettleFactor` | src/cryptozavr/application/backtest/simulator/trade_simulator.py:231-243 | A close leaves in cash the capital times the recorded trade's factor, for either side. |
| `Accounting.LongSolvency` | src/cryptozavr/application/backtest/simulator/trade_simulator.py:91-158 | Whatever the positive prices and signals, an unleveraged long account keeps equity, every marked point and every recorded size strictly positive. |
| `Accounting.FinishedSolvent` | src/cryptozavr/application/backtest/simulator/trade_simulator.py:118-122 | The same after the final flush. |
| `Engine.Run` | src/cryptozavr/application/backtest/engine.py:42-98 | The imperative run (indicators, bar loop over the mutable simulator, auto-close, report construction) returns exactly the specified result, including which error comes first. |
| `Engine.RunBars` | src/cryptozavr/application/backtest/engine.py:55-67 | The bar loop leaves the simulator in the state of the specified run, or stops with the first rejected record's error. |
| `Engine.NoLookAhead` | src/cryptozavr/application/backtest/engine.py:55-74 | On two series that agree on their first k bars, all indicator values and signals of those bars and the whole simulator outcome after k ticks are identical. |
| `Engine.ExactAcceptance` | src/cryptozavr/application/backtest/engine.py:64-84 | A report is produced exactly when the initial equity is positive, every record has positive size and exit and is no winner whose gross is below its two fees, and no entry with a cost opens on bar 0. |
| `Engine.LongAcceptance` | src/cryptozavr/application/analytics/backtest_report.py:44-70 | For an unleveraged long account on positive prices only the last two conditions remain, both ways. |
| `Engine.DefectMeaning` | src/cryptozavr/application/analytics/backtest_report.py:44-70 | A path record passes its constructor exactly when it has size, a positive exit and is no costly winner. |
| `Engine.FinishedReport` | src/cryptozavr/application/analytics/backtest_report.py:92-120 | The report constructor accepts a finished run exactly when bar 0 opened no position that cost anything. |
| `Engine.QuietMeaning` | src/cryptozavr/application/backtest/simulator/trade_simulator.py:124-180 | That condition read from the first bar alone: no entry signal, a refused entry, or both rates zero. |
| `Engine.ReportFacts` | src/cryptozavr/application/analytics/backtest_report.py:92-120 | Every report: disjoint trades, one point per candle, endpoints equal to initial and final equity, conservation, and the product formula. |
| `Engine.ProfitFactorMeetsReturn` | src/cryptozavr/application/analytics/visitors/total_return.py:13-14 | On a report with a losing trade, profit factor above one if and only if total return above zero. |
| `EngineLaws.OpenedExactly` | src/cryptozavr/application/backtest/simulator/trade_simulator.py:124-180 | From candles to position: a flat account holds one after a bar exactly when every entry condition holds by the indicator values, the slipped fill is positive, the size reaches ten decimals and the amount spent the minimum; entry price and size are those. |
| `EngineLaws.EarlyErrors` | src/cryptozavr/application/backtest/engine.py:86-98 | No candle, a single candle, or a MACD whose slow period is at most 12: each error exactly then. |
| `EngineLaws.ReturnIsGrowth` | src/cryptozavr/application/analytics/visitors/total_return.py:13-14 | One plus the total return of a report is the product of its trades' factors; the report spans the first to the last bar. |
| `Comparison.ScalingExact` | src/cryptozavr/application/backtest/simulator/trade_simulator.py:124-269 | Multiplying the initial equity by c multiplies every amount and size by c and changes no bar, price or time, up to any bar, exactly when on each of these bars c times the original run's own equity is turned down for its size just when that equity itself is. |
| `Comparison.ScaledRun` | src/cryptozavr/application/backtest/engine.py:42-84 | Under that condition on the original run the scaled run is accepted alike and its report is the scaled report. |
| `Comparison.ScalingUp` | src/cryptozavr/application/backtest/simulator/trade_simulator.py:136-156 | With no size refusal in the original run, scaling by any c >= 1 introduces none, so the scaled copy follows. |
| `Fees.FeesNeverHelp` | src/cryptozavr/application/backtest/simulator/fees.py:15-24 | Raising the fee never raises any equity point, the flushed last one included, when the dearer run's records are acceptable, the cheaper run's points never go negative, and the third condition holds: on no bar is the cheaper run's entry, sized for the capital its recorded prices leave at the higher fee, too small when the cheaper account's is not. |
| `Fees.BelowExact` | src/cryptozavr/application/backtest/simulator/trade_simulator.py:124-269 | Under the first two conditions, up to any bar the dearer account has the same position side and prices, closed the same trades and holds no more capital exactly when the third holds, a condition on the cheaper run alone; the account then turns down the same entries. |
| `Counterexamples.CostlyWinnerAborts` | src/cryptozavr/application/analytics/backtest_report.py:58-70 | Closes 1, 2, 2.01 with a fee of one percent: the run ends in the trade record's sign error. |
| `Counterexamples.FirstBarEntryAborts` | src/cryptozavr/application/analytics/backtest_report.py:112-116 | Two bars at 2 with a fee of five basis points: the report is rejected for its first equity point. |
| `Counterexamples.SmallAccountSitsOut` | src/cryptozavr/application/backtest/simulator/trade_simulator.py:148-156 | Closes 1, 2, 1 with a minimum notional of 50: the account of 100 ends with 50, a quarter of it with 25, so the run is not scaled; the engine reports both. |
| `Counterexamples.RefusalMatters` | src/cryptozavr/application/backtest/simulator/trade_simulator.py:148-156 | Closes 1, 2, 1, 2, 1 with that minimum: the cheaper run ends with 25, the one that pays a percent is refused its second entry and ends with 48.50; the engine reports both. |
| `Counterexamples.RefusalCanCost` | src/cryptozavr/application/backtest/simulator/trade_simulator.py:148-156 | Closes 1, 2, 1, 2, 3: the same refusal, and no equity point of the dearer run is higher; so no condition on refusals alone decides the order of the points. |
| `Counterexamples.RefusalForeseen` | src/cryptozavr/application/backtest/simulator/trade_simulator.py:148-156 | On both series the cheaper run's first trip, charged one percent, leaves 48.50: its own records foretell the refusal. |
| `Counterexamples.ShortTakesTarget` | src/cryptozavr/application/backtest/simulator/trade_simulator.py:182-209 | A SHORT from 100 with stop 110 and target 90 on a bar from 85 to 115 leaves at 90 with 100 gross, where the stop would have cost 100. |
| `Rounding.RoundHalfEvenExact` | src/cryptozavr/domain/paper.py:68-72 | Quantising picks the nearest multiple, the even one on a tie, and only that one. |
| `Rounding.QuantizeExact` | src/cryptozavr/domain/paper.py:68-72 | A quantised amount is the nearest whole number of units of the scale, the even one on a tie, and no other amount is. |
| `Watch.WatchState.Process` | src/cryptozavr/application/services/position_watcher.py:165-185 | One turn of the loop body: price fields, pnl, then the detected events, ending at the first terminal one. |
| `Watch.WatchState.Run` | src/cryptozavr/application/services/position_watcher.py:159-193 | The loop leaves the state the ticks determine, and hands a terminal event to the callback exactly when some tick was terminal; it is the last event logged. |
| `Watch.WatchState.AppendEvent` | src/cryptozavr/domain/watch.py:113-116 | Appends, dropping the oldest entries beyond 200. |
| `Watch.FollowLog` | src/cryptozavr/domain/watch.py:113-116 | In every run each non-terminal type is logged at most once and at most one terminal event, last and matching the status; so at most 4 entries, and the trim never fires. |
| `Watch.TickKeepsLog` | src/cryptozavr/application/services/position_watcher.py:36-59 | A tick appends exactly what the detector reports, and what it reports is exactly the met types not fired before. |
| `Watch.RunsWhileQuiet` | src/cryptozavr/application/services/position_watcher.py:36-92 | A watch is running exactly while no tick was terminal, and its fired set is exactly the types some tick met. |
| `Watch.FirstTerminalDecides` | src/cryptozavr/application/services/position_watcher.py:165-185 | The first terminal tick decides status, last event, price fields and pnl; later ticks change nothing. |
| `Watch.VerdictFacts` | src/cryptozavr/application/services/position_watcher.py:165-185 | Whenever a run has ended, its last event is terminal and carries the state's status, price and time, and the pnl is the one at that price. |
| `Watch.WatchPnlIsLedgerPnl` | src/cryptozavr/application/services/position_watcher.py:196-203 | The watch's pnl in quote currency at a price is the pnl the ledger stores for that exit, rounding included. |
| `WatchLaws.StatusExact` | src/cryptozavr/application/services/position_watcher.py:36-70 | A watch runs on exactly while no tick read reached stop, take or deadline; the first that does decides: at the stop, else at the take, else too late, by prices and times alone. |
| `WatchLaws.EventExact` | src/cryptozavr/application/services/position_watcher.py:36-92 | The log holds an event exactly when some tick, read while the watch ran, was the first within a fifth of the distance to its level or one stop distance in favour, or ended the watch, with that tick's time and price. |
| `WatchLaws.LogOrder` | src/cryptozavr/application/services/position_watcher.py:36-59 | The log is in the order of the ticks, and within a tick stop before take before breakeven. |
| `WatchLaws.ShownExact` | src/cryptozavr/application/services/position_watcher.py:196-203 | A watch shows the price and time of the last tick it read, its gain in ten-thousandths of the entry and in hundredths of the quote currency, rounded half to even. |
| `Watch.PollingIsLossless` | src/cryptozavr/mcp/dtos.py:573-592 | A client that polls at any moments and follows the returned cursor has received exactly the log, once and in order. |
| `Watch.MirrorRun` | src/cryptozavr/application/services/position_watcher.py:36-92 | Swapping the side and reflecting stop, take and ticks about the entry gives the same event types, status and pnl on every run. |
| `WakeUp.AlwaysInv` | src/cryptozavr/mcp/tools/watch.py:197-207 | In every interleaving of loop, any number of cancellers and any number of waiters, with requests that merge, hit a loop that has not begun or kill one that is about to notify: a sleeper whose predicate holds is still owed a notification, a waiter returned as ready really is, and the lock is held by exactly the waiter that is checking or leaving after a timeout. |
| `WakeUp.ReadySleeperCanReturn` | src/cryptozavr/domain/watch.py:83-93 | From every such state a ready sleeper returns within six steps of some schedule; no state strands it. |
| `WakeRuns.SharedIsFollow` | src/cryptozavr/application/services/position_watcher.py:159-193 | In every interleaving the state the waiters look at is the watch's own run over the ticks its loop has read, but for a status a cancellation or a failure has set. |
| `WakeRuns.TerminalAlone` | src/cryptozavr/application/services/position_watcher.py:170-182 | Left alone, a tick that ends the watch wakes everyone, runs the callback if there is one, and ends the loop. |
| `WakeRuns.QuietAlone` | src/cryptozavr/application/services/position_watcher.py:170-185 | A quiet tick wakes everyone when it logged something and nobody otherwise, and the loop goes on. |
| `WakeRuns.FailAlone` | src/cryptozavr/application/services/position_watcher.py:190-193 | A failing stream leaves the status at error, everyone woken and the loop over. |
| `WakeRuns.EndAlone` | src/cryptozavr/application/services/position_watcher.py:164-186 | A stream that just ends leaves the loop over, the status as it was and nobody woken. |
| `WakeRuns.StopAlone` | src/cryptozavr/application/services/position_watcher.py:147-157 | A stop of a streaming watch leaves it cancelled, everyone woken, and returns. |
| `WakeRuns.WaitAlone` | src/cryptozavr/mcp/tools/watch.py:197-207 | A waiter returns at once exactly when there are events beyond its cursor or the watch is not running; otherwise it sleeps with the lock released. |
| `WakeRuns.TimeoutAlone` | src/cryptozavr/mcp/tools/watch.py:197-207 | A sleeper that times out leaves, and the lock is free again. |
| `Ledger.PaperTradeRepository.Close` | src/cryptozavr/infrastructure/persistence/paper_trade_repo.py:65-95 | Writes the settlement with the given status and reports one row when the row was running, otherwise changes nothing and reports zero. |
| `Ledger.PaperTradeRepository.MarkAbandoned` | src/cryptozavr/infrastructure/persistence/paper_trade_repo.py:97-108 | Abandons a running row only, with the same row count. |
| `Ledger.PaperTradeRepository.FetchOpen` | src/cryptozavr/infrastructure/persistence/paper_trade_repo.py:118-124 | Exactly the running rows, each once, newest first. |
| `Ledger.PaperTradeRepository.Insert` | src/cryptozavr/infrastructure/persistence/paper_trade_repo.py:24-55 | One new running row without settlement fields; all other rows unchanged. |
| `Ledger.PaperTradeRepository.SetWatchId` | src/cryptozavr/infrastructure/persistence/paper_trade_repo.py:57-63 | Attaches a watch to an existing row and touches nothing else, whatever the row's status. |
| `Ledger.StepKeeps` | src/cryptozavr/application/services/paper_ledger_service.py:52-174 | Every atomic step of open, close, terminal callback and resume keeps the invariant, loses no row, changes no terms and never touches a settlement. |
| `Ledger.AlwaysInv` | src/cryptozavr/application/services/paper_ledger_service.py:52-174 | The invariant holds after every interleaving of any number of tasks. |
| `Ledger.SettledExactlyOnce` | src/cryptozavr/infrastructure/persistence/paper_trade_repo.py:65-108 | Under every interleaving a settled row was taken out of `running` by exactly one step, a running row by none. |
| `Ledger.SettledForever` | src/cryptozavr/infrastructure/persistence/paper_trade_repo.py:65-108 | Whatever runs later, a settled row keeps status, exit price, closing time, pnl and reason. |
| `Ledger.RowsAddUp` | src/cryptozavr/application/services/paper_ledger_service.py:118-129 | A closed row, and only a closed row, has an exit price, closing time and pnl, and the pnl is that of its own exit price. |
| `Ledger.ClosersAgree` | src/cryptozavr/application/services/paper_ledger_service.py:102-129 | Every returned close carries a settled row, equal in its settlement to the stored row and to what any concurrent closer of the trade returns. |
| `Ledger.OpenOutcome` | src/cryptozavr/application/services/paper_ledger_service.py:74-100 | An open returns an attached row exactly for durations the watch accepts, and raises, leaving the row settled, exactly for the others. |
| `Ledger.CallbackSettles` | src/cryptozavr/application/services/paper_ledger_service.py:160-174 | A terminal callback that runs to its end leaves its trade settled; one that leaves it running was cancelled before its write. |
| `Ledger.CallbackEndExact` | src/cryptozavr/application/services/paper_ledger_service.py:160-174 | The step that ends a callback, of whichever task, leaves the trade running exactly when it cuts the callback while the row is running. |
| `Ledger.CallbackStoresVerdict` | src/cryptozavr/application/services/paper_ledger_service.py:160-174 | When a callback settles its row, exit price, closing time and pnl are the last price, last tick and pnl its watch ended with on the row's own terms, and the reason names the watch's status. |
| `Ledger.CutLeavesRunning` | src/cryptozavr/application/services/position_watcher.py:147-157 | A schedule in which the callback is cancelled between its read and its write: the row stays running with a watch that is over. |
| `Ledger.ResumeOutcome` | src/cryptozavr/application/services/paper_ledger_service.py:131-158 | When a resume has worked off its list, every listed row is attached or settled, and the count is that of the rows it attached. |
| `LedgerLaws.RowPnlExact` | src/cryptozavr/domain/paper.py:68-72 | Under every interleaving the pnl of a closed row is sizeQuote (exit - entry) / entry, negated for SHORT, in whole hundredths, half to even. |
| `LedgerLaws.Provenance` | src/cryptozavr/application/services/paper_ledger_service.py:52-174 | Under every interleaving a row has the terms some open inserted; a closed one holds the price, reason and time of a close that was asked for and written, or the price, time, pnl and status some watch of the trade, on the trade's terms, ended with; an abandoned one says which start failed, and for a rejected start its duration was out of range. |
| `LedgerLaws.WatchedOnTerms` | src/cryptozavr/application/services/paper_ledger_service.py:74-97 | The watch a row names watches this trade, on its side, levels, amount and duration. |
| `LedgerLaws.ClosingEndsWatch` | src/cryptozavr/application/services/paper_ledger_service.py:113-117 | Closing a watched trade ends its watch, cuts that watch's callbacks and no other task. |
| `LedgerRuns.CloseAlone` | src/cryptozavr/application/services/paper_ledger_service.py:102-129 | Left alone, a close of a running trade ends its watch, closes exactly that row with the price, time, pnl and reason given, and returns it. |
| `LedgerRuns.CloseSettled` | src/cryptozavr/application/services/paper_ledger_service.py:109-113 | A close of a missing trade raises, of a settled one returns it as it is; nothing is written. |
| `LedgerRuns.OpenAlone` | src/cryptozavr/application/services/paper_ledger_service.py:74-100 | Left alone, an open within 60 to 86,400 seconds inserts a running row, starts a watch on its terms, attaches and returns it. |
| `LedgerRuns.OpenRejected` | src/cryptozavr/application/services/paper_ledger_service.py:78-95 | Outside them it leaves the row abandoned with no watch. |
| `LedgerRuns.CallbackAlone` | src/cryptozavr/application/services/paper_ledger_service.py:160-174 | Left alone, the callback of an ended watch closes its running trade at the watch's last price and no other row; a settled trade it only reads. |
| `LedgerRuns.ResumeLists` | src/cryptozavr/application/services/paper_ledger_service.py:131-134 | A resume starts from a listing of exactly the running rows. |
| `LedgerRuns.ResumeRound` | src/cryptozavr/application/services/paper_ledger_service.py:135-158 | One round attaches the first listed row to a new live watch and counts it, or abandons it with the cause when it is running. |
| `LedgerRuns.WatchStops` | src/cryptozavr/application/services/position_watcher.py:147-193 | A watch that ends without a verdict, or whose callback is killed, changes no row. |
| `Paginator.NewPaginator` | src/cryptozavr/application/services/ohlcv_paginator.py:51-64 | Accepts exactly the windows that are not empty with a positive chunk size. |
| `Paginator.Iterate` | src/cryptozavr/application/services/ohlcv_paginator.py:72-93 | The cursor loop yields the specified chunks with the specified number of fetches, and ends for every service. |
| `Paginator.AnyService` | src/cryptozavr/application/services/ohlcv_paginator.py:72-118 | Whatever the service answers: only candles of the window are yielded, no chunk is empty, and at most until - since fetches are made. |
| `Paginator.PagesTrail` | src/cryptozavr/application/services/ohlcv_paginator.py:72-93 | Against any service a run makes one fetch per cursor of a trail: each cursor is a timeframe past the last candle of the answer before, and the run ends exactly at an empty answer, a cursor that does not move on, or the end of the window; the chunks are what these answers yield, in order. |
| `Paginator.YieldedExact` | src/cryptozavr/application/services/ohlcv_paginator.py:95-112 | An answer yields one chunk of exactly its candles in the window, in order, flagged as clipped exactly when some candle was dropped; none yields nothing. |
| `Paginator.Complete` | src/cryptozavr/application/services/ohlcv_paginator.py:72-118 | Against a service answering the earliest candles from `since`, the concatenated chunks are the range query over the venue's candles: no gap, no duplicate, in order. |
| `Paginator.CompleteExact` | src/cryptozavr/application/services/ohlcv_paginator.py:89-93 | Completeness for every window and chunk size holds exactly when consecutive candles are at least a timeframe apart. |
| `Paginator.NewestComplete` | src/cryptozavr/infrastructure/supabase/gateway.py:181-208 | Against the stored history, which answers the newest candles, the chunks are complete exactly when one answer already reaches back to the start of the window. |
| `Paginator.NewestMissesStart` | src/cryptozavr/infrastructure/supabase/gateway.py:181-208 | Three candles read two at a time that way: the chunks hold the last two. |
| `Paginator.EstimateIsExact` | src/cryptozavr/application/services/ohlcv_paginator.py:66-70 | On contiguous candles aligned to `since` the number of fetches is the estimate. |
| `Paginator.FetchesWithinEstimate` | src/cryptozavr/application/services/ohlcv_paginator.py:66-70 | On any spaced history it is at most one more than the estimate. |
| `Paginator.CeilDivLeast` | src/cryptozavr/application/services/ohlcv_paginator.py:68-70 | The floor-division trick yields the least number of steps covering the span. |
| `TokenBucket.NewLimits` | src/cryptozavr/infrastructure/providers/rate_limiters.py:15-19 | Accepts exactly positive rates and capacities. |
| `TokenBucket.Bucket.Acquire` | src/cryptozavr/infrastructure/providers/rate_limiters.py:26-39 | The loop leaves the level the readings determine, grants at the first reading that allows it and at no other, which makes its readings a completed acquire, and needs at most two readings when the sleep does not undershoot. |
| `TokenBucket.Bucket.Turn` | src/cryptozavr/infrastructure/providers/rate_limiters.py:30-36 | One turn refills up to the capacity at the reading and takes a token exactly when a whole one is there. |
| `TokenBucket.OneSleepIsEnough` | src/cryptozavr/infrastructure/providers/rate_limiters.py:34-39 | After a refusal a later reading is granted exactly when the computed sleep has passed: it is the shortest sufficient wait. |
| `TokenBucket.RateBound` | src/cryptozavr/infrastructure/providers/rate_limiters.py:26-39 | In every run, the grants between any two readings number at most capacity + rate times the time between them. |
| `TokenBucket.AcquiresBounded` | src/cryptozavr/infrastructure/providers/rate_limiters.py:26-39 | Any n consecutive acquires on one bucket, the first granted at t1 and the last at tn: n <= capacity + rate * (tn - t1). |
| `TokenBucket.CountJoin` | src/cryptozavr/infrastructure/providers/rate_limiters.py:26-39 | The grants of a joined run are those of its two parts, the second starting from the level the first left. |
| `TokenBucket.GrantExact` | src/cryptozavr/infrastructure/providers/rate_limiters.py:26-39 | From a full bucket a reading is granted exactly when no stretch ending there would exceed that bound. |
| `TokenBucket.AlwaysInRange` | src/cryptozavr/infrastructure/providers/rate_limiters.py:30-36 | Tokens stay in [0, capacity] after every reading of every run. |
| `TokenBucket.AttemptExact` | src/cryptozavr/infrastructure/providers/rate_limiters.py:26-39 | A turn adds the time since the last one times the rate, up to the capacity, and takes one token exactly when a whole one is there. |
| `Clustering.Cluster` | src/cryptozavr/application/strategies/support_resistance.py:83-99 | The loop that grows the newest cluster returns the means of the greedy clusters. |
| `Clustering.Grow` | src/cryptozavr/application/strategies/support_resistance.py:88-98 | The greedy pass over one growing list of clusters makes exactly the specified clusters. |
| `Clustering.ClustersPartition` | src/cryptozavr/application/strategies/support_resistance.py:83-99 | The clusters concatenate to the input. |
| `Clustering.AnchorsGreedy` | src/cryptozavr/application/strategies/support_resistance.py:88-98 | Every member joins its cluster's anchor, and the level that starts a cluster does not join the anchor before it. |
| `Clustering.JoinsExact` | src/cryptozavr/application/strategies/support_resistance.py:88-98 | A level joins a positive anchor exactly when it lies between anchor (1 - width) and anchor (1 + width), and never a zero anchor. |
| `Clustering.GreedyIsMinimal` | src/cryptozavr/application/strategies/support_resistance.py:83-99 | On ordered levels that are not negative, ascending or descending, no labelling under the same width condition, contiguous or not, uses fewer classes. |
| `Clustering.GreedyIsGrouping` | src/cryptozavr/application/strategies/support_resistance.py:83-99 | The greedy clusters are such a labelling, so the minimum is attained. |
| `Clustering.MeansOrderedExact` | src/cryptozavr/application/strategies/support_resistance.py:83-99 | On ordered levels that are not negative, the means are strictly ordered exactly when the levels are, or the width is not negative and either at most one level is zero or a positive descending head reaches all zeros at a width of 100 percent. |
| `Clustering.ZerosClash` | src/cryptozavr/application/strategies/support_resistance.py:90-93 | Two zero levels that no positive head reaches give equal means, whatever else the list holds. |
| `Clustering.OneCluster` | src/cryptozavr/application/strategies/support_resistance.py:88-98 | A descending list from a positive level is one cluster at a width of 100 percent or more, zeros included. |
| `Clustering.ZeroLevelsSplit` | src/cryptozavr/application/strategies/support_resistance.py:90-93 | Two zero levels alone, at any width, stay two clusters with equal means. |
| `Pivots.Analyze` | src/cryptozavr/application/strategies/support_resistance.py:34-81 | Scan, sort and cluster give the specified supports, resistances, counts and confidence, the early return for short series included. |
| `Pivots.PivotsComplete` | src/cryptozavr/application/strategies/support_resistance.py:51-59 | The scan finds exactly the bars whose high is above, or whose low is below, those of all neighbours in a full window. |
| `Pivots.RawExact` | src/cryptozavr/application/strategies/support_resistance.py:51-59 | The raw levels are the highs, or lows, of the pivots in the order of the bars. |
| `Pivots.PivotsAreFew` | src/cryptozavr/application/strategies/support_resistance.py:51-59 | Pivots of a kind lie more than a window apart, so the k-th lies at least k windows and k bars after the first possible place. |
| `Pivots.LevelsSound` | src/cryptozavr/application/strategies/support_resistance.py:61-62 | Every pivot counts in exactly one cluster. On positive prices and a width that is not negative, supports come out strictly ascending and resistances strictly descending; where prices may be zero, exactly under that condition on the sorted pivots. |
| `SpecDiff.WalkDiff` | src/cryptozavr/mcp/tools/strategy_read_only.py:101-117 | The recursive walk with its accumulating loops returns the specified list. |
| `SpecDiff.DiffIsPatch` | src/cryptozavr/mcp/tools/strategy_read_only.py:101-117 | Writing each right value at its path into the left tree yields the right tree, up to absent and null. |
| `SpecDiff.DiffEmptyExact` | src/cryptozavr/mcp/tools/strategy_read_only.py:101-117 | The list is empty exactly when the trees are equal up to absent and null. |
| `SpecDiff.DiffAntichain` | src/cryptozavr/mcp/tools/strategy_read_only.py:101-117 | No listed path equals, or leads through, another. |
| `SpecDiff.DiffTruthful` | src/cryptozavr/mcp/tools/strategy_read_only.py:101-117 | Each entry shows the values both trees hold at its path, and these differ. |
| `SpecDiff.EquivIsNormEquality` | src/cryptozavr/mcp/tools/strategy_read_only.py:101-117 | Equality step by step is equality of the trees with null fields and trailing nulls dropped. |
| `DiffLaws.DiffExact` | src/cryptozavr/mcp/tools/strategy_read_only.py:101-117 | A difference is listed exactly at the places where both trees branch alike all the way down and then do not and differ, with the two values there. |
| `DiffLaws.DiffInOrder` | src/cryptozavr/mcp/tools/strategy_read_only.py:101-117 | Differences are listed by key name and item number, at every depth. |
| `DiffLaws.BeforeExact` | src/cryptozavr/mcp/tools/strategy_read_only.py:104-106 | Key order is by the first differing character, a proper prefix first. |
| `SpecDiff.SortedKeys` | src/cryptozavr/mcp/tools/strategy_read_only.py:102-107 | The keys of both dicts, each once, in strictly ascending order. |

## Left out

- Fees.FeesNeverHelp: one direction only on equity points; a refused entry may have won or lost (`Counterexamples.RefusalMatters`, `Counterexamples.RefusalCanCost`), so only the order of the accounts has an exact condition, `Fees.BelowExact`.
- Engine.ExactAcceptance: the condition on records is read along the unchecked path, on which a run continues past a record its constructor would reject.
- Ledger.PaperTradeRepository.Close: the columns' rounding to eight decimals is not modelled.
- Ledger.RowsAddUp: for the same reason the pnl is that of the exit price as passed, which is the stored one when it has at most eight decimals.
- Ledger.AlwaysInv: a row is rebuilt from the table without the failures a driver can raise; task crashes other than cancelling a callback are not steps.
- Indicators.ComputeRsi: the averages are exact reals, so a gain that is lost to float rounding is not seen.
- Watch.WatchState.Run: the ticks and the way the stream ends are inputs; the provider behind it is not modelled.
- Clustering.MeansOrderedExact: price levels below zero are not covered.
- TokenBucket.Bucket.Acquire: the clock readings are an input, so a loop that is never granted appears as readings that run out.
- SpecDiff.WalkDiff: paths are sequences of steps, so a key that contains a slash is not confused with two keys; scalars are compared by one abstract value, without the coercions between numbers and truth values.
- Floating point and the 28-digit decimal context: prices, fees, indicator values and clock times are real numbers; only the explicit quantisation of pnl is rounded. Overflow of that quantisation is not modelled.
- Missing values inside candles and the check for missing columns: a candle always has its five fields.
- Fee and slippage models other than the basis-point ones, and their argument checks.
- Candle timestamps: as in the engine, bars are stamped by their index; a report's strategy name and period are not modelled.
- Unique identifiers, wall-clock readings, venue and symbol names: parameters or dropped.
- Sharpe ratio and win rate: the first needs a square root, the second is a count.
- Truncation of the paper table, process shutdown.
- Negative pivot windows, which the strategy's constructor does not exclude.
- Provider chain, retries, risk engine, kill switch, data-transfer objects, prompts and server wiring.
