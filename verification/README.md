# HTA trading bot: a verified model

HTA is a trading bot for Hyperliquid. Underneath its I/O it consists of small machines
whose behaviour over a whole run matters more than any single call: a bar-by-bar
backtester, streaming structures that must agree with something simpler, an order path
with caps and a halt protocol, a timed funding-capture state machine, and a budget
allocator. This project models those machines in Dafny and proves what they keep.
`dafny verify dfyconfig.toml` checks everything.

| file | models |
|---|---|
| `Features.dfy` | `src/marketdata/features.py`: lagged z-score and Wilder RSI |
| `Windows.dfy` | the extreme windows of those indicators: what they score, and which windows can |
| `Simulator.dfy`, `SimulatorProperties.dfy`, `Stops.dfy`, `Overlap.dfy` | `src/backtest/simulator.py`: signals, sizing, the per-symbol machine, its exits, its mirror image |
| `Portfolio.dfy` | `src/backtest/simulator.py`: several symbols, the trade table and the equity curve |
| `Report.dfy` | the drawdown of `src/backtest/report.py` |
| `CandleStore.dfy` | `src/marketdata/candle_store.py`: OHLCV bars built in place |
| `Bus.dfy` | `src/dashboard_api/bus.py`: bounded fan-out, drop-oldest, slow detector |
| `DataLoader.dfy` | `src/backtest/data_loader.py`: anchored chunks and the chunk cache |
| `FundingCapture.dfy` | `src/strategies/funding_capture.py`: the timed state machine |
| `CapitalAllocator.dfy` | `src/execution/capital_allocator.py`: shares, buffer, residual |
| `RiskManager.dfy` | `src/risk/manager.py`: the order check and its caps |
| `OrderRouter.dfy` | `src/execution/order_router.py`: delta, quantisation, retry, rate limit |
| `KillSwitch.dfy` | `src/risk/kill_switch.py`: halt, resume and their interleavings |
| `Prelude.dfy` | options, results, and the few sequence and real-number facts shared by the rest |

How things are represented:

- Decimals and floats are `real`; the one rounding the code performs on purpose, the
  half-even quantisation to eight decimals, is written out.
- A NaN cell, a missing entry and Python's `None` are `Option` values; a raised
  `ValueError` is a `Result`.
- A series recursion reads from its newest entry backwards, so that one more bar, trade,
  poll or event is one more step.
- The random generator is an infinite stream read at an index. The square root inside the
  rolling deviation is a parameter: only the bound on the z-score needs it to be exact.
- Clocks, quotes, exchange answers, endpoint responses and fills are inputs, and the
  theorems hold for all of them.
- Classes whose state the source updates in place (candle store, bus and subscription,
  loader cache, router, kill switch) are classes here, each method tied to a
  specification function on which the run theorems are proved.

## Model

| member | source | states |
|---|---|---|
| Features.FeaturesAreLagged | src/marketdata/features.py:17-53 | two close histories that agree strictly before bar t have the same z-score and RSI at bar t |
| Features.ZScore | src/marketdata/features.py:26-31 | raises exactly for window <= 1; the value at t is the score of bar t - 1, undefined at bar 0 |
| Features.Rsi | src/marketdata/features.py:41-53 | raises exactly for period < 2; the value at t is the index of bar t - 1, undefined at bar 0 |
| Features.CauchySchwarz | src/marketdata/features.py:28-29 | the square of the entries' total excess over any point is at most their number times their squared deviation from it |
| Features.LastDeviationBound | src/marketdata/features.py:28-30 | the newest close of a window is within sqrt(n - 1) population deviations of the window's mean |
| Features.ZScoreBound | src/marketdata/features.py:28-31 | every defined z-score satisfies z^2 <= window - 1 |
| Features.RsiIsShareOfGains | src/marketdata/features.py:48-52 | the index equals 100 * gains / (gains + losses), poles included, whenever anything moved |
| Features.RsiIsWeightedShare | src/marketdata/features.py:41-53 | the RSI at bar t is undefined up to t = period, and from then on the share of upward moves in all moves before t, each weighted by (1 - 1/period)^age (times 1/period except for the very first), 50 when nothing moved |
| Features.MirrorFeatures | src/marketdata/features.py:17-53 | replacing each close c by k - c negates the z-score and complements the RSI at every bar, zero-loss and both-zero cases included |
| Simulator.SimulateSymbol | src/backtest/simulator.py:203-321 | the loop over bars with its mutable position computes the run of the step function: same trades, skips and number of draws |
| SimulatorProperties.SignalColumns | src/backtest/simulator.py:127-156 | every cell of the signal row of bar t: the lagged z-score, RSI, mean and deviation, and six inclusive comparisons with the thresholds that no undefined value passes |
| SimulatorProperties.SizingIsTight | src/backtest/simulator.py:164-185 | a non-zero size is backed by a defined deviation and its stop distance, its notional is within the cap, losing the stop distance loses at most the risk budget, and one of the two limits is used up |
| SimulatorProperties.SizedIff | src/backtest/simulator.py:164-185 | at a positive price the size is positive if and only if the deviation, the stop multiplier and both budgets are |
| SimulatorProperties.SignalsAreLagged | src/backtest/simulator.py:127-140 | the signal row of bar t is a function of the closes before t |
| SimulatorProperties.SettledTradesStay | src/backtest/simulator.py:227-321 | the trades exited at or before bar k never change in the rest of the run |
| SimulatorProperties.NoLookAhead | src/backtest/simulator.py:112-156 | for histories with equal closes before k and equal opens through k: same book after bar k (trades, open position, skips, draws) and same settled trades at the end |
| SimulatorProperties.CashIsJustified | src/backtest/simulator.py:249-286 | a trade closed at any bar books as pnl the signed move from the open of its entry bar to the open of its exit bar (the entry fill when that open is not finite) times the size, less both maker fees and the slippage of both fills, and as slippage_cost the exit leg alone |
| SimulatorProperties.StepKeepsBook | src/backtest/simulator.py:227-319 | one bar keeps every entry, exit and cash figure justified and the trades disjoint |
| SimulatorProperties.RunIsJustified | src/backtest/simulator.py:227-319 | over any run: trades are ordered and disjoint, each entry was signalled, sized and filled as specified, each exit is the first bar whose stop or target column or elapsed time asks for it, with the stop before the target and the time last, bars held lie in [1, time stop + 1], and the cash account is as in `CashIsJustified` |
| SimulatorProperties.DrawsAreConserved | src/backtest/simulator.py:303-319 | every draw of the generator is a skip, a finished trade or the open position |
| SimulatorProperties.DrawsAreChances | src/backtest/simulator.py:296-310 | over any run the generator is drawn exactly once for each bar that carries an entry signal and a usable open and lies outside every trade and the open position: no chance is missed, none is taken twice |
| SimulatorProperties.ChanceIsTakenIff | src/backtest/simulator.py:296-319 | such a chance becomes a position if and only if the draw is below the fill probability and the position has a size; otherwise it is counted as skipped |
| SimulatorProperties.MirrorSignals | src/backtest/simulator.py:133-140 | with oversold + overbought = 100 the mirrored history exchanges every long column with its short counterpart |
| SimulatorProperties.MirrorWhenDecided | src/backtest/simulator.py:112-321 | with oversold + overbought = 100 and no bar that signals both entries, backtesting k - c on the same opens gives the same bars, sizes, skips and draws on the opposite side |
| SimulatorProperties.MirrorTheorem | src/backtest/simulator.py:112-321 | the same holds for every history, whatever the square root, when z_entry > 0 or oversold < 50 |
| Overlap.BothColumnsIff | src/backtest/simulator.py:133-136 | with oversold + overbought = 100, some history of positive closes sets both entry columns on one bar if and only if oversold >= 50 and z_entry <= 0 (<= -1 for a window of 2) |
| Overlap.MirrorIff | src/backtest/simulator.py:112-321 | with oversold + overbought = 100, every backtest of a configuration has its mirror image if and only if it is not one of those, or no equity lets it size a position: otherwise the code prefers long on both sides of the mirror |
| Stops.StopsBounded | src/backtest/simulator.py:139-140 | with z_stop^2 > window - 1 neither stop column is ever set |
| Stops.NoTradeIsStopped | src/backtest/simulator.py:234-247 | with z_stop^2 > window - 1 no trade of any run exits by its stop |
| Windows.OutlierScore | src/marketdata/features.py:28-31 | the bound is attained: one outlier below a flat window scores exactly -sqrt(window - 1) |
| Windows.FallScore | src/marketdata/features.py:28-31 | a second, deep enough fall right after an outlier scores beyond any level below that bound |
| Windows.BoundAttained | src/marketdata/features.py:28-30 | only an outlier attains the bound: then all the other closes of the window are equal |
| Windows.TailBound | src/marketdata/features.py:28-30 | a window that ends in h equal closes scores at most sqrt((window - h) / h) in size |
| Windows.TwoLevelScore | src/marketdata/features.py:28-31 | and that is attained: j equal closes followed by a lower level score exactly -sqrt(j / (window - j)) |
| Stops.StopReachableIff | src/backtest/simulator.py:139-140 | for each side: some history of positive closes sets its stop column if and only if z_stop <= 0 or z_stop^2 <= window - 1 |
| Stops.StoppedOnlyIf | src/backtest/simulator.py:234-310 | a trade that exits by its stop needs stop and entry levels within reach of the z-score, an RSI level within [0, 100], a positive fill probability and positive sizing factors; with z_stop^2 = window - 1 also an entry level that can be met within the longest hold before such a stop |
| Stops.StoppedTradeIff | src/backtest/simulator.py:227-319 | some backtest on positive closes has a trade that exits by its stop if and only if those conditions hold (at z_stop^2 = window - 1 for z_target >= 0) |
| Portfolio.Union | src/backtest/simulator.py:349 | the union of two sorted indexes is sorted, free of duplicates, and holds exactly the stamps of both |
| Portfolio.NextCell | src/backtest/simulator.py:365-369 | the pnl of trades exited by one stamp is the pnl by the previous stamp plus the group of this stamp |
| Portfolio.EquityCurve | src/backtest/simulator.py:361-369 | equity at every stamp is initial equity plus the pnl of all trades exited by then |
| Portfolio.RunSimulation | src/backtest/simulator.py:329-377 | the index is exactly the union of the symbols' stamps; the trades are those of the symbols run in order on one generator, sorted by exit time, none on the first stamp; equity agrees with them at every stamp; raises exactly for short windows with a non-empty symbol |
| Portfolio.AllDrawsAreConserved | src/backtest/simulator.py:329-360 | over all symbols together each draw of the one shared generator is a skip, a trade or a position left open |
| Portfolio.EquityEndsAtTotal | src/backtest/simulator.py:365-369 | the curve ends at initial equity plus the total pnl |
| Portfolio.EquityStartsAtInitial | src/backtest/simulator.py:361-369 | the curve starts at initial equity, and stays there when there are no trades |
| Portfolio.DrawdownOfSimulation | src/backtest/report.py:53-87 | what is reported for any simulation from positive initial equity whose curve never goes negative is the worst change of that curve, (e_j - e_i) / e_i over all i <= j |
| Report.RunningPeak | src/backtest/report.py:82 | the running peak bounds all equity so far and is one of its values |
| Report.WorstDrawdown | src/backtest/report.py:83-84 | the minimum of the drawdown series is a lower bound and is attained |
| Report.PeakIsWorstBaseIff | src/backtest/report.py:82-83 | the main drawdown result: the running peak is the worst base to measure the loss of a position from if and only if equity is not negative there or every positive base before it is the peak itself |
| Report.WorstDrawdownIff | src/backtest/report.py:82-84 | its consequence for a whole curve that starts positive: the reported minimum equals the minimum of (e_j - e_i) / e_i over all pairs i <= j with e_i > 0 if and only if no negative value, measured from the smallest positive equity up to it, lies below it |
| Report.DrawdownIsWorstChange | src/backtest/report.py:82-84 | in particular the two are equal on every such curve that never goes negative |
| Report.MaxDrawdownIsWorstChange | src/backtest/report.py:53-87 | the reported value is never positive and is that minimum, the shortcut for a run without trades included |
| Report.NegativeEquityDiffers | src/backtest/report.py:82-84 | an instance outside the condition: -1.5 is reported where the worst change is -2 |
| CandleStore.BucketContains | src/marketdata/candle_store.py:50 | the bucket is the one multiple of the bar length whose bar contains the trade, negative times included |
| CandleStore.BatchStep | src/marketdata/candle_store.py:49-79 | one more trade opens a bar at its own price, moves range, close and volume of the last bar, or, when it belongs to an older bar, changes nothing in the batch aggregation |
| CandleStore.StreamingStep | src/marketdata/candle_store.py:43-79 | the bounded deque after one trade is the tail of the batch aggregation after that trade |
| CandleStore.RefinementStep | src/marketdata/candle_store.py:49-79 | over all coins at once: one trade keeps every deque the last `history` bars of that coin's batch, and a coin without trades without a deque |
| CandleStore.BatchIsWellFormed | src/marketdata/candle_store.py:54-75 | opening times strictly increase and low <= open, close <= high in every bar |
| CandleStore.BarsSummarize | src/marketdata/candle_store.py:54-75 | each bar is first, highest, lowest and last price and total size of the accepted trades of its bucket, extremes attained, and every such bucket has its bar |
| CandleStore.PastBarsAreFinal | src/marketdata/candle_store.py:66-79 | however the stream continues, no bar but the last changes, and the last keeps its open |
| CandleStore.Push | src/marketdata/candle_store.py:53-79 | the in-place update of one bounded deque computes the bounded growth step |
| CandleStore.CandleStore.OnTrade | src/marketdata/candle_store.py:49-79 | extends the ingested stream by one trade, keeps all deques equal to the bounded batch, touches one coin only |
| CandleStore.CandleStore.OnTradesMessage | src/marketdata/candle_store.py:81-88 | ingests a list of trades in order |
| CandleStore.CandleStore.GetCandles | src/marketdata/candle_store.py:90-109 | returns the last `history` groups (first, max, min, last, sum) per bucket of the coin's accepted trades |
| CandleStore.NewStore | src/marketdata/candle_store.py:35-43 | raises exactly for non-positive history or bar length |
| Bus.DeliverKeepsValid | src/dashboard_api/bus.py:152-180 | a delivery keeps the queue the newest stretch of the log within its bound and all counts consistent |
| Bus.TakeKeepsValid | src/dashboard_api/bus.py:67-68 | a get hands out the oldest queued message, and log positions received stay increasing |
| Bus.BusStaysValid | src/dashboard_api/bus.py:110-180 | every interleaving of subscribe, unsubscribe, publish and get keeps every subscriber valid and the bus counter equal to the sum of all drops |
| Bus.SubscribersAreIndependent | src/dashboard_api/bus.py:147-150 | a subscriber's whole state is a function of its own calls and the publishes since it joined |
| Bus.AloneLogs | src/dashboard_api/bus.py:70-75 | its log is exactly the matching messages published while it was subscribed, in order |
| Bus.OneMoreHeard | src/dashboard_api/bus.py:70-75 | an open subscriber logs one more message if and only if its channel is subscribed and it has no symbol, or a chosen one, or all are chosen |
| Bus.BusLogTheorem | src/dashboard_api/bus.py:132-180 | in every interleaving: the queue is bounded and the newest stretch of that log, receptions come in order without duplicates, matched = received + queued + dropped, and the bus counts all drops |
| Bus.PublishReaches | src/dashboard_api/bus.py:132-180 | a publish on one of the eight channels appends the stamped message to the log and queue of every open subscriber that wants it, costing a full queue its oldest message and a drop, and changes nothing else |
| Bus.PublishesAreCounted | src/dashboard_api/bus.py:138-146 | the published counter is the number of publishes on known channels |
| Bus.SlowDetectorIsExact | src/dashboard_api/bus.py:63 | on an ordered drop history and a threshold <= 200, the 200-entry deque flags exactly what the full history would |
| Bus.DetectorsAgreeIff | src/dashboard_api/bus.py:160-168 | the two detectors agree on every ordered history if and only if the threshold is at most 200 |
| Bus.LargeThresholdNeverFlags | src/dashboard_api/bus.py:63 | above 200 the flag can never be set |
| Bus.SlowFlagTheorem | src/dashboard_api/bus.py:160-168 | in every run in which the readings a subscriber's drops take never run backwards, its flag is set exactly when some drop had slow_threshold drops of the full history in its trailing window |
| Bus.SlowIsSticky | src/dashboard_api/bus.py:167-168 | once set the flag stays set in every continuation of the run |
| Bus.ShippedBus | src/dashboard_api/bus.py:80-90 | as shipped a message is dropped for each one beyond 1000 queued, and the flag stands for 100 drops within 10 seconds |
| Bus.Subscription.Get | src/dashboard_api/bus.py:67-68 | removes and returns the oldest queued message |
| Bus.Bus.Subscribe | src/dashboard_api/bus.py:110-122 | adds one fresh subscriber and changes no other |
| Bus.Bus.Unsubscribe | src/dashboard_api/bus.py:124-130 | closes that subscriber, harmless when repeated, and changes no other |
| Bus.Bus.DeliverTo | src/dashboard_api/bus.py:152-180 | appends, or drops the oldest, counts, stamps, re-evaluates the flag and appends |
| Bus.Bus.Publish | src/dashboard_api/bus.py:132-150 | every open subscriber that wants the message receives it stamped once, as in `PublishReaches`, each drop with its own clock reading; an unknown channel changes nothing |
| Bus.CountRecent | src/dashboard_api/bus.py:165-166 | the number of stamps at or after the cutoff |
| DataLoader.ChunkIsNeeded | src/backtest/data_loader.py:67-68 | an index is in the computed range exactly when its anchored chunk meets the requested window |
| DataLoader.ChunksCover | src/backtest/data_loader.py:58-74 | the chunks are back to back, cover [start, end), and are exactly the anchored chunks that meet it |
| DataLoader.ChunkWindows | src/backtest/data_loader.py:58-74 | the loop computes that list |
| DataLoader.SortIsStable | src/backtest/data_loader.py:107 | sorting a frame does not change which candle comes first for a stamp |
| DataLoader.KeepFirstProperties | src/backtest/data_loader.py:168 | deduplication keeps exactly the first candle of each stamp |
| DataLoader.AssembleIsExact | src/backtest/data_loader.py:166-173 | concatenating, deduplicating, sorting and slicing selects, in time order, the first candle of each stamp in [start, end) |
| DataLoader.WindowIsUnique | src/backtest/data_loader.py:166-173 | that selection is unique, so whatever was cached the frame is the same |
| DataLoader.Loader.LoadChunk | src/backtest/data_loader.py:150-158 | a chunk read from the cache or fetched is the endpoint's sorted answer; a fetched one is written |
| DataLoader.Loader.LoadCandles | src/backtest/data_loader.py:114-176 | whatever earlier loads cached, each frame is exactly the uncached answer for [now - days, now); only missing chunks are requested and no chunk is ever requested twice; raises exactly for non-positive days or chunk_days and then changes nothing |
| DataLoader.LoadIsTheHistory | src/backtest/data_loader.py:145-174 | against a fixed history a load returns precisely its candles in [now - days * 86400000 ms, now), for every chunk size |
| FundingCapture.RunIsConsistent | src/strategies/funding_capture.py:210-322 | after every run of polls with arbitrary fills, quotes and capital, target_notional is zero exactly in idle and negative otherwise, and tick and start time are set exactly outside idle |
| FundingCapture.WhyItMoved | src/strategies/funding_capture.py:225-282 | holding is left if and only if the available capital is below target * early_exit_ratio or T + post_tick_min is reached; waiting for fills ends in holding if and only if both legs cover 99% of the target on their sides, and otherwise after the fill window; unwinding ends if and only if both legs are flat |
| FundingCapture.ShippedGuards | src/strategies/funding_capture.py:48-56 | the same guards and the entry with the shipped numbers: a rate above 0.001, 540 to 660 seconds ahead, half the equity or what is available, 90 seconds to fill, 60 seconds after the tick, half the target still available |
| FundingCapture.CapturesEndOnTime | src/strategies/funding_capture.py:225-285 | with polls at most `gap` apart and a safe gap, no capture for tick T is still active at or after T + post_tick_min |
| FundingCapture.UnwindBeginsByDeadline | src/strategies/funding_capture.py:241-246 | the poll that begins to unwind a capture for T happens before T + post_tick_min + gap |
| FundingCapture.TimingIsExact | src/strategies/funding_capture.py:249-285 | all runs with that poll gap are on time if and only if fill window + gap < pre_tick - 60 + post_tick_min (510 s of gap by default) |
| FundingCapture.EntriesAreSpaced | src/strategies/funding_capture.py:284-322 | without starvation exits, and with pre_tick - 60 + post_tick_min > 0, entries for one tick are more than a fill window apart and all in its entry window |
| FundingCapture.EntriesPerTick | src/strategies/funding_capture.py:284-322 | under the same condition k entries for one tick need (k - 1) * fill_window < 120 |
| FundingCapture.SpacingIff | src/strategies/funding_capture.py:225-322 | all such runs space their entries if and only if pre_tick - 60 + post_tick_min > 0 (or the fill window is negative); otherwise a filled capture is left and entered again at once |
| FundingCapture.EntryCountIff | src/strategies/funding_capture.py:225-322 | the count bound holds for all such runs if and only if pre_tick - 60 + post_tick_min > 0 (or the fill window is not positive); otherwise one tick can be entered any number of times |
| FundingCapture.AtMostTwoEntries | src/strategies/funding_capture.py:48-56 | under the shipped configuration a tick is entered at most twice |
| FundingCapture.TwoEntriesHappen | src/strategies/funding_capture.py:284-322 | two is attained by a concrete run |
| FundingCapture.EveryCoinRunsAlone | src/strategies/funding_capture.py:325-354 | when every decision goes back into the next `evaluate`, as in `src/main.py:428-436`, a coin has a state exactly from its first quote on, and it is the state of the single-symbol run of its own polls (the stand-in where its quote is missing), whatever the other coins do |
| FundingCapture.EveryCoinEndsOnTime | src/strategies/funding_capture.py:325-354 | so under `evaluate` every coin stays consistent and, for poll gaps within the bound of `TimingIsExact`, its capture ends on time |
| FundingCapture.EveryCoinEntersRarely | src/strategies/funding_capture.py:325-354 | and without starvation exits of that coin its entries for one tick are spaced and few |
| FundingCapture.PlaceholderNeverEnters | src/strategies/funding_capture.py:342-351 | the stand-in quote can never open a capture if and only if the threshold is non-negative or an hour ahead is outside the entry window |
| CapitalAllocator.NewConfig | src/execution/capital_allocator.py:45-50 | raises exactly when shares plus buffer exceed 1 |
| CapitalAllocator.GrantIsSmaller | src/execution/capital_allocator.py:92-116 | the grant is the smaller of the share left and the equity left outside the buffer, never negative; degraded if and only if the second is what limits it; nothing at all without equity |
| CapitalAllocator.ShippedGrants | src/execution/capital_allocator.py:53-60 | the shipped strategies are offered up to a quarter and a half of the equity, and a quarter is kept back from both |
| CapitalAllocator.MoveKeepsBudget | src/execution/capital_allocator.py:89-117 | opening at most the grant, or closing, keeps total use within the spendable equity and each use within its share |
| CapitalAllocator.BufferIsPreserved | src/execution/capital_allocator.py:89-117 | from zero use, over any run of such moves of any number of strategies, the buffer is intact and nobody exceeds a share |
| CapitalAllocator.DegradedByOthers | src/execution/capital_allocator.py:106-109 | a strategy is degraded only if some other strategy is over its share |
| CapitalAllocator.JointGrantsFit | src/execution/capital_allocator.py:92-116 | while nobody is over a share, all grants together still leave the buffer |
| CapitalAllocator.TwoGrantsFit | src/execution/capital_allocator.py:97-108 | with two strategies both grants can be taken whoever is over a share |
| CapitalAllocator.GapOfferedTwice | src/execution/capital_allocator.py:97-108 | with three, one strategy's excess can leave a gap that is offered in full to both of the others |
| CapitalAllocator.GrantsAlwaysFitIff | src/execution/capital_allocator.py:89-117 | joint grants fit for every usage if and only if there are at most two strategies, or at most one positive share, or the buffer is everything |
| RiskManager.CheckOrder | src/risk/manager.py:177-301 | the check with its loops computes the decision function, first failing rule first |
| RiskManager.ApprovedIff | src/risk/manager.py:177-301 | an intent is approved if and only if there is room to trade (flag, equity, losses, pause, rates) and the book after a full fill respects the notional, count and leverage caps, with risk and the distance of every position from liquidation checked unless reduce-only |
| RiskManager.DecisionIsFirstBroken | src/risk/manager.py:177-301 | the decision is the code of the first of the thirteen rules that is broken, each written out on the book after a full fill, and approval when none is |
| RiskManager.FullFillIs | src/risk/manager.py:147-161 | the full fill adds the signed order size; a reduce-only one stops where it comes closest to that between flat and the position |
| RiskManager.FindPosition | src/risk/manager.py:140-144 | the first position in the symbol, or none when there is none |
| RiskManager.SymbolsAreOfFilledBook | src/risk/manager.py:255-263 | the set compared with the concurrency cap is the set of open symbols after a full fill |
| RiskManager.NotionalIsOfFilledBook | src/risk/manager.py:272-279 | the sum used for leverage is the gross notional after a full fill |
| RiskManager.ApprovedFillKeepsCapsIff | src/risk/manager.py:241-269 | from a book within the count cap and any notional cap, the full fill of an approved intent leaves such a book if and only if the filled position is within that cap at its own mark |
| RiskManager.GrossBound | src/risk/manager.py:163-164 | with distinct symbols, gross exposure is at most one notional cap per open symbol |
| RiskManager.OrderKeepsCapIff | src/risk/manager.py:241-251 | all approved orders at a price leave their position within the cap at a mark if and only if the price is not below the mark |
| RiskManager.FixedMarkCapsIff | src/risk/manager.py:241-269 | at fixed marks, all runs whose growing orders are priced at `ratio` times the mark or more stay within both caps if and only if ratio >= 1 |
| RiskManager.CapsScaleWithPrice | src/risk/manager.py:241-285 | from a flat account, with fixed equity, caps and marks and sequential full fills whose growing orders are priced at any positive share of the mark or more: at all times every position is within the notional cap divided by that share, the count cap holds, gross is at most the product of the two, and for a share of at most 1 leverage never rejects when count cap * notional cap <= share * leverage cap |
| RiskManager.CapsAreInductive | src/risk/manager.py:241-285 | the instance share = 1, growing orders at the mark or above: both caps hold as configured and leverage never rejects when their product allows it |
| RiskManager.RemarkedCapsAreInductive | src/risk/manager.py:241-285 | the special case in which every fill moves its symbol's mark to the fill price: the same, for orders at any price |
| RiskManager.DefaultCapsNeverReachLeverage | src/risk/manager.py:94-106 | under the shipped caps the leverage rejection is unreachable in fixed-mark runs whose growing orders are priced at a fifth of the mark or more |
| RiskManager.DefaultShareIsExact | src/risk/manager.py:94-106 | and a fifth is exact: under the shipped caps the rejection is reachable if and only if the share is below 0.2 |
| RiskManager.LeverageReachableIff | src/risk/manager.py:271-285 | for every share in (0, 1]: such a run can meet the leverage rejection if and only if count cap * notional cap > share * leverage cap |
| RiskManager.LeverageReachableBelowMarks | src/risk/manager.py:271-285 | with no positive share there is no bound: the rejection is reachable whatever the caps |
| RiskManager.CapsBreakBelowMark | src/risk/manager.py:94-106 | an instance under the shipped caps: 300 of one symbol bought at 1 with its mark at 100 break the notional cap, and 1 of another at 1 is then refused for leverage |
| OrderRouter.QuantizeError | src/execution/order_router.py:198-200 | rounding half-even to eight decimals moves a value by at most half a unit, keeps its sign, and yields zero exactly within half a unit of zero |
| OrderRouter.QuantizeIsNearest | src/execution/order_router.py:198-200 | the result is the nearest multiple of 1e-8, the even one of two that are equally near |
| OrderRouter.NoOrderIff | src/execution/order_router.py:191-200 | no order exactly when the position is within half a unit of the target |
| OrderRouter.ReduceOnlyIff | src/execution/order_router.py:209-217 | an order is reduce-only exactly when the target lies between flat and the position, flat included |
| OrderRouter.RouterAgreesWithRisk | src/execution/order_router.py:172-219 | the size the risk manager evaluates is within half a unit of the target, and a reduce-only order never grows or flips the position |
| OrderRouter.SubmittedSizeIsTheTarget | src/execution/order_router.py:187-219 | that target is notional / mid, or flat for a non-positive mid; the order rests at its own side of the touch |
| OrderRouter.FilledOrderSettles | src/execution/order_router.py:187-219 | once filled, the same target and quote ask for nothing more |
| OrderRouter.SendsIff | src/execution/order_router.py:94-144 | an order is sent if and only if both reads of the halt flag were clear, the position is off its target, and the call's own positions, open orders and equity and the last minute's submissions leave room: 0.30 of equity for the position, 2 symbols, 3 times equity gross, 6 open orders, 20 a minute, and unless reduce-only 0.005 of equity at risk and 0.08 of the mark to liquidation |
| OrderRouter.StopsWith | src/execution/order_router.py:94-144 | otherwise the caller learns why: blocked, no quote, on target, or the first risk rule that is broken on an account of the call's own data, an equity that is not positive counting as 1 |
| OrderRouter.RecordsIt | src/execution/order_router.py:263-320 | an accepted first attempt is recorded at the touch, an accepted second one a tick lower for a buy and a tick higher for a sell; nothing else is recorded, and the outcome says which |
| OrderRouter.OrderRouter.SubmitTarget | src/execution/order_router.py:94-144 | outcome and new router state, for every quote, account, flag and exchange answer |
| OrderRouter.OrderRouter.SendAloWithRetry | src/execution/order_router.py:263-320 | records the first or the one-tick-improved order exactly when it was accepted |
| OrderRouter.OrderRouter.CancelStaleOrders | src/execution/order_router.py:146-168 | drops exactly the orders older than the limit whose cancel did not raise |
| OrderRouter.RecentIsHistory | src/execution/order_router.py:249-252 | seen through any later cutoff, the trimmed list is the full submission history |
| OrderRouter.TrimmingIsInvisible | src/execution/order_router.py:249-259 | trimming never changes an outcome from what the full history would give |
| OrderRouter.RateLimitHolds | src/risk/manager.py:216-221 | with sequential calls and a nondecreasing clock, every closed 60-second window holds at most 20 recorded submissions |
| KillSwitch.RecordSplitsPositions | src/risk/kill_switch.py:107-127 | the journal record splits the listed non-zero positions, as a multiset, into closed and failed |
| KillSwitch.KillSwitch.CancelOrders | src/risk/kill_switch.py:95-99 | one attempt per listed order in order, and one error per call that raised |
| KillSwitch.KillSwitch.ClosePositions | src/risk/kill_switch.py:107-115 | one attempt per non-zero position in order, each reported closed or failed as the call did |
| KillSwitch.KillSwitch.Halt | src/risk/kill_switch.py:77-127 | a halt while halted does nothing; otherwise the whole protocol is attempted whatever raises, and the record holds the reason, every listed order, every position whose close returned, and one error per listing or call that raised |
| KillSwitch.KillSwitch.Resume | src/risk/kill_switch.py:137-142 | clears the flag, counting only effective resumes |
| KillSwitch.TaskStep | src/risk/kill_switch.py:86-127 | one wake-up of a coroutine begins exactly the next request of its protocol |
| KillSwitch.EveryInterleavingIsInvariant | src/risk/kill_switch.py:77-151 | every interleaving of halts, resumes and submissions at their suspension points keeps the protocol invariant: each task has begun exactly the requests of its stage, and the flag is what the log of begun requests says |
| KillSwitch.HaltsAndResumesAlternate | src/risk/kill_switch.py:79-83 | in the log, halt sequences begun minus effective resumes is 1 while halted and 0 otherwise; one record per finished sequence |
| KillSwitch.FinishedSequenceIsComplete | src/risk/kill_switch.py:89-127 | a finished sequence attempted each listed order and each listed non-zero position once, in order, and a record of just that, with its reason and errors, is in the journal |
| KillSwitch.RunningSequenceIsPrefix | src/risk/kill_switch.py:89-127 | at every earlier stage it has begun a prefix of the protocol whatever others did in between, for every list a listing still to come may return |
| KillSwitch.TasksDoAsAnswered | src/risk/kill_switch.py:86-127 | in every interleaving each task keeps the reason of its call and holds exactly the answers it was woken with: listings, one flag per call, and a retry if and only if the first attempt would have taken |
| KillSwitch.EveryAnswerMovesOn | src/risk/kill_switch.py:86-127 | a fresh call moves when first woken, a waiting task if and only if woken with an answer to its request, a finished one never |
| KillSwitch.NoFirstAttemptWhileHalted | src/execution/order_router.py:104-144 | in the log of every interleaving, an effective resume lies between the start of a halt sequence and any later first order attempt |
| KillSwitch.RetryBeginsHaltedIff | src/execution/order_router.py:286-305 | the one-tick retry begins while halted if and only if the last effective halt or resume logged since its first attempt is a halt |
| KillSwitch.RetryMayBeginHalted | src/execution/order_router.py:286-305 | and that happens: a log of first attempt, start of a halt, retry |

Single steps of these machines are described by helper lemmas: `WhatIsSent`,
`EntryIsCapped`, `PollKeepsConsistency` and `HoldingEndsEarlyOnlyIfStarved` for one poll,
`ExitAtIs` for one bar, `LimitsIff` and `IntentIs` for one submission, `InDollars` for one grant.

Where the code and its documentation disagree, the model follows the code:

- `simulator.py` says the stop is `|z| > z_stop`; the comparison is inclusive. Its comment
  speaks of total slippage, but `slippage_cost` is the exit leg only; both legs are in `pnl`.
- `features.py` comments that both averages zero give NaN; the code gives 50.
- `bus.py` says "more than `slow_threshold`" drops; the comparison is inclusive. Above 200
  the flag cannot be set at all.
- `funding_capture.py` says the stand-in quote won't trigger entry; that holds under the
  condition proved in `PlaceholderNeverEnters`. Its header speaks of a partial fill at the
  end of the fill window; an entry without any fill is unwound the same way.
- `kill_switch.py` lists under `cancelled_orders` every listed order, also those whose
  cancel raised.

## Left out

- Network, SDK, SQLite journal, notifier, FastAPI and WebSocket layers, dashboard, plots and report text: I/O and presentation.
- `reconciler.py`, `position_tracker.py`, `funding_simulator.py` and `mean_reversion.py` are not modelled; of `main.py` only the funding loop that feeds each decision back is.
- Floating-point rounding and the Decimal context, except the explicit eight-decimal quantisation.
- Non-finite closes: closes are reals; non-finite opens are modelled.
- Portfolio.RunSimulation: assumes each symbol's bar stamps strictly increase; the order of trades with equal exit times is left open.
- Stops.StoppedTradeIff: leaves out z_stop^2 = window - 1 together with z_target < 0, where the target exit itself limits the hold; `StoppedOnlyIf` covers that case in one direction.
- SimulatorProperties.MirrorTheorem: needs z_entry > 0 or oversold < 50, because with both entry columns set the code prefers long; `Overlap.MirrorIff` gives the exact condition, for an exact square root.
- Report.MaxDrawdownIsWorstChange: a curve that starts at zero or below, where the source divides by a non-positive peak, is not part of this model; no simulation from positive initial equity gives one.
- Malformed trade messages, and `symbols()` of the candle store.
- A `get` on an empty bus queue is still waiting; the payload is a value that only carries its time stamp and symbol.
- DataLoader.Loader.LoadCandles: the endpoint is a fixed function of its arguments, so a chunk that is not yet wholly past is outside the claim; index sorting is modelled as stable. Progress callbacks and sleeping are not modelled.
- FundingCapture.EveryCoinRunsAlone: decisions form a map; their alphabetical order and the reason strings are not modelled. No bound on the total over several coins is claimed: every coin is offered the same capital.
- FundingCapture.AtMostTwoEntries: assumes no starvation exit, which reopens the entry window at once.
- CapitalAllocator.BufferIsPreserved: fixed positive equity; after a fall in equity existing use can exceed the shares.
- RiskManager.CapsScaleWithPrice: equity and marks are fixed and each approved order is filled before the next check. The router sizes at mid and rests at bid or ask, so its buys are priced slightly below the mark: the caps then hold scaled by that share of the price, not as configured (`FixedMarkCapsIff`, `CapsBreakBelowMark`).
- OrderRouter.RateLimitHolds: calls are sequential and the wall clock does not run backwards; concurrent calls could all be checked before any is recorded. Journal and bus messages of a submission are not modelled.
- KillSwitch.EveryInterleavingIsInvariant: a halt sequence ends at its journal record; notification, a journal that raises and task cancellation are not modelled.
