# RAC: proofs about the paper-trading engine

RAC is a Python paper-trading engine. This project models its computational core in
Dafny and proves properties of it that hold for every input, every run and every
interleaving. All numbers are exact reals.

| file | part of the engine |
|---|---|
| `Features.dfy`, `FeatureValues.dfy`, `PercentB.dfy`, `MacdSign.dfy` | indicator arithmetic, what each value means, and its bounds |
| `Strategies.dfy`, `DecisionRules.dfy`, `Confidence.dfy`, `Mirror.dfy` | the three strategies, when and how confidently they decide, and the buy/sell symmetry from raw bars to signals |
| `BacktestPortfolio.dfy`, `BacktestEngine.dfy` | the walk-forward simulator, as a class driven bar by bar |
| `BacktestLedger.dfy`, `Solvency.dfy`, `TradeSpans.dfy`, `WalkForward.dfy`, `Reports.dfy` | its money, its debts, its trades, what it looks at, and what it reports |
| `Metrics.dfy`, `Labeler.dfy`, `FirstPassage.dfy`, `LabelService.dfy`, `Performance.dfy` | drawdown, labelling, per-strategy profit |
| `Tables.dfy`, `Store.dfy`, `Ledger.dfy`, `Reconciliation.dfy`, `Booking.dfy`, `ExactlyOnce.dfy` | the database tables, the repositories' methods, and the exactly-once ledger |
| `Executor.dfy`, `SignalLog.dfy`, `Worker.dfy`, `WorkerSafety.dfy`, `CycleEffects.dfy` | order submission, stored signals and the trading cycle |
| `Alerts.dfy` | alert deduplication |
| `Basics.dfy`, `Sums.dfy`, `Sorting.dfy` | shared vocabulary |

How the model is laid out:

- Each imperative part of the engine is a class or a method with loops. Its contract
  equates the result, or the new state, with a function of the inputs or the old state;
  the lemmas are about that function.
- A database table is the sequence of its rows, with the unique keys and `WHERE` guards
  of the statements. An order's id is the position of its row. A step between two
  suspension points is atomic.
- The broker, the market and the clock are parameters: replies, quotes, ages and
  acknowledgements are arbitrary. A broker reply may also say at which database call
  handling that order raises.
- A square root is any function `root` whose value is non-negative and squares to its
  argument wherever that is non-negative.
- SHA-256 is taken to be injective, so an idempotency key is the tuple that is hashed.

## What the proofs show about the code

Where the code does not have a property one would expect, the exact condition under
which it does is proved:

- The backtest looks ahead when rows arrive newest first, which is the order its API
  caller passes them in (rac/market_data/repository.py:63, rac/api/main.py:547). It never
  does exactly when they arrive in time order (`NoLookAheadIffAscending`,
  `NewestFirstLooksAhead`).
- The reported final equity is taken before the forced close, so it overstates the final
  cash by that close's slippage and commission (`FinalEquityOverstatesCash`).
- Requests accept any non-negative slippage. A run on bars the engine accepts can end up
  owing more than one commission exactly when slippage exceeds 100 percent and the first
  entry can be paid for, which at a two percent stake means a commission of at most 98
  percent of the initial cash (`SolventIff`, `CanEnterIff`). The bars that do it come in
  time order, and the strategy itself decides to buy (`ExcessiveSlippageBankrupts`).
- RSI mirrors to 100 - RSI exactly when its window is not flat; the strategies still
  mirror on flat windows (`RsiReflect`, `StrategiesFlip`). RSI(14) looks at 14 closes and so at
  13 moves.
- The MACD signal line is the plain mean of nine MACD values; its smoothing loop has
  nothing left to run over.
- A fill keeps the books exactly when its quantity is not negative and it starts from the
  current cash (`FillAgreesIff`); execution without a broker takes its cash from the
  request (`LocalExecutionAgreesIff`).
- Execution without a broker has no guard per signal, and the idempotency key contains the
  quantity. A second request changes nothing exactly when it is refused, its order cannot
  be built, or its key already has its order and fill
  (`RepeatedExecutionChangesNothing`); a signal is filled twice exactly when two accepted
  requests differ in equity or order type (`FilledTwiceIff`, `EquityMovedFillsAgain`).
- A filled order can lack its fill row, exactly when applying the fill raised after the
  order was marked and was not applied since (`PassKeepsFillsIff`, `FilledHaveFillsIff`).
  A partial fill is final, like a full one.
- Order rows are always unique per signal, and per bought order and trigger. Submissions to
  the broker are, and each is on record, exactly when every accepted submission was
  recorded (`EachSubmittedOnceIff`). If the row of a close order is lost, the next cycle
  submits the same close again (`LostCloseIsSentAgainIff`; `LostCloseRun` is a whole run
  that does so).
- Every cycle stores its signals again under new ids, so the guard per signal is idle: it
  can only meet a row from an earlier cycle that lies on a later bar than all new ones
  (`OldRowOfferedIff`, `GuardIsIdle`). A bar is acted on again exactly when the position
  report, the age, the confidence and the review let it (`BarSubmittedAgainIff`).
- With a threshold under five percent the first drawdown breach can be silent
  (`FirstBreachAnnouncedIff`).
- The repository's README gives mean reversion a 3 percent target; the manifest in the
  code says 2 percent, and the model follows the code. The default strategy id of a backtest
  request, `trend_following_v1`, is one the engine refuses.

## Model

| member | source | states |
|---|---|---|
| Features.ComputeEma | rac/features/engine.py:107-115 | the smoothing loop computes the recursive exponential average seeded with the mean of the first `period` closes |
| Features.ComputeMacdSignal | rac/features/engine.py:124-134 | the signal line is the mean of the nine MACD values ending at the bar, none before bar 34 |
| Features.ComputeTechnicalV1 | rac/features/engine.py:9-49 | one point per bar of the time-sorted series, whatever order the bars come in |
| FeatureValues.ValuesMean | rac/features/engine.py:15-140 | from bar 34 on every field of a feature point, multiplied back to the closes: return, means, volatility, RSI as the share of rises, bands, %B, MACD, signal and histogram |
| FeatureValues.EmaMeans | rac/features/engine.py:107-115 | an average starts at the mean of the first closes and each later close moves it 2 / (period + 1) of the way |
| Sorting.SortOfAscending | rac/features/engine.py:15 | the stable sort leaves bars already in time order alone, ties included |
| Sorting.SortAscending | rac/features/engine.py:15 | the sort puts bars in time order |
| Mirror.RsiReflect | rac/features/engine.py:55-66 | reflecting the closes turns RSI into 100 - RSI if and only if the window is not flat; on a flat one both are 100 |
| Mirror.RsiInRange | rac/features/engine.py:55-66 | RSI lies in [0, 100] |
| Mirror.BbPctBReflect | rac/features/engine.py:76-101 | reflecting the closes turns %B into 1 - %B and keeps it defined or undefined |
| Mirror.SmaReflect | rac/features/engine.py:152-155 | the moving average reflects with the closes, for every window |
| Mirror.MacdReflect | rac/features/engine.py:106-121 | reflecting the closes negates MACD, for every length of history |
| Mirror.MacdHistReflect | rac/features/engine.py:123-140 | reflecting the closes negates the MACD histogram |
| Mirror.ValuesReflect | rac/features/engine.py:30-44 | what reflection does to a whole feature point, flat windows included |
| Mirror.ReversionFlips | rac/strategies/mean_reversion.py:70-115 | on mirrored values mean reversion gives the opposite direction with the same confidence |
| Mirror.MomentumFlips | rac/strategies/momentum.py:73-94 | on mirrored values momentum gives the opposite direction |
| Mirror.TrendFlips | rac/strategies/trend_following.py:68-79 | on mirrored values trend following gives the opposite direction |
| Mirror.StrategiesFlip | rac/strategies/mean_reversion.py:70-115 | every strategy answers every reflected series of positive closes with the opposite direction |
| Mirror.PipelineFlips | rac/strategies/momentum.py:36-71 | from raw bars in any order to signals: as many signals, at the same times, all flipped |
| PercentB.TailDeviation | rac/features/engine.py:76-80 | Samuelson's inequality for the last close of a window, and for a block of equal last closes |
| PercentB.PctBBound | rac/features/engine.py:95-101 | wherever %B is defined, (%B - 1/2)^2 is at most 19/16 |
| PercentB.FlatRunKeepsPctBInside | rac/features/engine.py:95-101 | fourteen equal closes keep %B strictly between 0.2 and 0.8 |
| PercentB.RsiAndPctBDecide | rac/strategies/mean_reversion.py:85-93 | on engine-made features RSI and %B alone decide mean reversion, in both directions |
| DecisionRules.ReversionDecidesIff | rac/strategies/mean_reversion.py:71-91 | mean reversion decides from bar 19 on if %B is defined, buys if and only if RSI is below 35 and %B below 0.2, and sells if and only if they are above 65 and 0.8 |
| DecisionRules.TrendDecidesIff | rac/strategies/trend_following.py:69-79 | on positive closes trend following decides from bar 4 on, and buys if and only if close, 3-mean and 5-mean descend in this order and the last close rose; selling is the dual |
| DecisionRules.MomentumDecidesIff | rac/strategies/momentum.py:74-94 | on positive closes momentum decides from bar 34 on, and buys if and only if the 12-average exceeds the 26-average, their spread exceeds the mean of its last nine, the last close rose and RSI is in [45, 72]; selling is the dual with [28, 55] |
| DecisionRules.NeverAgainstTheTrend | rac/strategies/momentum.py:88-94 | momentum never sells a series that only rose nor buys one that only fell |
| DecisionRules.RecoveryIsBought | rac/strategies/momentum.py:88-89 | a series that momentum buys at the first bar at which it can |
| Confidence.ReversionConfidenceReads | rac/strategies/mean_reversion.py:95-115 | one half plus a 140th per point of RSI and a 0.8th per unit of %B beyond the thresholds, at most one |
| Confidence.TrendConfidenceReads | rac/strategies/trend_following.py:81-97 | the confidence where each score is full or zero, less the penalty for volatility |
| Confidence.MomentumConfidenceReads | rac/strategies/momentum.py:97-115 | the confidence with a full or no histogram score, by RSI |
| MacdSign.EmaBetween | rac/features/engine.py:107-115 | an exponential average stays within the range of the closes seen |
| MacdSign.FastAboveMean | rac/features/engine.py:107-115 | on a non-decreasing series the 12-average is at least the running mean, strictly once something rose |
| MacdSign.MacdOfRising | rac/features/engine.py:118-121 | on a non-decreasing series of any length MACD is non-negative, and zero if and only if nothing ever rose |
| MacdSign.MacdOfFalling | rac/features/engine.py:118-121 | the dual for non-increasing series |
| Strategies.Generate | rac/strategies/mean_reversion.py:33-68 | a signal for each time-sorted row that carries the required features, none below the minimum number of rows |
| Strategies.ConfidenceIsValid | rac/strategies/models.py:39 | every confidence of every strategy is one the signal model accepts |
| BacktestPortfolio.Portfolio.constructor | rac/backtest/portfolio.py:19-31 | a portfolio starts with the initial cash, no position and no history |
| BacktestPortfolio.Portfolio.OpenPosition | rac/backtest/portfolio.py:37-66 | the whole new state, including the buys that are dropped |
| BacktestPortfolio.Portfolio.ClosePosition | rac/backtest/portfolio.py:68-101 | the whole new state, with the trade recorded |
| BacktestPortfolio.Portfolio.MarkToMarket | rac/backtest/portfolio.py:113-119 | one equity point is added and nothing else changes |
| BacktestEngine.Advance | rac/backtest/engine.py:27-74 | one bar: exits before signals, signals from the re-sorted window, then the equity point |
| BacktestEngine.Run | rac/backtest/engine.py:14-100 | the report of a run, or which of the two errors stops it |
| BacktestLedger.RunIsBalanced | rac/backtest/portfolio.py:47-101 | after every bar cash is initial cash plus trade profits less a commission per entry less the open cost |
| BacktestLedger.RunIsSolvent | rac/backtest/portfolio.py:47-86 | up to 100 percent slippage cash never falls below minus one commission, nor below zero while a positive quantity is held |
| BacktestLedger.ReportedAverages | rac/backtest/metrics.py:20-25 | times their number, the average win and loss of a report are what all its wins and all its losses made in percent |
| Solvency.SolventIff | rac/backtest/portfolio.py:47-86 | over all bars the engine accepts a request stays solvent if and only if its strategy is refused, slippage is at most 100 percent, or the first entry cannot be paid for |
| Solvency.ExcessiveSlippageBankrupts | rac/backtest/engine.py:27-74 | otherwise bars in time order, on which the strategy itself buys, leave a debt beyond one commission |
| Solvency.OpeningBuys | rac/strategies/trend_following.py:69-79 | five rising closes make trend following buy, nineteen equal ones and a fall mean reversion, and neither earlier |
| Solvency.CanEnterIff | rac/strategies/trend_following.py:12 | the first entry can be paid for if and only if the commission is at most 98 percent of the cash |
| BacktestLedger.FinalEquityOverstatesCash | rac/backtest/engine.py:76-84 | reported final equity exceeds final cash by exactly the forced close's slippage and commission |
| BacktestLedger.ReportReconciles | rac/backtest/engine.py:76-100 | nothing is left open, one equity point per bar, and final cash is explained by gross profit, gross loss and commissions |
| Reports.ReportedDrawdown | rac/backtest/metrics.py:45-57 | the drawdown a backtest reports is the largest loss between two points of the curve it reports, for non-negative equity |
| Reports.ReportReadBack | rac/backtest/metrics.py:13-42 | every other number of the report belongs to the curve and the trades it lists |
| TradeSpans.RunCovers | rac/backtest/engine.py:27-74 | after any bars and any decisions, trades cover ordered spans that do not overlap, each exit being the first close to touch a level or the first bar decided as a sell |
| TradeSpans.ReportedTradesAreFirstCrossings | rac/backtest/engine.py:31-82 | the same for the trades a finished backtest reports, with the forced close |
| TradeSpans.HeldAtLeastOneBar | rac/backtest/portfolio.py:96 | every exit except the forced one is at least one bar after its entry |
| TradeSpans.ExitBoundsPnl | rac/backtest/portfolio.py:77-96 | a take-profit earns at least the target net of slippage, a stop-loss at most the stop net of slippage, less one commission |
| TradeSpans.EntersIff | rac/backtest/portfolio.py:47-53 | a bar opens a position if and only if it is decided as a buy, nothing is held after its stop check, and the stake is positive and paid for with its commission |
| TradeSpans.ReportedExitsPay | rac/strategies/trend_following.py:10-11 | without costs every reported take-profit makes at least two percent and every stop-loss loses at least one |
| WalkForward.WalkForwardIsSinglePass | rac/backtest/engine.py:35-49 | on time-ordered bars the decision at each bar is the latest signal of one pass over the whole series |
| WalkForward.RunIsSinglePass | rac/backtest/engine.py:27-74 | so the whole run is the run driven by one pass |
| WalkForward.EngineIgnoresLaterBars | rac/backtest/engine.py:36-39 | the state after n bars is that of a run over those n bars alone |
| WalkForward.NoLookAheadIffAscending | rac/features/engine.py:15 | the newest bar of every window is the current one if and only if the bars come in time order |
| WalkForward.NewestFirstLooksAhead | rac/market_data/repository.py:55-66 | on rows that come newest first each decision rests on a bar from the future |
| Metrics.ComputeMaxDrawdown | rac/backtest/metrics.py:45-57 | the one-pass loop computes the worst loss against the running peak |
| Metrics.MaxDrawdownIsLargestDrop | rac/backtest/metrics.py:45-57 | for non-negative equity that is the largest loss over all ordered pairs, attained, and within [0, 100] |
| Metrics.StoredDrawdownsAgree | rac/portfolio/repository.py:11-25 | the worst drawdown stored snapshot by snapshot equals the backtest statistic of the same history |
| Metrics.WinsAndLossesPartition | rac/backtest/metrics.py:19-29 | wins and losses partition the trades in number, and gross profit less gross loss is all they made |
| Metrics.StatsReadBack | rac/backtest/metrics.py:13-42 | return, win rate, profit factor and both averages lead back to the equity, the trade counts and the sums they summarise |
| Labeler.LabelSignal | rac/ml/labeler.py:17-55 | the search loops compute the label of the first bar to touch a barrier |
| Labeler.DecidedAtFirstTouch | rac/ml/labeler.py:37-50 | the first touching bar within the horizon decides, as a win whenever it reaches the target |
| Labeler.SellMirrorsBuy | rac/ml/labeler.py:34-55 | a sell is labelled as a buy over the bars reflected about the entry price: outcome, exit bar and profit |
| Labeler.DecidedLabelIsFinal | rac/ml/labeler.py:32-50 | a win or loss survives appended bars and a longer horizon |
| Labeler.TimeoutEndsBetweenBarriers | rac/ml/labeler.py:52-55 | a timeout over consistent bars ends strictly between minus the stop and the target |
| Labeler.LabelFailsIff | rac/ml/labeler.py:32-52 | labelling raises if and only if the horizon leaves no bars |
| FirstPassage.BuyLabelIff | rac/ml/labeler.py:32-41 | by highs and lows: a buy wins, loses or times out if and only if the first bar to leave the two levels does so by the target, by the stop alone, or never |
| FirstPassage.SellLabelIff | rac/ml/labeler.py:43-50 | the same for a sell, with the levels exchanged |
| FirstPassage.LabelPnl | rac/ml/labeler.py:37-55 | a win earns the target, a loss minus the stop, a timeout what the last close of the horizon made |
| FirstPassage.StoredLabelIff | rac/ml/labeler.py:97-135 | the label a batch stores is the first passage of the bars after that signal |
| LabelService.SignalLabeler.Run | rac/ml/labeler.py:64-142 | the labels and counts after a batch |
| LabelService.LabelsInsideBatch | rac/ml/labeler.py:97-135 | each labelable signal of a batch gets its own label, and no other signal does |
| LabelService.BatchTakesOldest | rac/ml/labeler.py:72-95 | a batch holds the oldest eligible signals, all of them or as many as the limit |
| LabelService.RunAccounts | rac/ml/labeler.py:72-142 | earlier labels stay, the counts cover the batch, and one row is added per label |
| Performance.Aggregate | rac/strategies/performance.py:10-47 | the dictionary loop and the sort compute the report |
| Performance.AggregatedAccounts | rac/strategies/performance.py:16-47 | a row for each strategy with fills and no other, with its totals, in order of id |
| Performance.ReportedRowReads | rac/strategies/performance.py:16-47 | each row gives the number and notional of its strategy's buys and sells, apart |
| Performance.OrderOfFillsIsIrrelevant | rac/strategies/performance.py:10-47 | reordering the fills does not change the report |
| Performance.ProfitsAddUpToCash | rac/strategies/performance.py:54-70 | on every reachable ledger the profits of all strategies add up to the cash gained, and each fill is counted once |
| Store.PaperStore.InsertOrder | rac/orders/repository.py:16-76 | a new key adds a row, an existing key returns its row unchanged |
| Store.PaperStore.MarkFilled | rac/orders/repository.py:205-223 | only a submitted order is marked |
| Store.PaperStore.MarkCancelled | rac/orders/repository.py:225-236 | only a submitted order is cancelled |
| Store.PaperStore.ApplyPaperFill | rac/portfolio/repository.py:50-134 | the fill row, the upserted position and the snapshot, or nothing for an order already filled |
| Store.PaperStore.RecordMarkToMarket | rac/portfolio/repository.py:184-229 | every valuation is written and one snapshot added |
| Store.PaperStore.MarkToMarket | rac/portfolio/service.py:26-104 | quoted positions are revalued, with positions but no quote nothing is stored, and the result lists every position and error |
| Store.PaperStore.ReconcileOrder | rac/orders/reconciliation.py:53-118 | what one broker reply, raising anywhere, does to the store |
| Store.PaperStore.ReconcilePending | rac/orders/reconciliation.py:45-126 | the store after a pass and the counts it reports |
| Store.StaleRowIsEnough | rac/orders/reconciliation.py:46-77 | handling an order by the row read at the start of the pass does what its current row would |
| Tables.PendingIds | rac/orders/repository.py:160-172 | exactly the submitted orders with a broker id, oldest first |
| Tables.LatestFilledBuy | rac/orders/repository.py:78-91 | the newest filled buy of a symbol, none if there is none |
| Ledger.AverageKeepsCost | rac/portfolio/repository.py:87-93 | the weighted average keeps quantity times price additive until nothing is left |
| Ledger.UpsertEffect | rac/portfolio/repository.py:82-96 | the upsert moves one position's quantity and cost and the environment's total by the same change of cost |
| Ledger.FillMovesBookValue | rac/portfolio/repository.py:61-134 | a fill changes cash plus cost only when it brings its symbol to zero, by that round's sells minus buys |
| Ledger.FillAgreesIff | rac/portfolio/repository.py:61-134 | a new fill keeps the books if and only if its quantity is not negative and it starts from the current cash |
| Ledger.FillKeepsOthers | rac/portfolio/repository.py:68-134 | a fill leaves the books of every other environment alone |
| Ledger.MarkToMarketKeepsBooks | rac/portfolio/service.py:30-95 | marking to market moves no cash, quantity or cost in any environment |
| Ledger.FillNavIsRealised | rac/portfolio/repository.py:105-133 | the value stored with a fill is the starting cash plus the profit of all completed rounds |
| Ledger.MarkToMarketNav | rac/portfolio/service.py:53-95 | with every position quoted the stored value is starting cash plus realised plus unrealised profit |
| Ledger.ReportIsStored | rac/portfolio/service.py:83-104 | the value reported is cash plus the cost of quoted positions plus the gains reported; it is the value stored unless no position has a quote; degraded means one has none |
| Ledger.ValuedPositionReads | rac/portfolio/service.py:56-82 | what a mark-to-market reports about one position, with and without a quote |
| Ledger.NewSnapshotKeepsDrawdowns | rac/portfolio/repository.py:11-25 | each stored drawdown keeps the worst one equal to the statistic of the whole history |
| Reconciliation.PassAccountsForEveryOrder | rac/orders/reconciliation.py:50-126 | a pass accounts for each order, and the number reported pending is the number still submitted without error |
| Reconciliation.PassKeepsFillsIff | rac/orders/reconciliation.py:62-77 | every filled order keeps a fill row if and only if the pass loses none between marking and applying |
| Reconciliation.WholePassKeepsFillsIff | rac/orders/reconciliation.py:45-77 | the same for the pass over all pending orders |
| Booking.AnswerIsBooked | rac/orders/reconciliation.py:58-77 | an executed order is booked at the broker's quantity and price, or its own where the broker gives none: in its row, one fill, the position, its market value and cash |
| Booking.PassBooks | rac/orders/reconciliation.py:50-77 | the same, in row and fill, for every pending order of a pass |
| ExactlyOnce.FilledHaveFillsIff | rac/orders/reconciliation.py:62-77 | over every run, every filled order has a fill row if and only if no fill was lost without being applied since |
| ExactlyOnce.FillKeepsSound | rac/portfolio/repository.py:68-134 | applying a fill from current cash keeps books, keys and drawdowns of all environments |
| ExactlyOnce.LedgerOfEveryRun | rac/orders/reconciliation.py:50-77 | over every interleaving: quantities are signed sums of distinct fills, cash and book value follow from the fills, stored drawdowns from the history |
| ExactlyOnce.HistoryMovesForward | rac/orders/repository.py:205-236 | between any two moments a status leaves submitted at most once, an execution is written at most once, and no order or fill disappears |
| ExactlyOnce.PassIsRun | rac/orders/reconciliation.py:50-118 | a pass is a run of single answers, so interleaved passes are covered |
| Executor.ExecuteLocally | rac/orders/executor.py:39-157 | the store after execution without a broker; a refusal or an error changes nothing |
| Executor.IntentAmounts | rac/orders/executor.py:159-187 | an order commits the signal's share of equity at its close, with stop and target at the signal's percentages on the losing and winning side |
| Executor.LocalExecutionBooks | rac/orders/executor.py:132-151 | a first execution adds one whole fill at the signal's close and one snapshot with the request's cash less what it pays out |
| Executor.ExecutionChangesNothingIff | rac/orders/executor.py:39-151 | in any state a request changes nothing if and only if it is refused, its order cannot be built, or the order is there with its fill |
| Executor.RepeatedExecutionChangesNothing | rac/orders/executor.py:132-151 | the same for an arbitrary second request after an arbitrary first one |
| Executor.FilledTwiceIff | rac/orders/executor.py:163-191 | a signal not executed before is filled twice by two accepted requests if and only if they differ in equity or order type |
| Executor.EquityMovedFillsAgain | rac/orders/executor.py:163-164 | an input that does so |
| Executor.LocalExecutionAgreesIff | rac/orders/executor.py:142-151 | execution without a broker keeps the books if and only if the request names the ledger's cash |
| Worker.Cycler.ExecuteAtBroker | rac/orders/executor.py:93-130 | a submission is recorded as sent, and as an order if the insert succeeds |
| Worker.Cycler.MaybeClosePosition | rac/worker/loop.py:401-462 | the submission and order a touched stop or target leads to |
| Worker.Cycler.ProcessSymbol | rac/worker/loop.py:257-398 | stop and target first, then the first candidate that passes every check |
| Worker.Cycler.RunCycle | rac/worker/loop.py:103-254 | the whole cycle, with the kill switch and a failing account request |
| CycleEffects.CycleSettlesOrders | rac/worker/loop.py:130-143 | every order pending at the start of a cycle leaves it filled, cancelled or submitted as the broker reports, whatever the kill switch and the account say |
| CycleEffects.CycleBooksFills | rac/worker/loop.py:130-143 | every pending order reported executed leaves booked as reported |
| CycleEffects.CycleFills | rac/worker/loop.py:130-143 | and with a fill row |
| CycleEffects.CycleSnapshots | rac/worker/loop.py:145-161 | a cycle stores a snapshot per new fill and one valuation: none in live mode, nor when no position has a quote |
| CycleEffects.EveryCycleValues | rac/worker/loop.py:145-161 | in every run outside live mode each cycle leaves quoted positions at their quotes, and a snapshot worth starting cash plus realised plus unrealised profit once all have one |
| WorkerSafety.EachSubmittedOnceIff | rac/worker/loop.py:355-451 | over every run order rows are unique per signal and per bought order and trigger; submissions are too, each on record, if and only if every accepted submission was recorded |
| WorkerSafety.EachSubmittedOnce | rac/worker/loop.py:355-398 | so if no insert fails, at most one order and submission per signal and per bought order and trigger |
| WorkerSafety.TriedSafeIff | rac/worker/loop.py:308-398 | trying the candidates of a symbol keeps this if and only if the one submitted is recorded |
| WorkerSafety.MaybeClosedSafeIff | rac/worker/loop.py:411-462 | a close check keeps this if and only if a close it submits is recorded |
| WorkerSafety.LostCloseIsSentAgainIff | rac/worker/loop.py:423-462 | from one cycle to the next the same close is submitted again if and only if its row was lost |
| WorkerSafety.LostCloseRun | rac/worker/loop.py:423-462 | a run from the empty store that submits one close twice |
| SignalLog.SignalTable.InsertSignals | rac/strategies/repository.py:15-61 | every signal becomes a new row |
| SignalLog.SignalTable.LatestSignal | rac/strategies/repository.py:63-100 | a row of the chart that no other is newer than, none only if the chart has none |
| SignalLog.OldRowOfferedIff | rac/worker/loop.py:309-313 | the signal offered is from an earlier cycle if and only if an earlier row lies on a later bar than the whole batch |
| SignalLog.GuardIsIdle | rac/worker/loop.py:355-358 | otherwise the guard per signal stops nothing |
| SignalLog.BarSubmittedAgainIff | rac/worker/loop.py:308-398 | of two rows for one bar the second is submitted as well if and only if it passes every check but that guard |
| WorkerSafety.KillSwitchStopsOrders | rac/worker/loop.py:198-209 | with the kill switch on a cycle places and submits nothing |
| WorkerSafety.CyclePlacesAtMostOnePerSymbol | rac/worker/loop.py:308-398 | a cycle places at most one strategy order each time it watches a symbol |
| WorkerSafety.StrategyOrderRespectsPosition | rac/worker/loop.py:51-64 | a strategy order is fresh and confident enough, buys only without a position and sells only with one |
| WorkerSafety.StrategyOrderCommits | rac/worker/loop.py:308-398 | the order placed is that of the first candidate that passes: approved, acknowledged, at its close, for its share of equity |
| WorkerSafety.CloseOrderIsTriggered | rac/worker/loop.py:67-77 | a close order belongs to the newest filled buy, names the level the price has reached, and is submitted at that price under the broker's id |
| WorkerSafety.WorkerKeepsLedger | rac/worker/loop.py:130-161 | over every run of cycles and stream passes, failing inserts included, the ledger stays exact |
| Alerts.AlertService.OnKillSwitchActive | rac/notifications/service.py:24-32 | the new state; kill-switch messages go on alternating and the last one is an activation |
| Alerts.AlertService.OnKillSwitchReset | rac/notifications/service.py:34-38 | the new state; kill-switch messages go on alternating and an activation is due next |
| Alerts.AlertService.OnDrawdown | rac/notifications/service.py:49-61 | the new state; no breach ends a full step past the last alert, which never falls during one |
| Alerts.KillSwitchAlternates | rac/notifications/service.py:24-38 | over every run kill-switch messages strictly alternate, starting with an activation |
| Alerts.EpisodeAlertsAreFew | rac/notifications/service.py:49-61 | while the threshold stays breached each alert is a full step deeper, and no reading is a full step past the last alert |
| Alerts.RunRemembers | rac/notifications/service.py:24-61 | over every run the service remembers the drawdown announced last, forgets it under the threshold, and knows the kill switch |
| Alerts.AnnouncedIff | rac/notifications/service.py:24-61 | the next event is announced, with its own figure, if and only if the switch changes or a breach is five percent beyond what stands |
| Alerts.FirstBreachAnnouncedIff | rac/notifications/service.py:50-56 | after a quiet spell a breach is announced if and only if it is at least five percent |

## Left out

- Labeler.LabelOf: does not round a timeout's profit to four places, because exact reals are used throughout.
- Metrics.StatsOf: has neither the Sharpe ratio nor the final rounding to four places.
- Tables.FillApplied: does not round to the columns' eight decimals and does not store `pnl_daily`, which depends on the calendar day.
- Tables.MarkedToMarket: visits positions in table order instead of by symbol; exact sums do not depend on it.
- Executor.IntentOf: takes the risk manager's verdict as an input and does not round quantity and price to eight decimals inside the idempotency key, so `FilledTwiceIff` takes two quantities for different that agree to eight decimals.
- Worker.AfterCycle: does not model the daily report, relabelling and retraining, alerts, audit events and the cancel requests of the kill switch, none of which touches orders or the ledger; exceptions of whole repository reads are not modelled.
- ExactlyOnce.LedgerOfEveryRun: assumes the broker reports no negative filled quantity; `FillAgreesIff` shows this is needed.
- Basics.Upper: covers ASCII letters only.
- IEEE floating point and conversion between float and Decimal.
- Trade outcomes, which are recorded again on replay.
- The portfolio consistency check, discovery, history loading, pagination and worker configuration.
- HTTP, WebSocket, Telegram and language-model clients, and the dashboard.
- The 48-character truncation of the broker's order key, and races between the API and worker processes.
