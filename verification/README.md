# autotrader core in Dafny

A model of the decision core of autotrader, a Python stock-trading toolkit
that turns technical indicators and fundamental filters into buy and sell
decisions, backtests them, and places orders with a demo or a Degiro broker.
The model follows the path from an indicator's raw condition to a backtested
profit, plus the bookkeeping and parsing helpers around it:

- **Signal shaping** (`BaseIndicator`): `set_signal`, `set_signal_osc`,
  `fill_signal` and `get_status` as single-pass state machines over integer
  arrays, with exact characterisations of their outputs.
- **Indicators** (`AroonBasic`, `EmaCross`, `Kvo`, `MacdHistogram`,
  `MovingAverageCross`, `Stochastic`, `TripleMovingAverageCross`,
  `UltimateCrossMa`, `UltimateCrossEma`, `UltimateSimpleEma`, with the
  shared masks in `NumpyOps` and `UltimateGap`): parameter validation, the
  mask-to-raw rules, the signal shift, and what the shaped signal means
  (where it buys and where it sells). The tulipy outputs are inputs.
- **Backtesting and optimisation** (`BackTesting`, `Optimizer`,
  `BuildIndicators`): the wallet/position ledger, the argmax sweep that skips
  ValueError, and the candidate parameter tuples.
- **Strategies** (`StrategyBase`, `StrategyGroup`, `StrategySignalFilter`,
  `StartStrategy`, `DateRange`): order sizing and the buy/sell predicates, the
  group-size filter, the on-run counter, strategy-list expansion and the
  weekday date generator.
- **Brokers** (`BrokerBase`, `DemoBroker`): stock-size sums over order lists,
  portfolio items, sell-to-buy linking, commission and price rules, order
  guards, exchange hours and the expiry of limit orders.
- **Data helpers** (`StringCompare`, `DictHelper`, `StockSchema`, `Yahoo`,
  `DegiroData`, `DegiroConfig`, over the JSON values of `PyJson`): the
  indel-Levenshtein ratio, nested key search, statement-figure lookups,
  Yahoo period parsing and symbol mapping, and the Degiro converters and id
  lookups.
- **Filters** (`BaseFilter`, `Piotroski`, `StockIsHot`, `StockIsHotSecure`,
  `PriceTarget`): the F-score, the slope-change hotness score, its secure
  variant and the analyst price-target score, each classified against buy and
  sell thresholds.

Python exceptions are values of `Wrappers.PyError` carried in a `Result`:
each raising path of the modelled code is an error case, and an exception
raised inside a foreign routine (tulipy, numpy) is a parameter of the model. Prices are `real`,
dates are integers (day numbers or seconds), and Python's `int()` truncation
toward zero, `math.ceil` and the zero-divisor check of `/` are written out in `PyMath`. Where the code and its
comments disagree the model follows the code: for instance the Piotroski
share test passes when the share count did not fall (`>=`), as the code
compares, although its comment speaks of no new shares being issued.

## Model

| member | source | states |
|---|---|---|
| BaseIndicator.SetBars | autotrader/indicators/base_indicator.py:94-106 | a six-column table replaces all six buffers column by column (close, open, volume, high, low, date) with float buffers of equal length; any other argument leaves the indicator as it was, including buffers that are still None |
| BaseIndicator.AppendValueToBars | autotrader/indicators/base_indicator.py:108-120 | a missing price changes nothing; a price is appended as the new last row of float buffers; appended to buffers that are still None it yields object buffers holding a None and then the price (np.append(None, x)); after any price the indicator has bars |
| BaseIndicator.AppendRow | autotrader/indicators/base_indicator.py:114-120 | np.append grows each of the six buffers by exactly one element, keeps every earlier element, puts the price field at the end and keeps the buffers aligned |
| BaseIndicator.ScanStatus | autotrader/indicators/base_indicator.py:223-238 | the status loop ends on a marker exactly when the signal holds one, and then on the most recent one; otherwise 0 when the signal holds a hold and NO_SIGNAL (10) when it holds neither |
| BaseIndicator.GetStatus | autotrader/indicators/base_indicator.py:215-238 | NO_SIGNAL (10) for an empty signal; 2 when the last element is a buy and -2 when it is a sell |
| BaseIndicator.GetStatusMostRecentMarker | autotrader/indicators/base_indicator.py:223-238 | a signal not ending in a marker gets its most recent marker, else 0 when it holds a zero; a signal of -1/0/1 values never gets NO_SIGNAL |
| BaseIndicator.CrossRunRule | autotrader/indicators/base_indicator.py:249-263 | from any previous symbol, the set_signal loop's output at every index follows the crossing rule on the input alone |
| BaseIndicator.SetSignalCrossing | autotrader/indicators/base_indicator.py:242-264 | on a 0/1 array set_signal keeps the length and emits 1 exactly where a run of ones starts, -1 exactly at the zero after a run of ones, and 0 everywhere else (both directions of each) |
| BaseIndicator.OscRunRule | autotrader/indicators/base_indicator.py:273-283 | from either start state, the running sum of the loop's output stays in {0, 1} and each output is a buy passed while flat or a sell passed while holding |
| BaseIndicator.SetSignalOscAlternates | autotrader/indicators/base_indicator.py:266-283 | on a -1/0/1 array the non-zero outputs of set_signal_osc alternate starting with a buy (running sum in {0, 1}); a sell while flat and a 0 or 1 while a position is open become 0 |
| BaseIndicator.FillSignalRegions | autotrader/indicators/base_indicator.py:285-307 | fill_signal writes, at every index, what the region reading of its input gives: every -1 is kept and none is added; a 0 becomes 1 exactly when a buy region is open there (opened by a 1 read outside a region right after a 0 or at the start, closed only by the next 1, not by -1); a 1 right after the 1 that closed a region becomes 0; other symbols are copied |
| BaseIndicator.FillStateIsRegion | autotrader/indicators/base_indicator.py:292-307 | the loop's is_fill before index k is whether a region is open after the first k symbols, and prev_sym is the symbol before k (0 at the start) |
| BaseIndicator.SetSignal | autotrader/indicators/base_indicator.py:242-264 | set_signal keeps the array's length; which entries become buys and sells is stated by SetSignalCrossing |
| BaseIndicator.SetSignalOsc | autotrader/indicators/base_indicator.py:266-283 | set_signal_osc keeps the array's length; the alternation of its markers is stated by SetSignalOscAlternates |
| BaseIndicator.FillSignal | autotrader/indicators/base_indicator.py:285-307 | fill_signal keeps the array's length; its regions are stated by FillSignalRegions |
| BaseIndicator.SetSignalOfCondition | autotrader/indicators/base_indicator.py:242-264 | set_signal on the 0/1 array of a condition buys exactly where the condition starts to hold (or holds at the first element) and sells exactly at the first element after it stops holding |
| BaseIndicator.SetSignalOfAbove | autotrader/indicators/base_indicator.py:242-264 | set_signal on the crossover array of two series (compared from a common offset) buys exactly where the first comes to lie above the second (or already does at the first element) and sells exactly where it stops |
| BackTesting.Totals | autotrader/tool/indicators/back_testing.py:75-88 | the reference totals have one entry per signal element; RunIsLedger and MirrorsTotals tie them to the loop |
| BackTesting.Buy | autotrader/tool/indicators/back_testing.py:77-81 | the buy branch sets the position to the truncated quotient of the wallet entry by the price, leaves entries before the index alone, and from the index on takes price*n*(1+rate)-fixed from the wallet and adds price*n to the portfolio |
| BackTesting.Sell | autotrader/tool/indicators/back_testing.py:82-86 | the sell branch leaves entries before the index alone, from the index on adds price*position*(1-rate)-fixed to the wallet and zeroes the portfolio, and empties the position |
| BackTesting.Trade | autotrader/tool/indicators/back_testing.py:76-86 | one loop iteration never touches entries before its index and leaves the books unchanged when the signal is neither 1 nor -1 |
| BackTesting.TradeMirrors | autotrader/tool/indicators/back_testing.py:76-86 | one suffix-rewriting iteration keeps the arrays equal to the per-index ledger run extended by one step (the loop invariant linking the array code to the ledger) |
| BackTesting.BuyMirrors | autotrader/tool/indicators/back_testing.py:77-81 | the buy branch keeps the arrays equal to the ledger run extended by a buy step |
| BackTesting.SellMirrors | autotrader/tool/indicators/back_testing.py:82-86 | the sell branch keeps the arrays equal to the ledger run extended by a sell step |
| BackTesting.BacktestPortfolio | autotrader/tool/indicators/back_testing.py:53-88 | the array loop with wallet starting at initial_capital and an empty portfolio returns total = portfolio + wallet equal to the reference ledger's totals, and raises ZeroDivisionError exactly when some buy meets a zero price |
| BackTesting.RunExtends | autotrader/tool/indicators/back_testing.py:76-86 | a ledger run followed by the step at the next index is a run one index longer |
| BackTesting.MirrorsTotals | autotrader/tool/indicators/back_testing.py:87-88 | arrays that mirror a complete run sum, elementwise, to the reference totals |
| BackTesting.RunIsLedger | autotrader/tool/indicators/back_testing.py:75-86 | every state of a step-by-step run is the reference ledger after that many indices |
| BackTesting.PrefixAgree | autotrader/tool/indicators/back_testing.py:76-86 | two signals that agree on their first n entries give the same ledger after n indices |
| BackTesting.TotalsCausal | autotrader/tool/indicators/back_testing.py:79-85 | the totals of a signal prefix are the prefix of the totals, so a trade at index i changes only totals at indices >= i |
| BackTesting.TotalsPiecewiseConstant | autotrader/tool/indicators/back_testing.py:76-88 | at an index whose signal is neither 1 nor -1 the total repeats the previous total, or the initial capital at index 0 |
| BackTesting.AllHoldConstant | autotrader/tool/indicators/back_testing.py:56-57 | a signal without buys and sells keeps every total at the initial capital |
| BackTesting.HoldLedger | autotrader/tool/indicators/back_testing.py:75-86 | without buys and sells the ledger stays at its starting state for every prefix |
| BackTesting.BuyEffect | autotrader/tool/indicators/back_testing.py:77-81 | at a buy the position becomes int(cash/price), the wallet changes by -(price*n*(1+rate) - fixed), so the fixed fee is credited, and the portfolio grows by price*n |
| BackTesting.BuyStepFacts | autotrader/tool/indicators/back_testing.py:77-81 | the same three effects for one ledger step of a buy |
| BackTesting.ZeroFeeBuyKeepsTotal | autotrader/tool/indicators/back_testing.py:79-81 | with both fees zero the total at a buy equals the total before it |
| BackTesting.SellEffect | autotrader/tool/indicators/back_testing.py:82-86 | at a sell the portfolio and the position become zero and the wallet moves by price*position*(1-rate) - fixed; a sell with no position still costs the fixed fee |
| Optimizer.Prepare | autotrader/tool/indicators/optimizer.py:76-81 | bars the indicator already has only get the live price appended; an indicator without bars takes a six-column stock_bars (plus the price), and otherwise the price alone turns its None buffers into object buffers; it stays without bars only with neither |
| Optimizer.Profit | autotrader/tool/indicators/optimizer.py:85-87 | the profit fails exactly when the signal is empty, the shift runs past the prices (IndexError) or a buy meets a zero price (ZeroDivisionError) |
| Optimizer.IdleSignalEarnsNothing | autotrader/tool/indicators/optimizer.py:85-87 | a signal without buys and sells has profit exactly 0, the last total being the initial capital |
| Optimizer.CalcProfit | autotrader/tool/indicators/optimizer.py:82-90 | an error of set_parameters propagates before anything else; on buffers that are still None with the error the foreign routines raise there (a parameter of the strategy), on object buffers with the error they raise on those; a result needs float bars and carries get_status of the generated signal and the backtest profit |
| Optimizer.SkipKeepsBest | autotrader/tool/indicators/optimizer.py:61-63 | a failing candidate leaves the best-so-far promise intact |
| Optimizer.ScoreKeepsBest | autotrader/tool/indicators/optimizer.py:52-60 | folding in a scored candidate (strict > to take over profit and parameters, status always taken) keeps the best-so-far promise |
| Optimizer.OptimizeLast | autotrader/tool/indicators/optimizer.py:50-63 | the sweep over n+1 results is the sweep over n results followed by one loop step on the last result |
| Optimizer.OptimizeOkIff | autotrader/tool/indicators/optimizer.py:61-63 | the sweep fails exactly when some candidate raises something other than ValueError |
| Optimizer.OptimizeFirstFatal | autotrader/tool/indicators/optimizer.py:50-63 | a failed sweep carries the error of the first candidate that raises something other than ValueError |
| Optimizer.OptimizeBest | autotrader/tool/indicators/optimizer.py:47-64 | a successful sweep returns a profit no scored candidate beats (the floor -2000 or some candidate's profit), the parameters of the first candidate to reach it, and the status of the last scored candidate |
| Optimizer.OptimizeSpec | autotrader/tool/indicators/optimizer.py:47-64 | the three facts together: fails iff a non-ValueError is raised, with the first such error, else the best outcome |
| Optimizer.OptimizeErrSticks | autotrader/tool/indicators/optimizer.py:61-63 | once an exception has ended the sweep, later candidates change nothing |
| Optimizer.FoldStep | autotrader/tool/indicators/optimizer.py:50-63 | one more candidate extends the sweep by one step: a score is folded in, a ValueError is skipped, any other error ends it |
| Optimizer.RunOptimizer | autotrader/tool/indicators/optimizer.py:36-64 | run_optimizer fails iff some candidate raises a non-ValueError, with the first such error; otherwise it returns the best profit, the first parameters reaching it and the last scored status |
| Optimizer.RunCandidate | autotrader/tool/indicators/optimizer.py:66-87 | one calc_profit call prepares exactly the bars the next candidate sees and yields what the candidate yields on its own bars |
| Optimizer.IsBestUnique | autotrader/tool/indicators/optimizer.py:47-64 | the promised outcome is unique: two outcomes meeting it are equal |
| Optimizer.NothingScored | autotrader/tool/indicators/optimizer.py:47-49 | with no candidates, or when every candidate fails, the result is (-2000, None, NO_SIGNAL) |
| Optimizer.BarsGrowPerCandidate | autotrader/tool/indicators/optimizer.py:76-81 | an indicator that already has bars sees the live price appended once per candidate: candidate k sees the original bars followed by k+1 copies |
| Optimizer.MissingBarsBecomeObjects | autotrader/tool/indicators/optimizer.py:76-81 | an indicator without bars given no usable stock_bars but a live price holds object buffers from the first candidate on: a leading None and then one copy of the price per candidate so far |
| Optimizer.MissingBarsNeverScore | autotrader/tool/indicators/optimizer.py:76-84 | on such an indicator no candidate is scored: each yields its set_parameters error or the foreign routines' error on object buffers |
| Optimizer.NoBarsStay | autotrader/tool/indicators/optimizer.py:76-81 | an indicator offered neither a six-column stock_bars nor a live price keeps its None buffers before every candidate |
| Optimizer.NoBarsNeverScore | autotrader/tool/indicators/optimizer.py:76-84 | on such an indicator no candidate is scored: each yields its set_parameters error or the foreign routines' error on None buffers |
| BuildIndicators.Select | autotrader/tool/indicators/build_indicators_full.py:48-50 | an indicator of the registry is built exactly when its SHORT_NAME or 'ALL' is requested, in registry order; with 'ALL' the whole registry |
| BuildIndicators.HalfLookBack | autotrader/tool/indicators/build_indicators_full.py:56-62 | int(look_back/2) truncates toward zero, also for a negative look_back |
| BuildIndicators.Range | autotrader/tool/indicators/build_indicators_full.py:56-62 | range(lo, hi) holds hi-lo consecutive values from lo, none when hi <= lo |
| BuildIndicators.BlocksMembers | autotrader/tool/indicators/build_indicators_full.py:55-59 | the product blocks for a list of heads hold exactly the tuples whose head is one of them and whose tail is a k-tuple over the values |
| BuildIndicators.ProductMembers | autotrader/tool/indicators/build_indicators_full.py:55-59 | itertools.product(vs, repeat=k) holds exactly the k-tuples over vs |
| BuildIndicators.BlocksCount | autotrader/tool/indicators/build_indicators_full.py:55-59 | there is one block of the product's size per head |
| BuildIndicators.ProductCount | autotrader/tool/indicators/build_indicators_full.py:55-59 | product(vs, repeat=k) has len(vs) to the power k tuples |
| BuildIndicators.PrefixSorted | autotrader/tool/indicators/build_indicators_full.py:55-59 | putting one head in front of sorted tuples keeps them sorted |
| BuildIndicators.JoinSorted | autotrader/tool/indicators/build_indicators_full.py:55-59 | two sorted runs joined where the first ends below the second stay sorted |
| BuildIndicators.BlocksFirst | autotrader/tool/indicators/build_indicators_full.py:55-59 | the first tuple of the blocks starts with the first head |
| BuildIndicators.BlocksSorted | autotrader/tool/indicators/build_indicators_full.py:55-59 | blocks over increasing heads of a sorted product are sorted |
| BuildIndicators.ProductSorted | autotrader/tool/indicators/build_indicators_full.py:55-59 | over an increasing range the product comes in lexicographic order |
| BuildIndicators.CombinationsSound | autotrader/tool/indicators/build_indicators_full.py:61-64 | every tuple of combinations(vs, k) over an increasing vs is a strictly increasing k-tuple over vs |
| BuildIndicators.CombinationsComplete | autotrader/tool/indicators/build_indicators_full.py:61-64 | every strictly increasing k-tuple over an increasing vs is among combinations(vs, k) |
| BuildIndicators.CombinationsMembers | autotrader/tool/indicators/build_indicators_full.py:61-64 | combinations(vs, k) holds exactly the strictly increasing k-tuples over vs (both directions) |
| BuildIndicators.CombinationsHead | autotrader/tool/indicators/build_indicators_full.py:61-64 | every combination has k entries and starts with a value of vs |
| BuildIndicators.CombinationsSorted | autotrader/tool/indicators/build_indicators_full.py:61-64 | combinations of an increasing range come in lexicographic order |
| BuildIndicators.CandidatesSpec | autotrader/tool/indicators/build_indicators_full.py:54-64 | SO, SOM2 and SOM3 get exactly the triples over [3, int(look_back/2)); every other indicator exactly the strictly increasing param_count-tuples over [5, int(look_back/2)); either way in lexicographic order |
| BuildIndicators.Keep | autotrader/tool/indicators/build_indicators_full.py:69-83 | nothing is stored when param_max is None or empty; otherwise the stored record carries the indicator name, the profit, the parameters and the status |
| BuildIndicators.SweepFor | autotrader/tool/indicators/build_indicators_full.py:50-66 | the optimizer runs on exactly the indicator's candidates, on a fresh indicator without bars and without a live price |
| BuildIndicators.BuildAll | autotrader/tool/indicators/build_indicators_full.py:52-84 | the loop stores at most one record per selected indicator |
| BuildIndicators.BuildAllSpec | autotrader/tool/indicators/build_indicators_full.py:52-84 | the loop succeeds exactly when every selected sweep does, otherwise fails with a failing sweep's error, and stores exactly the kept outcomes |
| BuildIndicators.BuildIndicatorSpec | autotrader/tool/indicators/build_indicators_full.py:40-84 | a successful build stores a record for a registry indicator exactly when it was requested and its sweep kept an outcome |
| StrategySignalFilter.FindPrice | autotrader/strategy/strategy_signal_filter.py:56-65 | a price is found exactly when the search time is non-zero and some entry falls on the same day, and it is the price of the first such entry |
| StrategySignalFilter.PointsOf | autotrader/strategy/strategy_signal_filter.py:75-83 | the trades are exactly the markers with the given text, each paired with the price found for its time |
| StrategySignalFilter.Insert | autotrader/strategy/strategy_signal_filter.py:85-86 | inserting keeps every point and adds exactly the new one |
| StrategySignalFilter.InsertAscending | autotrader/strategy/strategy_signal_filter.py:85-86 | inserting into a time-ordered list keeps it time-ordered |
| StrategySignalFilter.SortByTime | autotrader/strategy/strategy_signal_filter.py:85-86 | the sort is a permutation of its input |
| StrategySignalFilter.SortAscending | autotrader/strategy/strategy_signal_filter.py:85-86 | the sort puts the points in time order |
| StrategySignalFilter.Trim | autotrader/strategy/strategy_signal_filter.py:88-92 | the earliest sell is dropped exactly when the earliest buy is later than it; then the latest buy is dropped exactly when it is later than the latest remaining sell |
| StrategySignalFilter.ParsePlotData | autotrader/strategy/strategy_signal_filter.py:67-94 | ([], []) when the plot or its data is missing, it does not decode or it is not a four-element list; otherwise both lists come latest first |
| StrategySignalFilter.ParsePlotDataTrades | autotrader/strategy/strategy_signal_filter.py:75-94 | on a decodable four-element plot the buys are buy markers and the sells sell markers of the plot, each list shortened by at most the one trimmed entry |
| StrategySignalFilter.TrimMembers | autotrader/strategy/strategy_signal_filter.py:88-92 | trimming drops at most one entry of each list and adds none |
| StrategySignalFilter.TrimAscending | autotrader/strategy/strategy_signal_filter.py:88-92 | trimming keeps both lists in time order |
| StrategySignalFilter.TrimFirstSell | autotrader/strategy/strategy_signal_filter.py:88-89 | once a leading sell is dropped, the first buy is no later than the first remaining sell |
| StrategySignalFilter.RunLengthOk | autotrader/strategy/strategy_signal_filter.py:106-114 | a counted run is maximal: every pair before it wins and the pair at it, if any, is priced and does not win |
| StrategySignalFilter.RunLengthErr | autotrader/strategy/strategy_signal_filter.py:109-110 | the count fails, with TypeError, exactly when a missing price is compared after a run of winners |
| StrategySignalFilter.OnRunCounter | autotrader/strategy/strategy_signal_filter.py:96-114 | 0 when a list is missing or empty; otherwise the maximal leading run of pairs whose sell price exceeds the buy price, at most the length of either list |
| StrategySignalFilter.OnlyBuyWhenOnRun | autotrader/strategy/strategy_signal_filter.py:41-54 | the result fails, with TypeError, exactly when the run counter fails on some signal's plot; otherwise it is the input filtered in order by the test that the plot's run count equals the threshold, so a signal is kept exactly when its count matches |
| StrategySignalFilter.FilterIsOrdered | autotrader/strategy/strategy_signal_filter.py:45-54 | the filter the loop builds reads the input at strictly increasing indices, and an index is read exactly when its element passes the test |
| StrategySignalFilter.FilterMembers | autotrader/strategy/strategy_signal_filter.py:45-54 | an input element is in the filtered list exactly when it passes the test |
| StrategySignalFilter.GetRelevantBuySignals | autotrader/strategy/strategy_signal_filter.py:35-39 | mode ONLY_BUY_WHEN_ON_RUN (0) answers what only_buy_when_on_run answers: TypeError exactly when some counter fails, else the in-order run filter; any other mode raises NotImplementedError |
| StrategyBase.CalculateBuyAmount | autotrader/strategy/strategy_base.py:191-199 | the amount is int(cash*buy_percentage/price), truncated toward zero; a zero price raises ZeroDivisionError |
| StrategyBase.BuyAmountAffordable | autotrader/strategy/strategy_base.py:191-199 | with non-negative money and a positive price the amount is the largest whole number of pieces the budget pays for |
| StrategyBase.BuyAmountMonotone | autotrader/strategy/strategy_base.py:191-199 | a lower price never buys fewer pieces |
| StrategyBase.FirstItem | autotrader/strategy/strategy_base.py:209-211 | finds the first portfolio entry for the stock and the signal, or reports that there is none |
| StrategyBase.CalculateSellAmount | autotrader/strategy/strategy_base.py:201-214 | 0 without a matching portfolio entry; otherwise the ceiling of the first matching entry's size times sell_percentage |
| StrategyBase.SellAllSellsSize | autotrader/strategy/strategy_base.py:209-214 | with the default sell_percentage 1.0 the sell amount is the first matching entry's whole size |
| StrategyBase.SellPossibleForHeld | autotrader/strategy/strategy_base.py:213-226 | a positive share of a positive position always yields a sellable amount of at least one piece |
| StrategyBase.IsSellPossible | autotrader/strategy/strategy_base.py:216-227 | a sell is possible exactly when the amount is at least one piece |
| StrategyBase.IsBuyPossible | autotrader/strategy/strategy_base.py:228-259 | a buy is possible exactly when the stock is not held, no confirmed buy is pending, the amount is non-zero and commission/(amount*price) is within the threshold, the commission being what the strategy's broker charges; a zero order value with a non-zero amount raises ZeroDivisionError |
| StrategyBase.DefaultCommissionFloor | autotrader/strategy/strategy_base.py:252-258 | at the demo broker (2.0 + 0.00008 of the value) under the default threshold 0.005 a positive order value passes the commission test exactly when it is at least 2.0/0.00492 |
| StrategyBase.BrokerDecidesSmallBuys | autotrader/strategy/strategy_base.py:252-258 | the answer depends on the broker's get_commission: an order of value 410.0 passes the default threshold at the demo broker and fails it at Degiro (2.0 + 0.00026 of the value) |
| StrategyBase.DivAtMost | autotrader/strategy/strategy_base.py:253-255 | for a positive order value, the commission ratio is within k exactly when the commission is within k times the value |
| StrategyBase.GetOrderData | autotrader/strategy/strategy_base.py:261-289 | a market order carries price -1 and a limit order the given price, both with the amount and the signal id; any other order type raises NotImplementedError |
| StrategyBase.OrderDataMeetsBroker | autotrader/strategy/strategy_base.py:261-289 | a limit order at the market marker price -1 is refused by the demo broker; any other accepted limit order keeps its price as the limit |
| StrategyBase.LimitPricesBracketMarket | autotrader/strategy/strategy_base.py:97-131 | for a positive price and shares below one, the buy limit price*(1-under) lies below the price and the sell limit price*(1+over) above it |
| StrategyBase.SellOrder | autotrader/strategy/strategy_base.py:92-101 | a sell signal sends nothing exactly when it has no portfolio entry or its first entry's share is not positive (so the rounded-up amount is below one piece); otherwise it sends an order for the signal of the strategy's order type, a market order at -1 and a limit order at price*(1+over), and any other order type raises NotImplementedError |
| StrategyBase.SellPossibleIffShare | autotrader/strategy/strategy_base.py:213-226 | the rounded-up sell amount reaches one piece exactly when the first matching entry exists and its share is positive |
| StrategyBase.SellAmountOfFirst | autotrader/strategy/strategy_base.py:209-214 | with a matching entry the sell amount n satisfies n-1 < size*sell_percentage <= n for the first match |
| StrategyBase.SellOrderSize | autotrader/strategy/strategy_base.py:92-101 | a sent sell order's size is the first matching entry's size times sell_percentage rounded up, and at least one piece |
| StrategyBase.BuyOrder | autotrader/strategy/strategy_base.py:121-134 | a zero price raises ZeroDivisionError; otherwise nothing is sent exactly when is_buy_possible, with the broker's commission, answers False, and its ZeroDivisionError propagates; a possible market buy sends the amount at the last price and price -1; a possible limit buy bids price*(1-under), recomputes the amount at that bid and raises ZeroDivisionError exactly when the bid is 0; any other order type raises NotImplementedError |
| StrategyBase.LimitBuyBuysAtLeastAsMany | autotrader/strategy/strategy_base.py:129-132 | a limit buy bids below the market and never asks for fewer pieces than a market buy |
| StrategyGroup.Keep | autotrader/strategy/strategy_group.py:40-47 | every kept signal is an input signal whose stock is named by at least group_size signals; no more signals than the input |
| StrategyGroup.KeepReadsPositions | autotrader/strategy/strategy_group.py:41-47 | the output is the input read at strictly increasing positions |
| StrategyGroup.KeptPositionsExact | autotrader/strategy/strategy_group.py:41-47 | a position is kept exactly when its signal's stock is named by at least group_size signals |
| StrategyGroup.KeepIsFilter | autotrader/strategy/strategy_group.py:38-48 | the output is an order-preserving subsequence of the input that keeps a signal exactly when its stock reaches the group size |
| StrategyGroup.SameStockSameFate | autotrader/strategy/strategy_group.py:41-47 | two signals of the same stock are both kept or both dropped |
| StrategyGroup.CountMember | autotrader/strategy/strategy_group.py:43-45 | a signal counts itself, so its stock is named at least once |
| StrategyGroup.SmallGroupKeepsAll | autotrader/strategy/strategy_group.py:46-47 | with a group size of at most one every signal is kept, in order |
| StrategyGroup.DefaultKeepsAll | autotrader/strategy/strategy_group.py:32-35 | without a group_size argument the group size is 1 and the filter is the identity |
| StrategyGroup.GetRelevantBuySignals | autotrader/strategy/strategy_group.py:38-48 | the nested counting loops return exactly the group filter of the buy signals |
| BrokerBase.GetStockSize | autotrader/broker/broker_base.py:163-172 | the loop returns the summed size of the orders with the given status, sell flag (when one is given) and a set, equal stock id; stock id 0 counts nothing |
| BrokerBase.SizeSumUnset | autotrader/broker/broker_base.py:170 | an unset (falsy) stock id is never matched, so its size is 0 for every order list |
| BrokerBase.SizeSumAppend | autotrader/broker/broker_base.py:168-172 | the stock size of two order lists together is the sum of their sizes |
| BrokerBase.PendingCounts | autotrader/broker/broker_base.py:174-188 | a single order adds to the in-sell count exactly when it is a confirmed sell of the stock, and to the not-complete count exactly when it is a confirmed buy of it |
| BrokerBase.StockSizeInSell | autotrader/broker/broker_base.py:174-180 | pieces in waiting sells: none for an unset stock or without a confirmed sell of it, and never negative when no order size is |
| BrokerBase.StockSizeNotComplete | autotrader/broker/broker_base.py:182-188 | pieces in waiting buys: none for an unset stock or without a confirmed buy of it, and never negative when no order size is |
| BrokerBase.SizeSumSign | autotrader/broker/broker_base.py:163-172 | orders none of which counts sum to 0, and orders of non-negative size sum to a non-negative size |
| BrokerBase.CompletedIds | autotrader/broker/broker_base.py:197-199 | a stock id is listed exactly when some completed order trades it |
| BrokerBase.Distinct | autotrader/broker/broker_base.py:199 | the de-duplicated list holds the same ids, each once |
| BrokerBase.BuySignals | autotrader/broker/broker_base.py:204-205 | the signal list is empty exactly when the stock has no completed buy |
| BrokerBase.ItemsForOk | autotrader/broker/broker_base.py:201-207 | building the entries succeeds iff no listed stock is held without a completed buy; the failure is IndexError |
| BrokerBase.ItemsForSound | autotrader/broker/broker_base.py:201-207 | every entry belongs to a listed stock and carries its completed size and the signal of its last completed buy; distinct stocks give distinct entries |
| BrokerBase.ItemsForComplete | autotrader/broker/broker_base.py:201-207 | every listed stock with a positive completed size has an entry |
| BrokerBase.PortfolioItemsSpec | autotrader/broker/broker_base.py:195-208 | the portfolio lists each held stock once with its size and last buy signal, nothing else, and raises IndexError iff a held stock has no completed buy |
| BrokerBase.GetPortfolioItems | autotrader/broker/broker_base.py:190-208 | it fails only with IndexError, and every entry is a stock with a positive completed size, carrying that size |
| BrokerBase.FindRelated | autotrader/broker/broker_base.py:214-231 | no candidate iff no completed buy closes the sell; otherwise the first closing buy with the least time to the sell |
| BrokerBase.ConnectRelatedOrder | autotrader/broker/broker_base.py:210-233 | only a sell with a closing buy changes anything, and then only that one buy, which becomes associated with the sell |
| BrokerBase.LinkTargetUnique | autotrader/broker/broker_base.py:223-231 | the buy a sell is linked to is unique |
| DemoBroker.Commission | autotrader/broker/demo_broker.py:143-149 | the commission is the fixed fee plus the rate times the gross value, so never below the fixed fee for a non-negative value |
| DemoBroker.CalculatePrice | autotrader/broker/demo_broker.py:151-164 | a sell brings in the gross value less commission, a buy costs the gross value plus commission (as a negative amount) |
| DemoBroker.RoundTripCostsCommissions | autotrader/broker/demo_broker.py:151-164 | buying and selling the same size at the same price loses exactly two commissions, at least twice the fixed fee |
| DemoBroker.DoLimit | autotrader/broker/demo_broker.py:329-360 | a limit order is refused (RuntimeError) iff the price is missing or -1 or a buy exceeds the cash; otherwise it is confirmed, signed by direction, priced, and expires expire_in_hours later |
| DemoBroker.DoMarket | autotrader/broker/demo_broker.py:362-394 | a market order is refused iff there is no (truthy) last price or a buy exceeds the cash; otherwise it is completed at the last price |
| DemoBroker.MakeOrder | autotrader/broker/demo_broker.py:295-317 | a missing portfolio, a size below 1, an unknown stock or exchange, or an unsupported order type raise RuntimeError; otherwise the market or limit path decides |
| DemoBroker.PlaceOrder | autotrader/broker/demo_broker.py:295-327 | an accepted order is appended, its price_complete is added to the cash, older orders change only in their links, and a buy never leaves negative cash |
| DemoBroker.SizeSumIgnoresParents | autotrader/broker/demo_broker.py:325-326 | linking a sell to its buy leaves every stock size unchanged |
| DemoBroker.Sell | autotrader/broker/demo_broker.py:258-279 | a sell of more than is held, or of more than is held and not yet offered, raises RuntimeError; an accepted sell keeps the uncommitted holding non-negative |
| DemoBroker.Buy | autotrader/broker/demo_broker.py:247-256 | a buy succeeds exactly when the order can be made; it leaves the cash non-negative and lowers it by at least the fixed fee |
| DemoBroker.ExchangeHours | autotrader/broker/demo_broker.py:432-446 | no exchange is open at the weekend or outside 8 to 19 o'clock, Xetra's hours lie inside Frankfurt's, and any other exchange is closed |
| DemoBroker.IsExchangeOpen | autotrader/broker/demo_broker.py:431-446 | Xetra (XETR) is open exactly Monday to Friday (ISO 1 to 5) from 9 to 16 o'clock, Frankfurt (XFRA) exactly Monday to Friday from 8 to 19 o'clock, and any other exchange is never open |
| DemoBroker.ExpiresAsWrittenInMinutes | autotrader/broker/demo_broker.py:469-471 | the expiry test as written fires once the order is expire_in_hours minutes old |
| DemoBroker.ExpiresAsWrittenTooEarly | autotrader/broker/demo_broker.py:469-471 | as written, a 20-hour limit order expires after half an hour |
| DemoBroker.ExpiresAtExpireDate | autotrader/broker/demo_broker.py:355-356 | with the age read in hours, a limit order expires exactly when its expire_date is reached |
| DemoBroker.ExpiredByAge | autotrader/broker/demo_broker.py:469-471 | under the code's test (seconds / 60) an order expires once it is expire_in_hours minutes old, under the intended test once it is expire_in_hours hours old |
| DemoBroker.Settle | autotrader/broker/demo_broker.py:455-476 | only a waiting order changes: it completes at the date of the first bar its limit reaches, else it expires exactly when it is old enough under the expiry rule (minutes as the code runs it, hours as intended), else it stays; size, price and direction are kept |
| DemoBroker.HandleOpenOrders | autotrader/broker/demo_broker.py:448-476 | under either expiry rule (the code runs the minutes one) every order is settled in place and the cash loses exactly the price_complete of the orders that expire |
| DemoBroker.LimitBuyExpiryRestoresCash | autotrader/broker/demo_broker.py:337-360 | a limit buy that expires unfilled gives back all the cash its booking took, expire_in_hours minutes after booking as the code runs it and at its expire_date as intended |
| DemoBroker.DefaultLimitBuyExpiry | autotrader/broker/demo_broker.py:469-471 | an unfilled 20-hour limit order is expired by the code after 20 minutes, while the intended test keeps it until 20 hours have passed |
| StartStrategy.Strategies | autotrader/tool/strategy/start_strategy.py:30-241 | the configured table holds nineteen strategies |
| StartStrategy.VariantChanges | autotrader/tool/strategy/start_strategy.py:300-304 | a variant keeps everything of its original except the name, extended by the suffix and the parameter in hundredths, and the one setting it overrides |
| StartStrategy.Row | autotrader/tool/strategy/start_strategy.py:298-304 | one parameter gives one variant of every strategy, in table order |
| StartStrategy.Extend | autotrader/tool/strategy/start_strategy.py:295-306 | the extension has one entry per parameter and strategy |
| StartStrategy.ExtendAt | autotrader/tool/strategy/start_strategy.py:295-306 | entry p times the table size plus s is strategy s under parameter p |
| StartStrategy.ExtendShape | autotrader/tool/strategy/start_strategy.py:295-306 | the extension has parameters times strategies entries in parameter-major order, each the matching variant |
| StartStrategy.Named | autotrader/tool/strategy/start_strategy.py:313-315 | the picked strategies come from the table and have a listed name |
| StartStrategy.NamedBlock | autotrader/tool/strategy/start_strategy.py:313-315 | when exactly one block of the table has listed names, the filter returns that block |
| StartStrategy.HotListIsSecureHotH | autotrader/tool/strategy/start_strategy.py:313-315 | the hot list picks the three SecureHotH strategies; no StockIsHot6Month is configured |
| StartStrategy.AllStrategies | autotrader/tool/strategy/start_strategy.py:308-331 | get_all_strategies yields 30 + 270 + 95 + 19 = 414 strategies |
| StartStrategy.Failures | autotrader/tool/strategy/start_strategy.py:256-271 | the return code never exceeds the number of strategies, and the exception that ends a run is never the RuntimeError the loop counts |
| StartStrategy.FailuresBounded | autotrader/tool/strategy/start_strategy.py:256-271 | the run finishes iff every selected start succeeds or raises RuntimeError, and then the return code is at most the number started |
| StartStrategy.SelectionExact | autotrader/tool/strategy/start_strategy.py:258-261 | a strategy is started, under the prefixed name, exactly when "ALL" or its name is requested |
| StartStrategy.AllSelectsEverything | autotrader/tool/strategy/start_strategy.py:259 | with "ALL" requested every strategy is started, in table order |
| StartStrategy.Build | autotrader/tool/strategy/start_strategy.py:251-271 | the loop returns the count of RuntimeErrors, or the first other exception, and starts exactly the selected strategies |
| StartStrategy.BuildAll | autotrader/tool/strategy/start_strategy.py:251-271 | over get_all_strategies with "ALL", 414 strategies are started |
| StartStrategy.FailuresPropagate | autotrader/tool/strategy/start_strategy.py:262-269 | an exception other than RuntimeError ends the run with that exception |
| DateRange.IsoWeekday | autotrader/tool/strategy/back_testing.py:50 | the ISO weekday lies in 1..7 |
| DateRange.NextWeekday | autotrader/tool/strategy/back_testing.py:49-50 | the weekday of the next day is the weekday after this one, Sunday followed by Monday |
| DateRange.DaysBetweenIsFloor | autotrader/tool/strategy/back_testing.py:47 | the day count of the difference is the floor of the difference measured in days |
| DateRange.AtMorning | autotrader/tool/strategy/back_testing.py:51 | the same day at 09:35 with the seconds within the minute kept |
| DateRange.Dates | autotrader/tool/strategy/back_testing.py:45-51 | nothing when either bound is missing; otherwise the walk over all_days + 1 offsets, or none when the end is before the start |
| DateRange.WalkWorkdays | autotrader/tool/strategy/back_testing.py:48-51 | every yielded date is a Monday-to-Friday date at 09:35 within the range |
| DateRange.WalkAscending | autotrader/tool/strategy/back_testing.py:48-51 | the yielded dates are strictly ascending, at most one per offset |
| DateRange.WalkComplete | autotrader/tool/strategy/back_testing.py:48-51 | no working day in the range is skipped |
| DateRange.WalkStep | autotrader/tool/strategy/back_testing.py:48-51 | each further offset yields a date exactly when it falls on a working day |
| DateRange.FiveOfSeven | autotrader/tool/strategy/back_testing.py:50 | any seven consecutive days hold exactly five working days |
| DateRange.WeekAddsFive | autotrader/tool/strategy/back_testing.py:48-51 | every further week of range yields five more dates |
| DateRange.Walk | autotrader/tool/strategy/back_testing.py:48-51 | at most one date per offset visited, each on a Monday to Friday |
| StringCompare.LevIsIndel | autotrader/base/string_compare_helper.py:41-55 | the table's distance, with substitution costing 2, is the insert/delete distance: both lengths minus twice the longest common subsequence |
| StringCompare.LcsDrop | autotrader/base/string_compare_helper.py:47-55 | dropping the last character of either string lowers the longest common subsequence by at most one |
| StringCompare.LcsBounds | autotrader/base/string_compare_helper.py:47-55 | a common subsequence is no longer than either string, and a string shares all of itself with itself |
| StringCompare.LevBounds | autotrader/base/string_compare_helper.py:41-55 | the distance lies between the length difference and the combined length, and is zero from a string to itself |
| StringCompare.RatioBounds | autotrader/base/string_compare_helper.py:57 | the ratio lies in [0, 1] and equals twice the longest common subsequence over the combined length |
| StringCompare.RatioIdentical | autotrader/base/string_compare_helper.py:57 | identical non-empty strings have ratio 1 |
| StringCompare.LevEmpty | autotrader/base/string_compare_helper.py:41-44 | the first row and column hold the other string's length |
| StringCompare.LevCell | autotrader/base/string_compare_helper.py:49-55 | each cell is the least of a deletion, an insertion and a substitution (0 for equal characters, 2 otherwise) |
| StringCompare.NextColumn | autotrader/base/string_compare_helper.py:47-55 | one pass over the rows turns the previous column of distances into the next |
| StringCompare.LevenshteinRatio | autotrader/base/string_compare_helper.py:26-58 | with either string empty the loop variables are never bound (UnboundLocalError); otherwise the similarity ratio |
| StringCompare.Ratio | autotrader/base/string_compare_helper.py:57 | the similarity ratio of two strings, not both empty, lies in [0, 1] |
| DictHelper.FindKeySound | autotrader/base/dict_helper.py:25-49 | every value the search yields is reached along a hit path: an entry with the key in a dict meeting the conditions, through dicts meeting them and through lists |
| DictHelper.FindKeyComplete | autotrader/base/dict_helper.py:25-49 | every value reached along a hit path is yielded |
| DictHelper.FindKeyExact | autotrader/base/dict_helper.py:25-49 | the search yields exactly the values reached along hit paths |
| DictHelper.InEntriesHasEntry | autotrader/base/dict_helper.py:35-45 | what one dict entry yields is part of what the entries yield |
| DictHelper.InItemsHasItem | autotrader/base/dict_helper.py:46-49 | what one list item yields is part of what the list yields |
| DictHelper.TopLevelFound | autotrader/base/dict_helper.py:35-37 | without conditions a key stored directly in the dict is found |
| DictHelper.ScalarYieldsNothing | autotrader/base/dict_helper.py:34-49 | a value that is neither dict nor list yields nothing |
| DictHelper.NothingFoundNoHit | autotrader/base/dict_helper.py:25-49 | nothing is yielded exactly when no hit path exists |
| DictHelper.FindFirstKey | autotrader/base/dict_helper.py:52-62 | None exactly when the search yields nothing, else the first value it yields; None when no hit path exists, and any other result is a value reached along a hit path |
| StockSchema.GetData | autotrader/datasource/database/stock_schema.py:187-196 | the document of the first data row with the key, and None exactly when no row has it |
| StockSchema.GetDataId | autotrader/datasource/database/stock_schema.py:198-202 | the id of the first lookup row of the type, and None exactly when no row has it |
| StockSchema.Iterate | autotrader/datasource/database/stock_schema.py:232-240 | iterating a list gives its items, a dict its keys, a string its characters; anything else raises TypeError |
| StockSchema.FloatOrMinusOne | autotrader/datasource/database/stock_schema.py:246-249 | a convertible value gives its float, a ValueError gives -1, any other error propagates |
| StockSchema.ScanSpec | autotrader/datasource/database/stock_schema.py:240-249 | the search returns nothing iff every entry moves on; otherwise the result of the first entry that decides |
| StockSchema.ScanSuffix | autotrader/datasource/database/stock_schema.py:240-249 | when no quarter offset applies, searching from an index is searching the suffix |
| StockSchema.StrutStep | autotrader/datasource/database/stock_schema.py:244-249 | a well-formed strut decides iff its attr is the requested one, and then gives the float of its value or -1 |
| StockSchema.GetDataAttrSpec | autotrader/datasource/database/stock_schema.py:238-250 | outside recommendations the value of the first deciding entry is returned, and -1 when none decides |
| StockSchema.QuarterDiffSkips | autotrader/datasource/database/stock_schema.py:240-241 | with quarter_diff q the first q entries are skipped: the lookup equals the lookup on the list without them |
| StockSchema.SkipPrefix | autotrader/datasource/database/stock_schema.py:241 | entries before index quarter_diff never decide |
| StockSchema.ScanShift | autotrader/datasource/database/stock_schema.py:240-249 | from index quarter_diff on, each step is the unfiltered step on the suffix |
| StockSchema.AnnualOnly | autotrader/datasource/database/stock_schema.py:242 | the annual entries are taken from the list, no more of them than the list holds |
| StockSchema.AnnualFilters | autotrader/datasource/database/stock_schema.py:242 | an annual lookup over dicts is a plain lookup over the entries whose 'annual' is truthy |
| StockSchema.RecommendationSpec | autotrader/datasource/database/stock_schema.py:227-237 | a recommendation answers 'rating' from its own key, else only from 'measures' (-1 without them); a missing document raises TypeError |
| StockSchema.AttrOf | autotrader/datasource/database/stock_schema.py:228-250 | a stored document that is neither list, dict nor string raises TypeError at its first membership test or loop |
| StockSchema.GetDataAttr | autotrader/datasource/database/stock_schema.py:227-250 | a stock with no data row for the key raises TypeError (the document is None); otherwise the lookup runs on the document of the first row with the key |
| Yahoo.CodeOf | autotrader/datasource/yahoo_finance_client.py:71-112 | the code of the first row with the name, and none exactly when no row has it |
| Yahoo.FixWith | autotrader/datasource/yahoo_finance_client.py:71-112 | a name in the table becomes its code; any other symbol is kept |
| Yahoo.FixSymbol | autotrader/datasource/yahoo_finance_client.py:71-112 | a known index name becomes its '%5E' code; any other symbol is kept |
| Yahoo.IndexTableWellFormed | autotrader/datasource/yahoo_finance_client.py:72-111 | twenty index names with distinct names, distinct codes, and no code that is also a name |
| Yahoo.FixWithLaws | autotrader/datasource/yahoo_finance_client.py:71-112 | on such a table different names never collapse onto one code and fixing a fixed symbol changes nothing |
| Yahoo.FixSymbolInjectiveOnIndices | autotrader/datasource/yahoo_finance_client.py:71-112 | different index names get different codes |
| Yahoo.FixSymbolIdempotent | autotrader/datasource/yahoo_finance_client.py:71-112 | fixing a fixed symbol changes nothing |
| Yahoo.UnitOf | autotrader/datasource/yahoo_finance_client.py:120-128 | a unit is recognised exactly for d, w, m and y in either case |
| Yahoo.CreateDate | autotrader/datasource/yahoo_finance_client.py:115-129 | a period is found exactly when the string matches ^P([0-9]+)(\w)$ with a known unit, and its count is the digits' value |
| Yahoo.CreateDateRoundTrip | autotrader/datasource/yahoo_finance_client.py:115-129 | writing a period as P, count and unit letter and parsing it gives the period back |
| Yahoo.CreateDateCaseInsensitive | autotrader/datasource/yahoo_finance_client.py:120 | the unit letter may be written in either case |
| Yahoo.GetSeries | autotrader/datasource/yahoo_finance_client.py:131-171 | an invalid period or no response gives None; otherwise the reply fetched for the fixed symbol and the parsed period is returned as it is when as_json is set, and else converted by series_to_object, whose bars or error are the answer |
| Yahoo.SeriesToObject | autotrader/datasource/yahoo_finance_client.py:174-199 | a reply without a chart or without a non-empty result list gives no bars, and every bar the conversion builds has the daily resolution P1D |
| Yahoo.BarsAreDaily | autotrader/datasource/yahoo_finance_client.py:188-197 | each bar the loop over the timestamps appends is a P1D bar |
| Yahoo.NoChartNoBars | autotrader/datasource/yahoo_finance_client.py:180-181 | a reply without a chart or with no (or an empty) result list gives no bars |
| Yahoo.NoQuotesNoBars | autotrader/datasource/yahoo_finance_client.py:182-184 | a first result without timestamps or a non-empty quote list gives no bars |
| Yahoo.QuoteBarAt | autotrader/datasource/yahoo_finance_client.py:188-197 | a covering quote gives at each position the values stored there |
| Yahoo.QuoteSourceOf | autotrader/datasource/yahoo_finance_client.py:183-186 | a result with timestamps and a non-empty quote list supplies them to the loop |
| Yahoo.SeriesToObjectLoop | autotrader/datasource/yahoo_finance_client.py:180-199 | on a well-shaped reply the conversion is the loop over the timestamps |
| Yahoo.OneBarPerTimestamp | autotrader/datasource/yahoo_finance_client.py:180-199 | a well-formed reply gives one daily bar per timestamp, carrying the quote values at its position |
| DegiroData.AllIn | autotrader/broker/degiro/degiro_data_helper.py:39-40 | on a dict the test holds exactly when every key is present; only a value that cannot be searched raises TypeError |
| DegiroData.ExchangeOf | autotrader/broker/degiro/degiro_data_helper.py:39-50 | a dict entry gives a record exactly when it holds all six keys |
| DegiroData.ExchangeOfDict | autotrader/broker/degiro/degiro_data_helper.py:39-50 | the record of a complete entry carries id, name, country, city, code and hiqAbbr; an incomplete entry gives none |
| DegiroData.ExchangeToObject | autotrader/broker/degiro/degiro_data_helper.py:37 | a configuration without "exchanges" raises KeyError |
| DegiroData.ExchangesExact | autotrader/broker/degiro/degiro_data_helper.py:31-51 | the records are exactly those of the entries holding all six keys |
| DegiroData.StockToObject | autotrader/broker/degiro/degiro_data_helper.py:62-71 | a product gives (vwdId, stock) exactly when all six keys are present, and None otherwise |
| DegiroData.Lower | autotrader/broker/degiro/degiro_data_helper.py:81 | lower-casing maps A-Z to a-z and keeps every other character |
| DegiroData.PickProductDict | autotrader/broker/degiro/degiro_data_helper.py:81-86 | a product gives its stock exactly when its lower-cased isin starts with the prefix and it holds every stock key |
| DegiroData.StockToObjectFilter | autotrader/broker/degiro/degiro_data_helper.py:80 | a reply without "products" raises KeyError |
| DegiroData.StockFilterExact | autotrader/broker/degiro/degiro_data_helper.py:74-87 | the result holds exactly the stocks of the selected products |
| DegiroData.OffsetUnit | autotrader/broker/degiro/degiro_data_helper.py:106-113 | offsets count in minutes exactly for PT…M resolutions, in seconds exactly for PT1S, and in days otherwise |
| DegiroData.HourlyInMinutes | autotrader/broker/degiro/degiro_data_helper.py:107-111 | an hourly series is stored as PT60M and its offsets count in minutes |
| DegiroData.TwoEntriesRaise | autotrader/broker/degiro/degiro_data_helper.py:95-96 | with exactly two series entries, the second holding data, the converter as written raises IndexError instead of returning None |
| DegiroData.SeriesToObject | autotrader/broker/degiro/degiro_data_helper.py:95-102 | with the intended guard, fewer than three series entries give None |
| DegiroData.GuardsAgree | autotrader/broker/degiro/degiro_data_helper.py:95-102 | with at least three series entries both guards give the same result |
| DegiroData.SeriesNoneExact | autotrader/broker/degiro/degiro_data_helper.py:95-102 | None exactly when there are fewer than three entries or entry 1 or 2 holds no data |
| DegiroData.BarOf | autotrader/broker/degiro/degiro_data_helper.py:105-122 | a well-formed bar carries the prices of its price row and the volume, stored under the renamed resolution and dated start plus the offset in that resolution's unit |
| DegiroData.SeriesBars | autotrader/broker/degiro/degiro_data_helper.py:104-123 | a well-formed reply gives one bar per volume entry, each built from the entries at its own position |
| DegiroConfig.CatchKeyError | autotrader/broker/degiro/degiro_config_helper.py:34-39 | the try block turns a KeyError into None and lets every other error escape |
| DegiroConfig.First | autotrader/broker/degiro/degiro_config_helper.py:36 | taking element [0] gives the first element, and IndexError exactly on an empty list |
| DegiroConfig.IdWhereDict | autotrader/broker/degiro/degiro_config_helper.py:35-36 | a dict entry contributes its id exactly when it has an id and a matching value under the key |
| DegiroConfig.LookupId | autotrader/broker/degiro/degiro_config_helper.py:34-39 | a missing top-level list gives None |
| DegiroConfig.IdWhereItems | autotrader/broker/degiro/degiro_config_helper.py:35-36 | on a list of dicts the comprehension succeeds and the lookup takes its first element |
| DegiroConfig.LookupIdNoMatch | autotrader/broker/degiro/degiro_config_helper.py:35-37 | when no entry matches, [0] raises IndexError, which the try block does not catch |
| DegiroConfig.LookupIdFirstMatch | autotrader/broker/degiro/degiro_config_helper.py:35-37 | the lookup gives the id of the first matching entry |
| DegiroConfig.GetExchangeId | autotrader/broker/degiro/degiro_config_helper.py:28-39 | a configuration without "exchanges" gives None |
| DegiroConfig.GetCountryId | autotrader/broker/degiro/degiro_config_helper.py:42-52 | a configuration without "countries" gives None |
| DegiroConfig.GetIdOfIndexSymbol | autotrader/broker/degiro/degiro_config_helper.py:92-105 | a configuration without "indices" gives None |
| DegiroConfig.IndexIdWhereDict | autotrader/broker/degiro/degiro_config_helper.py:101-102 | an index named sym contributes its productId when it has one and products are not ignored, else its id |
| DegiroConfig.IndexIdItems | autotrader/broker/degiro/degiro_config_helper.py:100-103 | on indices with ids the comprehension succeeds and the lookup takes its first element, KeyError caught |
| DegiroConfig.IndexIdNoMatch | autotrader/broker/degiro/degiro_config_helper.py:100-103 | no index named sym raises IndexError |
| DegiroConfig.IndexIdFirstMatch | autotrader/broker/degiro/degiro_config_helper.py:100-103 | the first index named sym decides: its productId unless absent or ignored, else its id |
| DegiroConfig.GetCountryIdIndices | autotrader/broker/degiro/degiro_config_helper.py:55-73 | the result is None or a list |
| DegiroConfig.ProductIdsAreProducts | autotrader/broker/degiro/degiro_config_helper.py:67-70 | what the inner loop collects for one index are productIds of configured indices |
| DegiroConfig.CountryIndicesAreProducts | autotrader/broker/degiro/degiro_config_helper.py:61-71 | every returned id is the productId of a configured index; indices without one contribute nothing |
| DegiroConfig.SymWhereDict | autotrader/broker/degiro/degiro_config_helper.py:85-86 | an index's name is taken exactly when its id, or its productId, equals one of the country's index ids |
| DegiroConfig.GetCountrySymIndices | autotrader/broker/degiro/degiro_config_helper.py:76-89 | the result is None or a list; a configuration without "indices" gives None once the country lookup succeeds |
| DegiroConfig.SymNames | autotrader/broker/degiro/degiro_config_helper.py:85-86 | over indices that each have an id and a name the comprehension completes and holds a name exactly when a listed index carries it |
| DegiroConfig.SymIndicesNames | autotrader/broker/degiro/degiro_config_helper.py:82-87 | with a list of such indices and a list of country index ids, the returned list holds a name exactly when an index whose id or productId is among the ids carries it |
| AroonBasic.SetParameters | autotrader/indicators/trend/aroon_basic.py:60-64 | succeeds exactly on one parameter, which becomes the period; any other count is a ValueError |
| AroonBasic.GenerateSignals | autotrader/indicators/trend/aroon_basic.py:69-84 | on Aroon lines of one length the signal is the crossing of "up above down", as long as the lines and shifted by the period |
| AroonBasic.Crossings | autotrader/indicators/trend/aroon_basic.py:76-80 | a buy exactly where Aroon up comes to lie above Aroon down (or already does at the first bar), a sell exactly where it stops; nowhere else a marker |
| EmaCross.SetParameters | autotrader/indicators/averages/ema_cross_signal.py:63-68 | succeeds exactly on two parameters, short and long window in that order; any other count is a ValueError |
| EmaCross.GenerateSignals | autotrader/indicators/averages/ema_cross_signal.py:75-88 | on EMAs of one length the signal is the crossing of "short above long"; lengths that numpy cannot broadcast raise ValueError; the shift stays at the initial 0 |
| EmaCross.Crossings | autotrader/indicators/averages/ema_cross_signal.py:82-85 | a buy exactly where the short EMA comes to lie above the long one (or already does at the first bar), a sell exactly where it stops being above |
| Kvo.SetParameters | autotrader/indicators/oscillators/kvo.py:56-64 | succeeds exactly on three parameters with long >= short, which become short, long and signal window; otherwise ValueError |
| Kvo.GenerateSignals | autotrader/indicators/oscillators/kvo.py:73-84 | on lines of one length the signal is the oscillator shaping of "signal line above / below KVO", as long as the lines, with shift 1 |
| Kvo.Positions | autotrader/indicators/oscillators/kvo.py:73-81 | the position the signal builds is always flat or long; a buy exactly when flat with the signal line above the KVO line, a sell exactly when long with the KVO line above the signal line |
| MacdHistogram.SetParameters | autotrader/indicators/trend/macd_histogram.py:66-75 | succeeds exactly on three parameters with the long period strictly above the short one; a wrong count or order is a ValueError |
| MacdHistogram.GenerateSignals | autotrader/indicators/trend/macd_histogram.py:83-95 | never fails; the signal is the crossing of "histogram positive", as long as the histogram, shifted by long - 1 |
| MacdHistogram.Crossings | autotrader/indicators/trend/macd_histogram.py:88-91 | a buy exactly where the histogram turns positive (or already is at the first bar), a sell exactly where it stops being positive |
| MovingAverageCross.SetParameters | autotrader/indicators/averages/moving_average_cross_signal.py:61-66 | succeeds exactly on two parameters, short and long window in that order; otherwise ValueError |
| MovingAverageCross.GenerateSignals | autotrader/indicators/averages/moving_average_cross_signal.py:73-90 | on averages that line up once the short one is cut by long - short the signal is the crossing of "short above long", shifted by long - 1; unbroadcastable lengths raise ValueError |
| MovingAverageCross.RawIsShortAbove | autotrader/indicators/averages/moving_average_cross_signal.py:82-84 | the array of zeros with ones assigned where the cut short average exceeds the long one is one exactly at the positions where it lies above |
| MovingAverageCross.Crossings | autotrader/indicators/averages/moving_average_cross_signal.py:82-86 | on aligned averages a buy exactly where the cut short average comes to lie above the long one (or already does at the first bar), a sell exactly where it stops |
| Stochastic.SetParameters | autotrader/indicators/oscillators/stochastic.py:65-76 | succeeds exactly on three parameters with d_period <= slowing, which become d_period, slowing and period; otherwise ValueError |
| Stochastic.OneSeries | autotrader/indicators/oscillators/stochastic.py:87-94 | the mask assignments (ones above the upper threshold, then minus ones below the lower one) produce the threshold array, then shaped for an oscillator |
| Stochastic.Shift | autotrader/indicators/oscillators/stochastic.py:110 | the shift is the absolute difference between the number of dates and the length of %D |
| Stochastic.GenerateSignals | autotrader/indicators/oscillators/stochastic.py:85-110 | mode 1 thresholds %D, mode 2 thresholds %K, mode 3 needs both (and fails only on %K and %D of different lengths); any other mode keeps the previous signal; every success has the %D shift |
| Stochastic.ThresholdPositions | autotrader/indicators/oscillators/stochastic.py:87-94 | thresholding a series keeps the position flat or long; a buy exactly when flat above the upper threshold (and not below the lower), a sell exactly when long below the lower threshold |
| Stochastic.ModeOnePositions | autotrader/indicators/oscillators/stochastic.py:87-94 | in mode 1 the signal is as long as %D and buys and sells on %D by the threshold rule, alternating from flat |
| Stochastic.ModeTwoPositions | autotrader/indicators/oscillators/stochastic.py:95-102 | in mode 2 the signal is as long as %K and buys and sells on %K by the threshold rule, alternating from flat |
| Stochastic.ModeThreePositions | autotrader/indicators/oscillators/stochastic.py:103-109 | in mode 3 a buy exactly when flat with %K and %D both above the upper threshold (and not both below the lower), a sell exactly when long with both below the lower threshold |
| TripleMovingAverageCross.SetParameters | autotrader/indicators/averages/triple_moving_average_cross_signal.py:68-74 | succeeds exactly on three parameters, short, medium and long window in that order; otherwise ValueError |
| TripleMovingAverageCross.Masks | autotrader/indicators/averages/triple_moving_average_cross_signal.py:95-98 | on series of one length, setting ones where short > medium, short > long and medium > long and then zeros where medium > short leaves ones exactly where short > medium > long |
| TripleMovingAverageCross.DropsLineUp | autotrader/indicators/averages/triple_moving_average_cross_signal.py:91-94 | cutting the short and medium averages by their offsets to the long window makes them as long as the long average and the masks read the aligned values |
| TripleMovingAverageCross.GenerateSignals | autotrader/indicators/averages/triple_moving_average_cross_signal.py:82-103 | on aligned averages the signal is the crossing of "short > medium > long", as long as the long average and shifted by long - 1 |
| TripleMovingAverageCross.RawIsInLine | autotrader/indicators/averages/triple_moving_average_cross_signal.py:95-98 | the masked array is one exactly at the positions where the aligned averages stand in the order short > medium > long |
| TripleMovingAverageCross.Crossings | autotrader/indicators/averages/triple_moving_average_cross_signal.py:95-99 | a buy exactly where the three averages come into the order short > medium > long (or already are at the first bar), a sell exactly where that order breaks |
| UltimateGap.ApplyGapMask | autotrader/indicators/oscillators/ultimate_oscillator_cross_ma.py:106-116 | the oscillator's 25..75 gap mask changes nothing: the result has a one exactly where the cross condition holds; a cross position past the oscillator's end raises IndexError |
| UltimateCrossMa.SetParameters | autotrader/indicators/oscillators/ultimate_oscillator_cross_ma.py:71-76 | succeeds exactly on two parameters with the long window not below the short one; otherwise ValueError |
| UltimateCrossMa.Align | autotrader/indicators/oscillators/ultimate_oscillator_cross_ma.py:94-101 | each series keeps its last m elements, m the shortest length, and the shift is the open series' length minus m |
| UltimateCrossMa.CrossIsAbove | autotrader/indicators/oscillators/ultimate_oscillator_cross_ma.py:106-116 | on series of one length the comparison never fails and the gap masking leaves exactly "short above long" |
| UltimateCrossMa.GenerateSignals | autotrader/indicators/oscillators/ultimate_oscillator_cross_ma.py:104-120 | never fails; on the aligned series the signal is the crossing of "short average above long", with the alignment's shift |
| UltimateCrossMa.Crossings | autotrader/indicators/oscillators/ultimate_oscillator_cross_ma.py:111-117 | on aligned series a buy exactly where the short average comes to lie above the long one (or already does at the first bar), a sell exactly where it stops |
| UltimateCrossEma.SetParameters | autotrader/indicators/oscillators/ultimate_oscillator_cross_ema.py:71-76 | succeeds exactly on two parameters with the long window not below the short one; otherwise ValueError |
| UltimateCrossEma.GenerateSignals | autotrader/indicators/oscillators/ultimate_oscillator_cross_ema.py:96-116 | any success is as long as the oscillator with shift 28; with EMAs of one length and an oscillator 28 shorter it succeeds with the crossing of "short EMA above long" past the first 28 values |
| UltimateCrossEma.Crossings | autotrader/indicators/oscillators/ultimate_oscillator_cross_ema.py:105-113 | a buy exactly where the short EMA comes to lie above the long one past the oscillator's window (or already does at the first bar), a sell exactly where it stops |
| UltimateSimpleEma.SetParameters | autotrader/indicators/oscillators/ultimate_simple_ema.py:64-72 | succeeds exactly on three parameters with medium >= short; the long window is not checked; otherwise ValueError |
| UltimateSimpleEma.GenerateSignals | autotrader/indicators/oscillators/ultimate_simple_ema.py:89-109 | any success is as long as the oscillator, shifted by the long window; with matching lengths it succeeds with the crossing of "EMA above open price" past the long window |
| UltimateSimpleEma.Crossings | autotrader/indicators/oscillators/ultimate_simple_ema.py:98-106 | a buy exactly where the EMA comes to lie above the open price past the long window (or already does at the first bar), a sell exactly where it stops |
| BaseFilter.Classify | autotrader/filter/piotroski_score.py:169-174 | a score at or above the buy threshold buys; below it, one at or below the sell threshold sells; strictly between the two it holds (each verdict an if-and-only-if) |
| BaseFilter.CodesDistinct | autotrader/filter/base_filter.py:26-28 | SELL, BUY and HOLD have three different integer codes |
| BaseFilter.ClassifyMonotone | autotrader/filter/piotroski_score.py:169-174 | a higher score never gets a worse verdict (sell < hold < buy), whatever the thresholds |
| Piotroski.YearOverYearRatio | autotrader/filter/piotroski_score.py:39-44 | a successful year-over-year ratio is the quotient of the figures now and of those four quarters back, neither divisor zero |
| Piotroski.FetchedProfitability | autotrader/filter/piotroski_score.py:84-112 | the return on assets is net income over total assets, now and a year ago, and the net income tested is the current one |
| Piotroski.FetchedLiquidity | autotrader/filter/piotroski_score.py:49-82 | the debt ratio is long-term debt over total assets, the current ratio current assets over current liabilities, and the share count is read now and a year ago |
| Piotroski.Passed | autotrader/filter/piotroski_score.py:84-161 | the number of passed tests never exceeds the number of tests |
| Piotroski.PassedExtremes | autotrader/filter/piotroski_score.py:84-161 | the count equals the number of tests exactly when all pass and is zero exactly when none passes |
| Piotroski.Score | autotrader/filter/piotroski_score.py:163-166 | the F-score lies between 0 and 9 |
| Piotroski.PerfectScore | autotrader/filter/piotroski_score.py:84-161 | a score of 9 exactly when all nine tests pass: positive ROA and cash flow, cash flow above net income, rising ROA, falling debt ratio, rising current ratio, share count not below last year's, rising gross margin and asset turnover |
| Piotroski.ZeroScore | autotrader/filter/piotroski_score.py:84-161 | a score of 0 exactly when every one of the nine tests fails |
| Piotroski.Analyse | autotrader/filter/piotroski_score.py:163-174 | fetchable figures give the F-score; a KeyError, ZeroDivisionError or TypeError keeps the previous score and any other error propagates; the score is always classified and stays in 0..9 when the previous one was |
| Piotroski.ZeroAssetsKeepScore | autotrader/filter/piotroski_score.py:39-44 | a company with zero total assets divides by zero in the return on assets, and the previous score stays |
| PriceTarget.StepWidth | autotrader/filter/price_target_score.py:47-52 | a step is never zero: a tenth of a non-zero distance, else 1 |
| PriceTarget.TargetScore | autotrader/filter/price_target_score.py:53-64 | a price below the low target scores at most 0, one above the high target always scores, one between the targets below the mean scores at most 0; only a zero step sum between the targets can raise ZeroDivisionError |
| PriceTarget.OrderedTargets | autotrader/filter/price_target_score.py:47-64 | with low <= mean <= high the score never fails, is non-negative at or above the mean and non-positive below it |
| PriceTarget.Analyse | autotrader/filter/price_target_score.py:40-73 | the target score of the last close is classified; missing price targets (KeyError) keep the previous score; any other error propagates |
| PriceTarget.MissingTargets | autotrader/filter/price_target_score.py:40-68 | a stock without a recommendation raises TypeError; a recommendation without price targets keeps the previous score |
| StockIsHot.Opens | autotrader/filter/stock_is_hot.py:44 | the opening-price column has one entry per bar, the bar's open |
| StockIsHot.Present | autotrader/filter/stock_is_hot.py:80 | the present values are exactly the values that are not None, no more than the input |
| StockIsHot.Chunks | autotrader/filter/stock_is_hot.py:81-85 | n / interval chunks of interval values each, laid end to end a prefix of the values with a tail shorter than one interval left over |
| StockIsHot.Slopes | autotrader/filter/stock_is_hot.py:83-87 | one slope per chunk, each the fitted slope of that chunk |
| StockIsHot.Diff | autotrader/filter/stock_is_hot.py:88 | one difference fewer than values, each the change between consecutive values |
| StockIsHot.Steps | autotrader/filter/stock_is_hot.py:81-82 | a zero interval raises ZeroDivisionError, a positive one gives the integer quotient, a negative one succeeds (with 0 steps) only while the count is below its magnitude |
| StockIsHot.GetPerformance | autotrader/filter/stock_is_hot.py:73-88 | the changes between the slopes of consecutive full chunks of the present values: one fewer than the number of chunks; a zero interval raises ZeroDivisionError |
| StockIsHot.Weight | autotrader/filter/stock_is_hot.py:50-54 | an interval's weight 1 + 4 idx is at least 1 |
| StockIsHot.WeighAll | autotrader/filter/stock_is_hot.py:51-52 | the weight added over a performance list is non-negative and zero exactly for an empty list |
| StockIsHot.WeighRising | autotrader/filter/stock_is_hot.py:51-55 | the weight of the non-negative values lies between 0 and the weight of all values |
| StockIsHot.WeighRisingAll | autotrader/filter/stock_is_hot.py:51-56 | every value of a list counts as ascending exactly when none is negative |
| StockIsHot.Total | autotrader/filter/stock_is_hot.py:50-54 | perf_sum is non-negative and zero exactly when every performance list is empty |
| StockIsHot.Ascending | autotrader/filter/stock_is_hot.py:50-56 | ascending_counter lies between 0 and perf_sum |
| StockIsHot.AscendingFull | autotrader/filter/stock_is_hot.py:50-56 | ascending_counter equals perf_sum exactly when no performance value is negative |
| StockIsHot.Hotness | autotrader/filter/stock_is_hot.py:57-61 | no score exactly when there are no performance values; otherwise a score in 0..1 that is 1 exactly when no value is negative |
| StockIsHot.Performances | autotrader/filter/stock_is_hot.py:42-44 | a successful run yields one performance list per interval |
| StockIsHot.PerformancesOk | autotrader/filter/stock_is_hot.py:42-44 | with positive intervals there is one performance list per interval, in order |
| StockIsHot.Analyse | autotrader/filter/stock_is_hot.py:41-67 | empty bars raise IndexError at bars[:, 1] as soon as there is an interval; otherwise it fails exactly when a performance list fails, with that error; without performance values it sells and keeps the previous score; otherwise the score in 0..1 is classified |
| StockIsHot.AllRisingScoresOne | autotrader/filter/stock_is_hot.py:41-67 | when every slope change over positive intervals is non-negative and there is at least one, the score is 1 |
| StockIsHot.LookBackDate | autotrader/filter/stock_is_hot.py:90-91 | the date lies in a valid month exactly lookback months before today, the year rolling over, and is today's month for lookback 0 |
| StockIsHotSecure.Analyse | autotrader/filter/stock_is_hot_secure.py:38-54 | no bars raise IndexError; a first open of 0 holds; a missing price raises TypeError; otherwise the plain verdict on the later half stands when the price grew beyond the secure ratio, else the score is halved and classified again |
| StockIsHotSecure.NeverBetter | autotrader/filter/stock_is_hot_secure.py:44-54 | when the later half is scored, the secure analysis succeeds and its verdict is never better than the plain one on that half |
| StockIsHotSecure.LookBackMonths | autotrader/filter/stock_is_hot_secure.py:56-57 | the secure filter looks back twice as far as the plain one |
| PyJson.ToFloat | autotrader/datasource/database/stock_schema.py:246-249 | float() of a JSON number is its value; of a string it succeeds exactly when the text reads as a float literal and otherwise raises ValueError; of null, a list or a dict it raises TypeError |
| PyJson.ParseFloat | autotrader/datasource/database/stock_schema.py:247 | a value read needs non-blank text and carries the text's sign: at most zero after a leading minus, at least zero otherwise |
| PyJson.ParseFloatOfSpace | autotrader/datasource/database/stock_schema.py:246-249 | an empty or all-whitespace string is not a number, so float() raises ValueError and the lookup falls back to -1 |
| PyJson.ParseFloatIgnoresSpace | autotrader/datasource/database/stock_schema.py:247 | whitespace before and after the text never changes what float() reads |
| PyJson.ParseFloatSkipsSeparators | autotrader/datasource/database/stock_schema.py:247 | the separators \x1c to \x1f around str(n) are skipped as float() skips them |
| PyJson.StripPadded | autotrader/datasource/database/stock_schema.py:247 | stripping text padded with whitespace on both sides gives what stripping the bare text gives |
| PyJson.ParseFloatOfDigits | autotrader/datasource/database/stock_schema.py:247 | a run of decimal digits reads as the number the digits spell |
| PyJson.ParseFloatOfNat | autotrader/datasource/database/stock_schema.py:247 | str(n) of a natural number reads back as n, and with a leading minus as -n |
| PyJson.ParseFloatOfNegated | autotrader/datasource/database/stock_schema.py:247 | a minus in front of a run of digits reads as the negated value of the digits |
| PyJson.JoinGroups | autotrader/datasource/database/stock_schema.py:247 | joining two digit groups with one underscore is again a group, worth the first group shifted left by the second group's digit count plus the second, as float("1_000") is 1000 |
| PyJson.UnsignedAtMarker | autotrader/datasource/database/stock_schema.py:247 | text with its first exponent marker after a mantissa reads as that mantissa scaled by the exponent after the marker, and fails when either part fails |
| PyJson.ScaleUp | autotrader/datasource/database/stock_schema.py:247 | scaling by a non-negative exponent e multiplies by ten to the e |
| PyJson.ScaleDown | autotrader/datasource/database/stock_schema.py:247 | scaling by a negative exponent -e divides by ten to the e |
| PyJson.ParseFloatExponent | autotrader/datasource/database/stock_schema.py:247 | str(n) + "e" + str(e) reads as n times ten to the e |

## Left out

- Logging, plotting, the SQLAlchemy database layer (get_bars, get_plot, recreate_all_strategies, sessions and queries) and every broker or data-source network call: replies enter as JSON values, fetches and the fill query as function parameters.
- tulipy (SMA, EMA, MACD, Aroon, KVO, stochastic, ultimate oscillator) and numpy.polyfit: their outputs are inputs of the model (sequences, or a slope function for StockIsHot).
- Floating point: prices and ratios are mathematical reals, so rounding, overflow, NaN and infinity are not modelled.
- Indicator GenerateSignals: numpy broadcasting of a length-1 array is modelled (NumpyOps.Broadcast), but the indicator contracts characterise only series of one length and the ValueError of unbroadcastable lengths.
- Clocks, time zones and calendar arithmetic: "now" is a parameter, dates are integer day numbers or seconds, and relativedelta months are kept as month counts.
- datetime.strptime in the Degiro series converter is a parameter (parseStart).
- Unicode: strings are sequences of characters; `lower()` is modelled on ASCII letters only.
- Yahoo.CreateDate: the count is read from ASCII digits only, while the regex's \d and int() also accept other Unicode decimal digits ("P\u0663d" is a three-day period in Python and None here).
- Python's structural equality of nested containers is modelled by structural equality of the JSON datatype.
- set() iteration order in get_portfolio_items is unspecified: the model keeps first-occurrence order and its contracts speak of the stock ids only.
- numba runs the backtest loop without bounds checks: the backtest requires a price for every signal index; the optimizer's guard is the model's.
- Optimizer.Profit: the IndexError for a shift that runs past the open prices is the model's own guard; numba reads past the array instead, which has no defined value.
- StockIsHot.LookBackDate: the date is modelled to the month; the day clamped to the month's length by relativedelta and the time of day are not modelled.
- Yahoo's set_crumb and cookie handling, Degiro login and session handling: network only.
- Filters and indicators outside the named core (Levermann, RSI, ADX, stochastic_m_2 and the other oscillators) are not part of this model.
- DictHelper.FindKeyExact: states which values are found, not the order in which the generator yields them.
- DictHelper: condition values are compared as strings only, the form the callers use.
- DegiroConfig.CountryIndicesAreProducts: states soundness (every id returned belongs to a matching product), not completeness.
- DegiroConfig.GetCountryIdIndices: states the result's shape only; CountryIndicesAreProducts carries its meaning.
- Stochastic.DefaultSettings: the constructor defaults (mode 1, thresholds 80 and 20) are this constant; no lemma is stated about them.
- UltimateCrossMa.Crossings: stated on series of one length; GenerateSignals applies it to the aligned series, which the contract of GenerateSignals connects.
- PyJson.ParseFloat: reads what float() reads from a decimal literal (surrounding whitespace, a sign, digits with single underscores between them, a fraction, an exponent), but "inf", "infinity" and "nan" in any case have no real value and read as ValueError, only ASCII digits and ASCII whitespace (space, \t, \n, \v, \f, \r and the separators \x1c to \x1f) are recognised, so \x85, \xa0 and the other Unicode spaces are not skipped, and the value is the exact decimal rather than the nearest double.
- StockSchema.FloatOrMinusOne: reads strings through PyJson.ParseFloat, so "inf", "infinity" and "nan" (and non-ASCII digits or whitespace such as \x85 and \xa0) give -1 where float() returns a value.
- PyJson.ToFloat: reads strings through PyJson.ParseFloat, so "inf", "infinity", "nan" and text with non-ASCII digits or whitespace raise ValueError where float() returns a value.
- Stochastic.GenerateSignals: the previous signal is a sequence; the source's initial None, which a mode other than 1, 2 or 3 hands back unchanged, is not a separate value of the model.
- Optimizer.CalcProfit: on buffers that are still None, and on object buffers (a leading None), the model returns the error the foreign indicator routines raise there, two parameters of the strategy; which exception tulipy raises is not modelled.
- BackTesting: the default arguments (capital 100000.0, fees 2.0 and 0.004) are constants of the model, not a separate member.

## Findings

| source | as written | input that shows it | evidently intended | confidence | as-written member | corrected member |
|---|---|---|---|---|---|---|
| autotrader/broker/demo_broker.py:469-471 | the order's age in seconds divided by 60 (minutes) is compared with expire_in_hours | an order placed 1800 seconds ago with the default limit of 20 hours counts as expired | the age in hours (seconds / 3600) compared with expire_in_hours, so an order expires at its expire_date | not executed | DemoBroker.ExpiresAsWrittenTooEarly | DemoBroker.ExpiresAtExpireDate |
| autotrader/broker/degiro/degiro_data_helper.py:95-96 | the guard asks for at least two series entries and then reads entry 2 | a reply with exactly two series entries whose second holds data raises IndexError | a guard of at least three entries, so a short reply converts to None | not executed | DegiroData.TwoEntriesRaise | DegiroData.SeriesNoneExact |
