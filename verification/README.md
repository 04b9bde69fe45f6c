# Verified model of the A-share backtest, data sync and trading store

This project models four parts of the repository in Dafny and proves what they promise:

1. **The local backtest.** `Broker` is the event loop of `BacktestBroker.execute_with_audit`: a worklist that grows
   while it is consumed, because a filled BUY may insert one exit SELL and re-sort the rest. It drives `Ledgers.Portfolio`,
   a first-in first-out lot ledger with the T+1 rule (shares bought on a day can be sold from the next day on).
   `Metrics` and `Holding` rebuild cash, positions, equity and holding periods from the trade list alone.
   `OrderSizing`, `OrderFills`, `ExitScan` and `ScheduledExits` say when an event is filled, on which bar, at what price,
   for how many lots, and which exit follows. `LotHistory` says where lots come from, `RowValues` and `HoldingDays` what
   the equity curve and the holding periods show. `BrokerRuns`, `EventOrder`, `MetricsAgreement`, `TradeDays`,
   `HoldingAgreement`, `PairingAgreement` and `Drawdown` prove what holds in every reachable state, and when the separate
   accounts of one run agree. `StrategyContext` covers what a strategy may see, `SignalCheck` and `SignalRules` which
   signals it may return.
2. **The minute trigger scan.** `MinuteRows` defines "the first minute that ends k consecutive minutes of at least X
   turnover", `MinuteQuery` is the windowed gaps-and-islands query, `MinuteScan` the one-pass streak scan; both are proved
   against the definition. `MinuteTriggers` adds the chunks of stocks and the limit, and proves exactly when the two agree.
3. **The resumable minute sync.** `MinuteWindows` splits trading days into request windows, `MinuteSync` runs windows by
   batches with a stock-by-stock retry, `SyncPlan` puts the two together, `SyncTimeline` follows the table request by
   request, `SyncCounts` ties the counters to the replies, `Coverage` relates the coverage totals to the rows of each stock.
4. **The trading store.** `TradingStore` models each repository method as one transaction over tables with uniqueness
   constraints; `TradingSteps` says what each step does and leaves alone, `TradingRuns` what every sequence of steps keeps
   and that a repeated trade takes effect once, `TradingTotals` what an account's cash and shares add up to.

`Downsample` covers the thinning of the equity curve. `Counterexamples` holds concrete inputs on which a property fails
once its condition is dropped. `Options`, `Rounding`, `Clock`, `Market`, `Signals`, `Sorting`, `Sums` and `TradeLog` are shared.

## How to read the model

- Prices are integers in 0.0001 yuan, money is an integer in cents, quantities are shares in board lots of 100, so price
  times quantity is a whole number of cents. Lot costs, rates and market values are reals. `Rounding.Round` is rounding
  half to even.
- A day is its ordinal in the calendar, so text order on dates is order on days. `Clock.Stamp` keeps the three spellings of
  a time (none, a bare date, date and clock); `TextOrder` is the order of the texts. A bare date precedes every minute of
  its day as text, yet the broker processes it at 15:00.
- An optional signal field is not given, given but not a number, or a number.
- A BUY at price 0 divides by zero and aborts the whole run; the model keeps this as a `crashed` state.
- Functions specify, methods follow the source's loops and classes, and each method is proved to compute its function.
  `BrokerRuns.After(…, n)` is the state after `n` loop iterations, so a lemma over all `n` speaks of every reachable state.
- The adapter of the sync is an arbitrary function of request number and request that may fail before anything is written.
  `Honest` says it delivers only what was asked for; `Reliable` says it never fails and has every expected day.

## Findings

- A purchase without a time is processed at the end of time, so its exit lands in the already processed past
  (`BrokerRuns.UndatedExit`, `Counterexamples.UndatedRunGoesBack`); a run stays in order exactly as long as that has not
  happened (`EventOrder.InOrderIff`). The signal validation always dates signals (`SignalCheck.ValidateSignals`), so
  runs fed through it are safe.
- `_average_holding_days` ignores T+1. In daily runs of dated signals this makes no difference. In minute runs lots can
  stand out of day order; the pairings then differ exactly when a sale reaches past a lot that T+1 holds back
  (`PairingAgreement.MetricsPairAsTheLedger`), and `Counterexamples.UnorderedLotsPairDifferently` is a run that does.
- The metrics lose trades on days without a daily bar. What is missing is exact for cash (`MetricsAgreement.CashGap`) and
  positions (`MetricsAgreement.PositionGap`); nothing is lost when every minute bar falls on a day with a daily bar
  (`TradeDays.AccountsAgreeOnData`); `Counterexamples.MissingDayBreaksReplay` is a run that loses a purchase.
- A daily coverage row can be complete with an expected day missing, and the daily ALL row while a stock's row is not; both
  exactly when unexpected rows pay for the gap (`Coverage.DailyRowMeaning`, `Coverage.DailyTotalMeaning`). A displayed
  rate of 100.00 % may hide one missing unit in 20000 (`Coverage.FullRateMeaning`).
- With one bar per stock and minute, and where the limit cuts neither result short, the query and the scan differ exactly
  when a stock triggers on a day before its latest, or is listed in two chunks and triggers on its latest day
  (`MinuteTriggers.ScanAndQueryAgree`); how often each returns a row is exact (`MinuteTriggers.HowOften`).
- Two bars of a stock within one minute can mislead both searches (`MinuteQuery.CrowdedMinuteMisleadsQuery`,
  `MinuteScan.CrowdedMinuteHidesTriggerFromScan`). The scan is right exactly when each trigger ends a chain of rows
  (`MinuteScan.ScanIsRightIff`), the query exactly when the islands of every stock-day fit (`MinuteQuery.QueryIsRightIff`).
- A signal whose order failed is set back to unprocessed, but its link row stays and blocks every later order for it
  (`TradingRuns.FailedSignalIsBlocked`).
- The refusal of a sale of less than a board lot cannot occur: the two checks before it exclude it
  (`OrderSizing.SaleIsLargest`).
- In a minute backtest a signal with a bare date is processed at 15:00 but may be filled at an earlier minute of that day
  (`StrategyContext.FillBeforeProcessing`).
- The thinned equity curve exceeds the requested number of points whenever it is thinned at all
  (`Downsample.LimitKeptIff`), with up to twice that number less one (`Downsample.AtMostTwice`, `Downsample.TwiceIsReached`).

## Model
| member | source | states |
|---|---|---|
| Clock.BareDateQuirk | backend/services/backtest_center/backtest_engine.py:724-730 | As text a bare date precedes every minute of its day; it is processed after exactly the minutes before 15:00. |
| Clock.TextOrderMeaning | backend/services/backtest_center/backtest_engine.py:721-733 | Text order of the three spellings: no time first, then by day, a bare date before every clock time of its day, then by clock time; equal only if the same. |
| Rounding.Round | backend/services/backtest_center/backtest_engine.py:518-520 | Rounds to the nearest whole unit, ties to even. |
| Market.FirstAfterMonotone | backend/services/backtest_center/backtest_engine.py:509-516 | On ascending bars, a later question day never finds an earlier fill bar. |
| OrderSizing.NextBarIsEarliest | backend/services/backtest_center/backtest_engine.py:509-516 | The fill bar of a daily run is the earliest after the signal's day, or after the first bar if the signal has no time, and missing only if there is none. |
| Market.Slipped | backend/services/backtest_center/backtest_engine.py:518-520 | The base price moved by the slippage against the order, a sale not below 0.01 yuan, rounded to 0.0001 yuan; never a better price than the base, unless that floor applies. |
| Market.PreviousIsClosest | backend/services/backtest_center/backtest_engine.py:522-530 | The scan for the previous close finds exactly the closest earlier trading day. |
| Market.IsLimitBlocked | backend/services/backtest_center/backtest_engine.py:522-534 | The loop blocks exactly bars frozen at one price at least 9.5 % from that close, in the direction of the order. |
| OrderFills.LimitBlockedIff | backend/services/backtest_center/backtest_engine.py:522-534 | On ascending bars, blocked if and only if frozen at one price and at least 9.5 % above (to buy) or below (to sell) the positive close of the closest earlier day. |
| Signals.BuyBudget | backend/services/backtest_center/backtest_engine.py:735-744 | Exactly the least of the per-order amount, the cash in hand and the signal's own amount if that is positive. |
| Signals.RequestedQuantity | backend/services/backtest_center/backtest_engine.py:746-754 | A requested quantity counts exactly from one board lot up, rounded down to whole lots. |
| Signals.ExitAfter | backend/services/backtest_center/backtest_engine.py:938-943 | The days of the stop/take field, or of the holding field when it is not given, rounded down; one when neither is a number from 1 up. |
| Signals.SellAfter | backend/services/backtest_center/backtest_engine.py:963-970 | The days of the first of the three fields that is given, rounded down; never if it is not a number from 0 up. |
| Signals.Percent | backend/services/backtest_center/backtest_engine.py:930-936 | A percentage counts as given when it is a number from 0 up, and is 0 otherwise. |
| AutoExit.StopPrice | backend/services/backtest_center/backtest_engine.py:835-835 | The stop exists exactly for a positive percentage, and is the purchase price less that percentage of it, to 0.0001 yuan with ties to even, never above the purchase price. |
| AutoExit.TakePrice | backend/services/backtest_center/backtest_engine.py:836-836 | The take exists exactly for a positive percentage, and is the purchase price plus that percentage of it, to 0.0001 yuan with ties to even, never below the purchase price. |
| AutoExit.SortedDays | backend/services/backtest_center/backtest_engine.py:953-961 | The future trading days, each once, ascending. |
| AutoExit.ScanForExit | backend/services/backtest_center/backtest_engine.py:836-870 | The loop with its five branches computes the exit selection. |
| AutoExit.ScanIsEarliestHit | backend/services/backtest_center/backtest_engine.py:836-870 | The exit is the first row touching stop or take, otherwise the last; the price is one traded in that minute: the open where it lies beyond a price, else the stop if touched, else the take, else the open. |
| AutoExit.CollectRows | backend/services/backtest_center/backtest_engine.py:827-831 | Collects exactly the minute bars of the scan days from the opening on, the last day cut at the fallback clock. |
| AutoExit.ControlledExitEvent | backend/services/backtest_center/backtest_engine.py:804-900 | The stop/take exit, with each refusal, computes its specification. |
| AutoExit.AutoExitEvent | backend/services/backtest_center/backtest_engine.py:756-802 | Any exit scheduled for a purchase is a SELL of the whole purchased quantity of the same stock, on a bar of a strictly later day and keyed at that day; whether there is one, and which, is stated by the two rows of ScheduledExits that follow StopTakeExit. |
| ExitScan.ScanDaysAreFirst | backend/services/backtest_center/backtest_engine.py:953-961 | The days scanned are exactly the first n trading days after the purchase, or none when fewer follow. |
| ExitScan.RowsAreScan | backend/services/backtest_center/backtest_engine.py:820-834 | The rows scanned are exactly the minutes the rule watches. |
| ExitScan.ControlledRowsInOrder | backend/services/backtest_center/backtest_engine.py:827-831 | They are in time order across days. |
| ExitScan.StopTakeExit | backend/services/backtest_center/backtest_engine.py:804-900 | End to end: no exit iff no minute is watched; otherwise it falls on the earliest watched minute touching stop or take, or on the last watched minute if none does, at the fixed price, which was traded in that minute. |
| ScheduledExits.RuledExitIff | backend/services/backtest_center/backtest_engine.py:756-900 | Under a stop/take rule in a minute backtest an exit is scheduled if and only if some minute is watched, with no fallback to holding days: on the earliest watched minute touching stop or take, or on the last watched one, at that price, at that minute, for the whole quantity. |
| ScheduledExits.HeldExitIff | backend/services/backtest_center/backtest_engine.py:756-802 | Otherwise an exit is scheduled if and only if at least as many trading days follow as the purchase is to be held, and at least one is asked for: on exactly the n-th of them, at its opening, at the price of its bar. |
| ScheduledExits.PurchaseQueuesRuledExit | backend/services/backtest_center/backtest_engine.py:676-687 | From any state, a purchase filled under a rule adds exactly that exit to the pending events, numbered next, and adds nothing if no minute is watched. |
| ScheduledExits.PurchaseQueuesHeldExit | backend/services/backtest_center/backtest_engine.py:676-687 | Any other purchase adds exactly the sale after its holding days, or nothing. |
| ScheduledExits.RuledExitIsProcessed | backend/services/backtest_center/backtest_engine.py:627-719 | From any state to the end of the run: such a purchase is followed, unless the run is aborted, by its exit on that minute and at that price. |
| ScheduledExits.OthersQueueNothing | backend/services/backtest_center/backtest_engine.py:627-719 | Sales, refusals and observations only take the first event off the list. |
| ScheduledExits.SignalsAreProcessed | backend/services/backtest_center/backtest_engine.py:608-730 | A run that is not aborted has processed every signal it was given, each at its own time and in its place in the list. |
| Ledgers.ConsumeShares | backend/services/backtest_center/backtest_engine.py:564-579 | A sale within the available shares is served in full, only from lots bought on strictly earlier days, and lowers the availability of every day from then on by what was sold. |
| Ledgers.ConsumeCosts | backend/services/backtest_center/backtest_engine.py:564-579 | The walk conserves cost: what leaves plus what stays is what was there; lots stay whole board lots of non-negative cost. |
| LotHistory.FrontFirst | backend/services/backtest_center/backtest_engine.py:564-579 | First in, first out: the lots in front give all that T+1 lets them, and only what is still wanted is taken from those behind. |
| LotHistory.LotsKeepTheirCost | backend/services/backtest_center/backtest_engine.py:547-579 | In every reachable state each open lot is what remains of a purchase of the run: its day, no more than its shares, and exactly its cost per share, fee included. |
| Ledgers.BoughtKeepsBook | backend/services/backtest_center/backtest_engine.py:547-552 | A purchase keeps positions and costs equal to their lots and moves no value in or out of the book. |
| Ledgers.SoldKeepsBook | backend/services/backtest_center/backtest_engine.py:557-562 | A covered sale reaches neither clamp at 0 and changes cash plus lot cost by exactly its unrounded profit. |
| Ledgers.Portfolio.constructor | backend/services/backtest_center/backtest_engine.py:538-542 | Opens with the initial cash and no holdings. |
| Ledgers.Portfolio.Buy | backend/services/backtest_center/backtest_engine.py:547-552 | Updates cash, position, cost and lots in place to the specified ledger. |
| Ledgers.Portfolio.Sell | backend/services/backtest_center/backtest_engine.py:557-562 | Updates the ledger in place to the specified one and returns the profit rounded to cents. |
| Ledgers.Portfolio.ConsumeLots | backend/services/backtest_center/backtest_engine.py:564-579 | The loop over lots computes the first-in first-out walk and touches no other stock. |
| Broker.JudgeEvent | backend/services/backtest_center/backtest_engine.py:635-713 | The guards of one iteration, in order, decide skip (with its status), fill (price, quantity, fee, tax) or division by zero as specified. |
| Broker.FilledInBoardLots | backend/services/backtest_center/backtest_engine.py:635-713 | A fill is in whole board lots, at least one, on the event's bar, inside the backtest's dates, and never for an observed signal. |
| OrderFills.BarOfEvent | backend/services/backtest_center/backtest_engine.py:978-997 | An exit keeps the bar it came with; a signal takes the earliest minute after it up to the last day in a minute backtest, only where there is none the earliest daily bar after its day, and has no bar only if there is neither. |
| OrderFills.PriceOfFill | backend/services/backtest_center/backtest_engine.py:902-911 | A fill is priced from the known price of an exit if it has one, otherwise from the open or close of its bar as the task says, moved by the slippage against the order, to 0.0001 yuan, a sale never below 0.01 yuan. |
| OrderFills.PastTheGuards | backend/services/backtest_center/backtest_engine.py:635-667 | Each of the five first refusals if and only if its own condition holds and no earlier one does; past them only money or holdings decide. |
| OrderFills.FilledIff | backend/services/backtest_center/backtest_engine.py:635-714 | On a sound ledger an event is filled if and only if its bar is inside the backtest, is traded and not at the limit, and one lot is within budget (a purchase) or available under T+1 (a sale). |
| OrderFills.StepIsRecorded | backend/services/backtest_center/backtest_engine.py:627-719 | Each event gets exactly one audit row with its verdict; a trade row is added if and only if it was filled, with the stock, side, price, quantity and time of the fill; only a division by zero aborts. |
| Broker.ScheduleExit | backend/services/backtest_center/backtest_engine.py:756-802 | Computes the exit event, stop/take rule first, holding days otherwise. |
| Broker.Settle | backend/services/backtest_center/backtest_engine.py:677-717 | Books a fill in the portfolio and yields exactly the specified trade row and exit event. |
| Broker.WeightOfSort | backend/services/backtest_center/backtest_engine.py:685-687 | Re-sorting the pending suffix loses and adds no work. |
| Broker.StepShrinks | backend/services/backtest_center/backtest_engine.py:627-719 | Each iteration lowers "2 per pending BUY, 1 per other event": the growing loop terminates. |
| Broker.RunAll | backend/services/backtest_center/backtest_engine.py:627-719 | A run ends with no event pending, or aborts on a division by a zero price. |
| Broker.ExecuteWithAudit | backend/services/backtest_center/backtest_engine.py:596-719 | The loop over the growing list ends with the trades, audits and ledger of the specified run. |
| OrderSizing.FirstAfterIsEarliest | backend/services/backtest_center/backtest_engine.py:509-516 | On ascending bars the fill bar is the earliest after the signal's day, missing only if there is none. |
| OrderSizing.NextMinuteIsEarliest | backend/repositories/backtest_center/backtest_repository.py:869-886 | The minute fill bar is the earliest after the signal up to the end of the last day, missing only if there is none. |
| OrderSizing.PurchaseIsLargest | backend/services/backtest_center/backtest_engine.py:668-676 | A purchase is made if and only if one board lot is within budget, refused for lack of cash otherwise, and then of the most lots within it; only a zero price aborts. |
| OrderSizing.SaleIsLargest | backend/services/backtest_center/backtest_engine.py:688-714 | On a sound ledger a sale is made if and only if T+1 makes a board lot available, then of the most lots wanted; each refusal's exact condition; the odd-lot refusal never occurs. |
| OrderSizing.NthBarAfter | backend/services/backtest_center/backtest_engine.py:972-976 | The n-th bar after a day has exactly n trading days up to and including it. |
| OrderSizing.HeldExactly | backend/services/backtest_center/backtest_engine.py:756-802 | Without a stop/take rule, or outside minute data, a purchase held for n trading days is sold on exactly the n-th one; no exit if and only if n is 0 or the bars end before. |
| BrokerRuns.EndIsReached | backend/services/backtest_center/backtest_engine.py:627-719 | The result of a run is one of the states the invariants speak about. |
| BrokerRuns.NeverIntoThePast | backend/services/backtest_center/backtest_engine.py:608-730 | With dated signals, processed events are strictly ordered by (time, sequence) and everything pending, inserted exits included, lies after them. |
| BrokerRuns.ExitComesLater | backend/services/backtest_center/backtest_engine.py:756-802 | A purchase's exit comes on a later day than the event that bought. |
| BrokerRuns.UndatedExit | backend/services/backtest_center/backtest_engine.py:724-727 | Without a time, an exit follows its purchase if and only if it falls on the last second of the last day. |
| EventOrder.InOrderIff | backend/services/backtest_center/backtest_engine.py:608-730 | For any signals, with or without a time: processed and pending events of a reachable state are strictly ordered if and only if no purchase without a time processed so far scheduled an exit before the last second of the last day. |
| BrokerRuns.AlwaysKept | backend/services/backtest_center/backtest_engine.py:547-719 | In every reachable state: positions and costs equal their lots, cash is what the trades add up to, per stock and day purchases before it cover sales up to it, cash plus lot cost equals initial cash plus recorded profit within half a cent per sale, every trade's amount is price times quantity and its fee the amount times the fee rate to the nearest cent, ties to even (for a sale plus the stamp tax, rounded by itself), one audit per event, filled audits match trades, events never exceed signals plus purchases. |
| BrokerRuns.SettleTPlusOne | backend/services/backtest_center/backtest_engine.py:554-579 | Each fill keeps the T+1 balance: what was bought before any day covers what is sellable plus what was sold up to it. |
| BrokerRuns.PurchaseIsWithinBudget | backend/services/backtest_center/backtest_engine.py:668-677 | A purchase before its fee never exceeds the cash or the per-order amount; its fee is the amount times the fee rate to the nearest cent, ties to even, never more than that of a full order, and it pays no stamp tax. |
| BrokerRuns.SaleIsCovered | backend/services/backtest_center/backtest_engine.py:688-714 | A sale is for whole board lots, never more than T+1 makes available, at 0.01 yuan or more; its fee and its stamp tax are each the amount times the rate to the nearest cent, ties to even. |
| BrokerRuns.OverdraftBound | backend/services/backtest_center/backtest_engine.py:668-677 | As long as no sale cost more than it brought in, cash never falls below minus one full order's rounded fee. |
| BrokerRuns.RunSalesPay | backend/services/backtest_center/backtest_engine.py:712-714 | At rates under which no amount from 1 yuan up is exceeded by its fee and tax, every sale of every run pays for itself. |
| BrokerRuns.RatesPayIff | backend/services/backtest_center/backtest_engine.py:712-714 | Exactly at such rates does every sale the broker can judge pay for its own fee and tax. |
| BrokerRuns.RatesThatPay | backend/services/backtest_center/backtest_engine.py:712-714 | Fee and stamp rate of at most 0.99 together are such rates; of more than 1 together are not. |
| BrokerRuns.NoCashNoPurchase | backend/services/backtest_center/backtest_engine.py:668-677 | While cash is 0 or less, only sales fill. |
| Metrics.GroupByDay | backend/services/backtest_center/backtest_engine.py:1068-1070 | The trade map holds each day's trades in list order. |
| Metrics.ClosePrice | backend/services/backtest_center/backtest_engine.py:1187-1195 | The loop returns the valuation price of the specified scan. |
| Metrics.CloseIsLatest | backend/services/backtest_center/backtest_engine.py:1187-1195 | That price is the close of the latest bar up to the day, or 0 when there is none. |
| Metrics.ValuePositions | backend/services/backtest_center/backtest_engine.py:1082-1087 | The loop over positions computes their market value, in whatever order it visits them. |
| Metrics.BuildEquity | backend/services/backtest_center/backtest_engine.py:1059-1102 | The loop over dates computes every equity row, with a running peak, or the one default row. |
| MetricsAgreement.ByDateTotal | backend/services/backtest_center/backtest_engine.py:1066-1081 | Grouping by date loses and adds nothing on the days with bars: any additive figure is the same. |
| MetricsAgreement.ExactReplay | backend/services/backtest_center/backtest_engine.py:1073-1081 | A replay whose prefixes never oversell is exact: cash and every position are what the trades add up to, so the clamp is never used. |
| MetricsAgreement.DateOrderNeverOversells | backend/services/backtest_center/backtest_engine.py:1066-1081 | T+1 keeps the date-ordered replay from overselling at any point of any day. |
| MetricsAgreement.AccountsAgree | backend/services/backtest_center/backtest_engine.py:1066-1102 | In every reachable state whose trade days all have a bar, the metrics' replay by date ends with exactly the ledger's cash and positions, although trades are not appended in date order. |
| MetricsAgreement.RowsAgree | backend/services/backtest_center/backtest_engine.py:1066-1099 | In every reachable state whose trade days are covered, each equity row is the account of its own day: cash and positions are what the trades dated up to that day add up to. |
| RowValues.RowsShow | backend/services/backtest_center/backtest_engine.py:1066-1099 | In every reachable state whose trade days are covered, the i-th equity row is for the i-th day: cash is the initial cash and the trades dated up to it, market value rounds the sum over the stocks held then of shares held times the close of the latest bar up to that day, equity rounds that sum plus the cash. |
| RowValues.RowDays | backend/services/backtest_center/backtest_engine.py:1065-1065 | The rows are for exactly the days inside the backtest on which some stock has a bar, ascending. |
| MetricsAgreement.CashGap | backend/services/backtest_center/backtest_engine.py:1066-1102 | In any run the reported cash misses exactly the trades on days without a daily bar. |
| MetricsAgreement.ClampedReplay | backend/services/backtest_center/backtest_engine.py:1073-1081 | Whatever the list, the clamped replay ends with what the trades add up to plus the shortfall it forgave. |
| MetricsAgreement.ShortfallIsDeepest | backend/services/backtest_center/backtest_engine.py:1073-1081 | That shortfall is the largest amount by which any prefix oversells. |
| MetricsAgreement.PositionGap | backend/services/backtest_center/backtest_engine.py:1066-1102 | In any run a reported position misses exactly the shares of the trades on days without a bar, less the shortfall forgiven. |
| TradeDays.TradesAreCovered | backend/services/backtest_center/backtest_engine.py:978-997 | If every minute bar dated inside the backtest falls on a day with some daily bar, so does every trade of every reachable state; daily backtests need no condition. |
| TradeDays.AccountsAgreeOnData | backend/services/backtest_center/backtest_engine.py:1066-1102 | Under that condition on the data, the two accounts agree in every reachable state. |
| Holding.PairSale | backend/services/backtest_center/backtest_engine.py:1162-1175 | The loop pairs a sale with the front lots and adds up share-weighted days. |
| Holding.AverageHoldingDays | backend/services/backtest_center/backtest_engine.py:1150-1178 | The loop computes the share-weighted average over all pairs, or 0. |
| Holding.OpenPositionCount | backend/services/backtest_center/backtest_engine.py:1139-1148 | Counts the stocks whose replayed position is positive. |
| HoldingDays.HeldDaysIs | backend/services/backtest_center/backtest_engine.py:1180-1185 | Between two dates with a row, the dates after the purchase up to the sale are counted; otherwise calendar days; never less than 0. |
| HoldingDays.AverageIsMean | backend/services/backtest_center/backtest_engine.py:1162-1178 | The average times all paired shares is the total of days times shares, to 0.0001 days. |
| HoldingDays.AverageWithin | backend/services/backtest_center/backtest_engine.py:1162-1178 | It lies between the shortest and the longest holding. |
| HoldingAgreement.TakesAgreeIff | backend/services/backtest_center/backtest_engine.py:1162-1175 | A sale that T+1 allows is paired alike with and without T+1 if and only if it fits into the shares in front of the first lot that T+1 holds back. |
| HoldingAgreement.TakeIsConsume | backend/services/backtest_center/backtest_engine.py:564-579 | Pairing under T+1 leaves exactly the lots the ledger's walk leaves. |
| HoldingAgreement.FillDaysMonotone | backend/services/backtest_center/backtest_engine.py:509-516 | In a daily run, of two purchases of a stock the one processed first fills no later. |
| HoldingAgreement.DailyAlways | backend/services/backtest_center/backtest_engine.py:596-719 | In every reachable state of a daily run lots stand in day order, no later than any pending purchase would fill, and trades fall on days with a bar. |
| HoldingAgreement.DailyRunsPairAlike | backend/services/backtest_center/backtest_engine.py:1150-1178 | In daily runs of dated signals the metrics' pairing is the ledger's: same open lots, same pairs, total weight equal to all shares sold, each sold on a later day than bought. |
| PairingAgreement.PairingsAgreeIff | backend/services/backtest_center/backtest_engine.py:1150-1178 | For any list of sales T+1 allows, the two pairings are the same if and only if each sale fits so; otherwise the metrics pair a sale with a purchase of the same or a later day. |
| PairingAgreement.RunPairsAsTheLedger | backend/services/backtest_center/backtest_engine.py:564-579 | In every reachable state of any run, pairing under T+1 leaves the ledger's lots, covers every share sold and pairs each with a strictly earlier purchase. |
| PairingAgreement.MetricsPairAsTheLedger | backend/services/backtest_center/backtest_engine.py:1150-1178 | In every reachable state of any run, minute or daily, the metrics' pairing is the ledger's if and only if each sale fits so. |
| HoldingAgreement.DailyAccountsAgree | backend/services/backtest_center/backtest_engine.py:1066-1102 | In daily runs the two accounts agree without any condition on coverage. |
| HoldingAgreement.OpenPositionsAgree | backend/services/backtest_center/backtest_engine.py:1139-1148 | In any run a stock counts as open exactly when the ledger still holds it. |
| Drawdown.PeakIsHighest | backend/services/backtest_center/backtest_engine.py:1072-1089 | The running peak is the highest point so far, the initial cash included, and is attained. |
| Drawdown.RowDrawdown | backend/services/backtest_center/backtest_engine.py:1088-1090 | Every row's drawdown is at most 0, is the drop from some earlier point, and for non-negative equity is the deepest such drop. |
| Drawdown.MaxDrawdownIsWorstDrop | backend/services/backtest_center/backtest_engine.py:1111-1111 | The reported maximum drawdown is the rounded worst drop over all pairs of points in time order, and is attained. |
| StrategyContext.NoLookAhead | backend/services/backtest_center/backtest_engine.py:88-106 | Two histories that agree up to the visible end (today in daily mode, before today in minute mode) give the same bars and the same latest price. |
| StrategyContext.SameVisibleEnd | backend/services/backtest_center/backtest_engine.py:236-243 | The visible end depends only on the past and never lies beyond it. |
| StrategyContext.RunnerCutIsInvisible | backend/services/backtest_center/backtest_engine.py:306-310 | Cutting the bars at the current day hides nothing the strategy could have seen. |
| StrategyContext.VisibleEndIs | backend/services/backtest_center/backtest_engine.py:236-243 | The current day in daily mode; in minute mode the latest earlier day on which any stock has a bar, or 1900-01-01. |
| StrategyContext.DailyBarsAre | backend/services/backtest_center/backtest_engine.py:88-95 | Exactly the bars of the stock inside the days asked for, up to the visible end. |
| StrategyContext.LatestPriceIs | backend/services/backtest_center/backtest_engine.py:104-106 | The close of the latest visible bar. |
| SignalCheck.ValidateSignals | backend/services/backtest_center/backtest_engine.py:312-396 | Accepts exactly when every item passes, each result with a standard code, no negative amount, dated within the backtest and no later than the current day; otherwise reports the first bad item's error. |
| SignalRules.FirstBrokenRule | backend/services/backtest_center/backtest_engine.py:317-390 | An item is accepted if and only if it breaks none of twelve rules, each stated by itself, and refused for the one it breaks whose turn comes first. |
| SignalRules.AcceptedIs | backend/services/backtest_center/backtest_engine.py:321-396 | What is passed on: the cleaned code, the action its cleaned text names, the amount if it is a number, the given time or the current day, everything else as it was. |
| SignalRules.StripIs | backend/services/backtest_center/backtest_engine.py:322-328 | Stripping takes blanks off both ends, all of them, and nothing else. |
| SignalRules.ActionNames | backend/services/backtest_center/backtest_engine.py:322-324 | Exactly the three names are actions, each its own. |
| SignalRules.StandardIff | backend/services/backtest_center/backtest_engine.py:328-329 | A code is standard if and only if it is six digits, a dot and SH, SZ or BJ. |
| SignalCheck.CleanIsStable | backend/services/backtest_center/backtest_engine.py:322-328 | Trimming and upper-casing a code or an action again changes nothing. |
| StrategyContext.FillIsLater | backend/services/backtest_center/backtest_engine.py:978-997 | A signal that is not an automatic exit fills only on a bar strictly later than its own time. |
| StrategyContext.FillBeforeProcessing | backend/services/backtest_center/backtest_engine.py:724-730 | A fill precedes the moment its event is processed exactly for a bare date filled at a minute of its own day before 15:00, and for a signal without a time unless filled on the last second of the last day. |
| StrategyContext.AdmissibleRunsMoveForward | backend/services/backtest_center/backtest_engine.py:374-396 | Runs over validated signals never schedule into the past. |
| Counterexamples.UndatedRunGoesBack | backend/services/backtest_center/backtest_engine.py:724-727 | A concrete run of one undated purchase whose pending exit lies before the event already processed. |
| Counterexamples.UnorderedLotsPairDifferently | backend/services/backtest_center/backtest_engine.py:1162-1175 | A concrete run of a minute backtest that sells what it bought the day before, while the metrics pair the sale with a purchase of the same day and report 0 days held instead of 1. |
| Counterexamples.MissingDayBreaksReplay | backend/services/backtest_center/backtest_engine.py:1066-1081 | A concrete finished run that ends with its initial cash, of which the metrics see only the sale and report 1 yuan more. |
| MinuteQuery.HitOrderIsRun | backend/repositories/data_center/data_center_repository.py:459-479 | With at most one bar per minute reaching the amount, the row number within an island reaches k exactly where k consecutive such minutes end. |
| MinuteQuery.QuerySelectsTriggers | backend/repositories/data_center/data_center_repository.py:480-490 | Where the islands of a stock-day fit, the earliest hit is exactly its trigger. |
| MinuteQuery.QueryIsRightIff | backend/repositories/data_center/data_center_repository.py:432-503 | On any table in key order, crowded minutes included, the windowed query returns exactly the triggers if and only if the islands of every stock-day fit: the first row at depth k ends a run, and each trigger stands at depth k or more. |
| MinuteQuery.QueryIsTriggers | backend/repositories/data_center/data_center_repository.py:432-503 | They fit where at most one bar of a minute reaches the amount; there the query returns exactly the triggers of its rows, in order. |
| MinuteScan.StreakStep | backend/repositories/data_center/data_center_repository.py:617-639 | On any table, the streak kept per stock is the longest chain of its rows, hot and in consecutive minutes, ending at the latest. |
| MinuteRows.TriggerIsFirstRun | backend/repositories/data_center/data_center_repository.py:626-637 | On any table in key order, a row is a trigger exactly when it is hot, ends a run and no earlier hot row of its stock and day does. |
| MinuteScan.ScanRows | backend/repositories/data_center/data_center_repository.py:604-645 | The one-pass loop over any rows, with the marks of earlier chunks, computes the automaton's result up to the limit. |
| MinuteScan.ScanIsChains | backend/repositories/data_center/data_center_repository.py:604-645 | On any table the automaton returns the first chain of k of each stock-day not marked before. |
| MinuteScan.ScanIsTriggers | backend/repositories/data_center/data_center_repository.py:604-645 | Where each trigger ends a chain, the automaton finds exactly the triggers of stock-days not marked before, and marks exactly those with a trigger. |
| MinuteScan.ScanIsRightIff | backend/repositories/data_center/data_center_repository.py:604-645 | On any table in key order, crowded minutes included, the scan returns exactly the triggers if and only if each trigger ends a chain: the last k rows of its stock are its run. |
| MinuteScan.OneBarIsChained | backend/repositories/data_center/data_center_repository.py:617-625 | That holds wherever a stock has at most one bar per minute. |
| MinuteTriggers.SafeConsecutive | backend/repositories/data_center/data_center_repository.py:411-411 | The number of consecutive minutes asked for from 1 to 60, 1 below and 60 above. |
| MinuteTriggers.SafeLimit | backend/repositories/data_center/data_center_repository.py:410-410 | The limit asked for from 1 to 6000, 1 below and 6000 above. |
| MinuteTriggers.FindMinuteAmountTriggers | backend/repositories/data_center/data_center_repository.py:393-523 | The chunk loop over the query, on any table and list of stocks, returns the chunks' results cut at the limit. With one bar per stock and minute these are rows of listed stocks inside the clock window that are the first of their stock-day to end as many consecutive hot minutes as asked for, on the stock's latest day, and all of them when fewer than the limit asked for. |
| MinuteTriggers.ReplayMinuteAmountTriggers | backend/repositories/data_center/data_center_repository.py:525-658 | The chunk loop over the scan, its marks kept across chunks, returns the chunks' results cut at the limit and sorted. With one bar per stock and minute these are such rows of any day, and all of them when fewer than the limit; the limit is reported as hit exactly when as many are returned. |
| MinuteTriggers.ChunksFindAll | backend/repositories/data_center/data_center_repository.py:415-416 | Over tables of any number of days: the scan returns exactly the triggers of all listed stocks and days, the query exactly those of each stock's latest day. |
| MinuteTriggers.HowOften | backend/repositories/data_center/data_center_repository.py:393-658 | The query returns a trigger of its stock's latest day once per chunk that lists the stock, the scan every trigger exactly once. |
| MinuteTriggers.ListingsAreBlocks | backend/repositories/data_center/data_center_repository.py:415-416 | A stock is in as many chunks as there are blocks of 500 places of the list it occurs in. |
| MinuteTriggers.ScanAndQueryAgree | backend/repositories/data_center/data_center_repository.py:393-658 | The two agree up to the scan's sort, under every limit, when each trigger lies on its stock's latest day and no stock with a trigger is listed in two chunks; where the limit cuts neither short, if and only if. |
| MinuteQuery.CrowdedMinuteMisleadsQuery | backend/repositories/data_center/data_center_repository.py:459-466 | Two bars in one minute make the query report a run that has a gap: a table in key order whose islands do not fit. |
| MinuteQuery.CrowdedMinuteHidesTriggerFromQuery | backend/repositories/data_center/data_center_repository.py:459-466 | Two bars in one minute make the query miss a run: another such table. |
| MinuteScan.CrowdedMinuteHidesTriggerFromScan | backend/repositories/data_center/data_center_repository.py:617-625 | They make the scan miss it, too: its trigger ends no chain. |
| MinuteWindows.GreedyPartitions | backend/services/data_center/data_center_service.py:1606-1626 | The windows are an ordered partition of the trading days, none empty. |
| MinuteWindows.GreedyFits | backend/services/data_center/data_center_service.py:1606-1626 | Each window has at most the requested number of days and spans at most 7 calendar days. |
| MinuteWindows.SuffixNeedsNoMore | backend/services/data_center/data_center_service.py:1606-1626 | Dropping the first days never needs more windows. |
| MinuteWindows.GreedyIsShortest | backend/services/data_center/data_center_service.py:1606-1626 | No split into such windows uses fewer. |
| MinuteWindows.WindowPasses | backend/services/data_center/data_center_service.py:1665-1689 | The range check accepts a window exactly when it spans at most 7 calendar days. |
| MinuteWindows.RangeCheckIs | backend/services/data_center/data_center_service.py:1676-1689 | A range is refused as empty if and only if it does not end after it starts, and as too large if and only if it ends eight whole days after it starts or later. |
| MinuteWindows.GreedyWindowsPass | backend/services/data_center/data_center_service.py:1606-1689 | No window of the split can fail the range check. |
| MinuteWindows.MinuteDateWindows | backend/services/data_center/data_center_service.py:1606-1626 | The loop that grows the current window computes the greedy split. |
| MinuteSync.MergeMinuteRowsIntoCoverage | backend/services/data_center/data_center_coverage.py:97-108 | The loop adds each row's day to its stock, ignoring unknown stocks. |
| MinuteSync.StoreAgrees | backend/services/data_center/data_center_coverage.py:97-108 | Storing a delivery and merging it keeps the cached days equal to the table's. |
| MinuteSync.RowKeepsAgreementIff | backend/services/data_center/data_center_coverage.py:97-108 | Storing one row keeps cache and table in agreement if and only if its stock is not watched, its day is known already, or it lies in the asked period and range. |
| MinuteSync.RetryEach | backend/services/data_center/data_center_service.py:1244-1266 | The stock-by-stock retry computes its specification, each stock counted as success, no data or failed. |
| MinuteSync.SyncBatch | backend/services/data_center/data_center_service.py:1174-1266 | One batch: skip what is covered, ask for the rest, fall back on failure. |
| MinuteSync.RunMinuteBatches | backend/services/data_center/data_center_service.py:1171-1266 | The nested loop over windows and batches computes the specified run. |
| MinuteSync.BatchProgress | backend/services/data_center/data_center_service.py:1185-1266 | A batch asks only for stocks that lack an expected day in the table, asks for all of them, and counts each stock once. |
| MinuteSync.RunProgress | backend/services/data_center/data_center_service.py:1171-1266 | From any state in which cache and table agree, the whole run keeps them in agreement, loses nothing, and makes only needed requests. |
| MinuteSync.SyncKeepsPromises | backend/services/data_center/data_center_service.py:1121-1267 | Over a whole run with failures: cached days equal stored days, every request was for stocks lacking a day when the run began, none that still misses a day was skipped, and skipped + success + no data + failed = windows times stocks. |
| SyncCounts.CountersAreReplies | backend/services/data_center/data_center_service.py:1200-1266 | The requests of any run are batches, each failed one followed by one request per stock of it, and the counters are exactly what the replies add up to: failed only where the stock's own retry failed, success where a reply has rows of it, no data otherwise. |
| SyncTimeline.RequestsAreTimely | backend/services/data_center/data_center_service.py:1171-1266 | Without overwrite, every request, retries included, asked only for stocks that lacked an expected day of its window at that moment; the final table is what the replies made of the first. |
| MinuteSync.RunFills | backend/services/data_center/data_center_service.py:1171-1266 | With a reliable adapter, one run stores every expected day of its windows. |
| MinuteSync.SecondRunIsIdle | backend/services/data_center/data_center_service.py:1141-1197 | Running again then makes no request and skips everything. |
| SyncPlan.PlanCovers | backend/services/data_center/data_center_service.py:1606-1626 | Every trading day lies in a window of the plan, and the plan stays within the requested range. |
| SyncPlan.PlannedRequestsPass | backend/services/data_center/data_center_service.py:1215-1216 | Whatever the adapter answers, no request of a planned run fails the range check. |
| SyncPlan.PlannedRunStoresAll | backend/services/data_center/data_center_service.py:1121-1267 | A planned run over a reliable adapter leaves no expected trading day unstored. |
| Coverage.FromListing | backend/services/data_center/data_center_coverage.py:22-26 | A stock is expected exactly on the trading days from its listing on. |
| Coverage.ListedStockMeaning | backend/services/data_center/data_center_service.py:1518-1534 | A stock's minute row is complete exactly when its tradable days are stored, or, without any daily bar, its calendar days from listing on. |
| Coverage.UnitsMeet | backend/services/data_center/data_center_service.py:531-535 | Covered stock-days never exceed expected ones, and equal them exactly when every expected day of every stock is stored. |
| Coverage.AllMinuteRowIsEveryRow | backend/services/data_center/data_center_service.py:531-595 | The ALL minute row is complete if and only if every stock's minute row is. |
| Coverage.DuplicatesShowOnlyInTotal | backend/services/data_center/data_center_coverage.py:67-69 | A duplicate fails the total row and no stock's row. |
| Coverage.DailyRowsCompleteTotal | backend/services/data_center/data_center_service.py:493-505 | Complete daily rows make the daily total complete. |
| Coverage.DailyTotalHidesGap | backend/services/data_center/data_center_service.py:493-505 | The converse fails on a concrete input: two stocks listed on the same day. |
| Coverage.DailyTotalMeaning | backend/services/data_center/data_center_service.py:493-576 | The daily total is complete if and only if surplus days and rows of unlisted stocks pay for the shortage; it tells whether every stock's row is complete except exactly where they pay for a real one. |
| Coverage.DailyRowMeaning | backend/services/data_center/data_center_service.py:556-576 | A stock's daily row is complete if and only if it has at least as many unexpected days as missing ones. |
| Coverage.DailyRowHidesGap | backend/services/data_center/data_center_service.py:556-576 | A concrete stock whose only expected day is missing and whose row is complete. |
| Coverage.FullRateMeaning | backend/services/data_center/data_center_coverage.py:55-66 | 100.00 % is shown exactly when nothing is missing or at most one unit in 20000 is. |
| Coverage.CoverageRowIs | backend/services/data_center/data_center_coverage.py:53-71 | Each status if and only if its condition holds, and the rate: full when there is enough, the share of rows or of days otherwise. |
| Coverage.Rate | backend/services/data_center/data_center_coverage.py:57-64 | The share of what is expected, in 0.01 percent to the nearest with ties to even, and never above 100 %. |
| TradingStore.Store.CreateOrder | backend/repositories/trading_center/trading_repository.py:321-325 | Inserts the order unless its id exists or an active order holds its key. |
| TradingStore.Store.CreateSignalOrder | backend/repositories/trading_center/trading_repository.py:327-347 | Order, link and signal change together or not at all, with each refusal. |
| TradingStore.Store.UpdateOrderSubmit | backend/repositories/trading_center/trading_repository.py:349-359 | Sets the status unless the active-key constraint is violated. |
| TradingStore.Store.UpdateOrderStatus | backend/repositories/trading_center/trading_repository.py:361-375 | Sets status and fill of order and link, rolling both back on a violated constraint. |
| TradingStore.Store.MarkSignalOrderFailed | backend/repositories/trading_center/trading_repository.py:390-399 | Labels the link failed and reopens the signal that points to that order. |
| TradingStore.Store.IgnoreSignal | backend/repositories/trading_center/trading_repository.py:401-404 | Ignores only an unprocessed signal. |
| TradingStore.Store.AddSignal | backend/repositories/strategy_dev/strategy_repository.py:341-361 | A new signal enters unprocessed and without an order. |
| TradingStore.Store.InsertOrder | backend/repositories/trading_center/trading_repository.py:550-565 | The insert succeeds exactly when no unique constraint is violated. |
| TradingStore.Store.UpsertTradeAndApplyEffect | backend/repositories/trading_center/trading_repository.py:423-461 | A known trade changes nothing; a new one fills its order and moves position and account. |
| TradingStore.Store.ApplyPositionAndAccountSnapshot | backend/repositories/trading_center/trading_repository.py:567-638 | Writes the next position snapshot and, if the account is known, its next balance. |
| TradingSteps.CreateOrderDoes | backend/repositories/trading_center/trading_repository.py:321-325 | An order is inserted if and only if its id is new and each key keeps at most one active order; nothing else changes. |
| TradingSteps.CreateSignalOrderDoes | backend/repositories/trading_center/trading_repository.py:327-347 | In a consistent store a signal is ordered if and only if it is unprocessed, has no link row and its order can be inserted; then it is marked ordered by that order, linked and the order stored, and no other row changes; otherwise none does. |
| TradingSteps.UpdateStatusDoes | backend/repositories/trading_center/trading_repository.py:361-375 | The order takes the status and fill, its link rows the status, unless an active key would be shared, in which case nothing changes; for an unknown order only link rows change. |
| TradingSteps.UpdateSubmitDoes | backend/repositories/trading_center/trading_repository.py:349-359 | The order takes the status, unless an active key would be shared or there is no such order. |
| TradingSteps.MarkFailedDoes | backend/repositories/trading_center/trading_repository.py:390-399 | Only a link and a signal that belong to that order change: the link is labelled failed, the signal is unprocessed again and keeps its order. |
| TradingSteps.IgnoreDoes | backend/repositories/trading_center/trading_repository.py:401-404 | Only an unprocessed signal becomes ignored. |
| TradingSteps.AddDoes | backend/repositories/strategy_dev/strategy_repository.py:341-361 | A new signal is unprocessed and has no order; a known one is not touched. |
| TradingSteps.TradeDoes | backend/repositories/trading_center/trading_repository.py:423-461 | A known trade changes nothing; a new one is stored and its order and link rows are filled, with no less than was filled before or was traded; no other order and no signal changes. |
| TradingRuns.AlwaysConsistent | backend/core/database.py:251-321 | After any steps, an ordered signal points to an existing order and its link row, links name distinct existing orders, and each key has at most one active order. |
| TradingRuns.OrderedAtMostOnce | backend/repositories/trading_center/trading_repository.py:327-347 | In any run a signal is ordered at most once. |
| TradingRuns.FailedSignalIsBlocked | backend/repositories/trading_center/trading_repository.py:390-399 | After a failed order no later attempt for the signal can succeed, and none leaves a stray order behind. |
| TradingRuns.TradesApplyOnce | backend/repositories/trading_center/trading_repository.py:423-461 | Latest positions and balances equal those from the first occurrence of each new trade, whatever is repeated or lies between. |
| TradingTotals.FirstTradesCount | backend/repositories/trading_center/trading_repository.py:426-432 | The trades that count are exactly those of the steps whose trade is neither stored already nor applied by an earlier step, in order. |
| TradingTotals.RunMovesCash | backend/repositories/trading_center/trading_repository.py:623-638 | Over any run with a forward clock a known account's latest cash is what it began with, less amount and fee of each purchase and plus amount less fee of each sale, each trade that counts once; frozen cash and today's profit stay. |
| TradingTotals.RunMovesShares | backend/repositories/trading_center/trading_repository.py:585-597 | Over any such run the shares held are those it began with plus what the trades add up to plus what the deepest sale oversold; the same for the shares that may be sold, which no purchase raises. |
| TradingTotals.OversoldIsDeepest | backend/repositories/trading_center/trading_repository.py:595-596 | That amount is 0 or what some sale oversold, and no sale oversold more. |
| TradingTotals.PositionAfterTrade | backend/repositories/trading_center/trading_repository.py:591-601 | After a purchase average cost times shares is the old cost plus what was spent, a sale keeps the average cost, an empty position takes the price; market value and open profit follow from it to the cent. |
| TradingRuns.TradeKeepsUnexplained | backend/repositories/trading_center/trading_repository.py:589-626 | A trade changes the account's market value by exactly what its latest positions change. |
| TradingRuns.RunKeepsUnexplained | backend/repositories/trading_center/trading_repository.py:423-461 | Over any run of steps with a forward clock, an account's market value keeps its distance from the latest market values of its positions. |
| TradingRuns.WrittenRowsAddUp | backend/repositories/trading_center/trading_repository.py:623-638 | Account rows are only appended, and each has total = cash + frozen + market value. |
| TradingRuns.LatestAfterPut | backend/repositories/trading_center/trading_repository.py:572-616 | With times not running backwards, the snapshot just written is the latest of its stock and no other stock's changes. |
| Downsample.GapsAreSmall | backend/repositories/backtest_center/backtest_repository.py:489-515 | First and last row are kept, and from any row the next kept one is at most a step away. |
| Downsample.AtMostTwice | backend/repositories/backtest_center/backtest_repository.py:489-515 | At most twice the limit less one rows are returned. |
| Downsample.LimitKeptIff | backend/repositories/backtest_center/backtest_repository.py:489-515 | No more rows than the limit are returned if and only if there are no more to begin with: whenever the curve is thinned at all, it still exceeds the limit. |
| Downsample.TwiceIsReached | backend/repositories/backtest_center/backtest_repository.py:489-515 | That bound is reached for every limit. |

## Left out

- Floating point: prices, money and rates are exact here, and prices are not negative; binary rounding noise is not modelled.
- AutoExit.SortedDays and Sorting.Sort: the library sort is modelled as an insertion sort, of which order, membership and stability are what the proofs use.
- BrokerRuns.RatesThatPay: between 0.99 and 1 in sum it depends on how the two rates round whether every sale pays; there the condition is left as the one on amounts.
- TradeDays.AccountsAgreeOnData: the condition on the data is sufficient for every run; a minute bar off the daily calendar matters only to runs that trade on it.
- MinuteTriggers.ScanAndQueryAgree: stated for one bar per stock and minute; with crowded minutes each search has its own exact condition, and the two are not compared. When the limit cuts a result short and the condition fails, the two may or may not agree. The scan's statistics (rows read, first and last minute, stocks with rows) and the filter on the form of stock codes are not modelled.
- MinuteSync.SyncKeepsPromises: the counter of written rows is not modelled, it counts rewritten rows again. A failure after the write inside a batch (updating a cursor, writing a log line) and cancellation are not modelled, nor are the sync cursors.
- MinuteSync.RunProgress: the listed stocks are distinct; with repetitions one delivery is counted for several entries.
- TradingRuns.AlwaysConsistent: `update_signal_ordered` and `update_signal_status` set a signal's state unconditionally and are not among the steps.
- TradingRuns.TradesApplyOnce: the clock of the trade steps does not run backwards; a snapshot written with an older time would not become the latest one.
- TradingStore: names, ratios of profit, today's profit and the broker's own order states are not modelled.
- SignalCheck.ValidateSignals: a strategy result that is not a list at all is refused before any item is looked at; the model starts from a list. Numbers and dates are taken as read or unreadable, and characters outside ASCII do not occur.
- StrategyContext.NoLookAhead: minute bars, the stock list, the market-value universe and the calendar of the strategy context are not modelled, nor is the process that runs the strategy.
- Signals: how the text of an optional field is read as a number, and the fallback clock's text, are taken as read; not-a-number values do not occur.
- Metrics: total and annual return, win rate and profit ratio are formulas without state and would only add easy members.
- Logs, messages, progress reports, cancellation of a backtest, routes, screens, catalogue tables, the `xtquant` adapter, sandbox checks and the status of background jobs.
