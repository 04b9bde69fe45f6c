/**
 When an event is filled, on which bar and at what price, stated over the feed and the ledger without the broker's
 own steps (backtest_engine.py, execute_with_audit, _execution_bar and _event_execution_price).
 */
module OrderFills {
  import opened AutoExit
  import opened Broker
  import opened Clock
  import opened Ledgers
  import opened Market
  import opened Options
  import opened OrderSizing
  import opened Rounding
  import opened Signals

  // ---------------------------------------------------------------------------
  // The bar

  /** A minute bar the signal may still be filled on: later than the signal as text, up to the last day. */
  predicate MinuteInReach(task: Task, feed: Feed, signal: Signal, b: Bar) {
    b in MinuteBars(feed, signal.symbol) && TextOrder(signal.time) < TextOrder(b.Time()) && b.day <= task.end
  }

  /** A daily bar later than the signal's day; without a time, later than the first bar. */
  predicate DayInReach(feed: Feed, signal: Signal, b: Bar) {
    var bars := DailyBars(feed, signal.symbol);
    b in bars && b.day > SignalDay(bars, signal.time)
  }

  /** Only in a minute backtest, and only if some minute is in reach. */
  ghost predicate FillsInMinute(task: Task, feed: Feed, signal: Signal) {
    task.minuteData && exists m :: MinuteInReach(task, feed, signal, m)
  }

  /**
   An exit keeps the bar it came with. A signal takes the earliest minute in reach in a minute backtest, and only where
   there is none the earliest daily bar in reach; it has no bar only if there is neither.
   */
  lemma BarOfEvent(task: Task, feed: Feed, e: Event, b: Bar)
    requires InDayOrder(DailyBars(feed, e.signal.symbol)) && InTextOrder(MinuteBars(feed, e.signal.symbol))
    ensures var bar := EventBar(task, feed, e);
            && (e.bar.Some? ==> bar == e.bar)
            && (e.bar.None? && FillsInMinute(task, feed, e.signal) ==>
                  && bar.Some? && MinuteInReach(task, feed, e.signal, bar.value)
                  && (MinuteInReach(task, feed, e.signal, b) ==>
                        TextOrder(bar.value.Time()) <= TextOrder(b.Time())))
            && (e.bar.None? && !FillsInMinute(task, feed, e.signal) ==>
                  && (bar.Some? ==> DayInReach(feed, e.signal, bar.value))
                  && (DayInReach(feed, e.signal, b) ==> bar.Some? && bar.value.day <= b.day))
  {
    hide TextOrder;
    if e.bar.None? {
      NextBarIsEarliest(DailyBars(feed, e.signal.symbol), e.signal.time);
      NextMinuteIsEarliest(MinuteBars(feed, e.signal.symbol), e.signal.time, task.end);
      var minute := NextMinuteBar(MinuteBars(feed, e.signal.symbol), e.signal.time, task.end);
      assert minute.Some? ==> MinuteInReach(task, feed, e.signal, minute.value);
    }
  }

  // ---------------------------------------------------------------------------
  // The price

  /** A base price moved against the order by the slippage, to 0.0001 yuan; a sale never below 0.01 yuan. */
  ghost predicate PricedFrom(task: Task, action: Action, price: Price, base: Price) {
    if action.Buy? then Nearest(price, base as real + task.slippage)
    else if base as real - task.slippage >= 100.0 then Nearest(price, base as real - task.slippage)
    else price == 100
  }

  /** An exit fills at the price it was triggered at; anything else at the bar's open or close, as the task says. */
  lemma PriceOfFill(task: Task, feed: Feed, e: Event, book: Ledger)
    ensures var v := Judge(task, feed, e, book);
            v.Fill? ==>
              && v.price >= 0
              && (e.price.Some? && e.price.value > 0 ==> PricedFrom(task, e.signal.action, v.price, e.price.value))
              && (e.price.None? || e.price.value == 0 ==>
                    && (task.fillAtOpen ==> PricedFrom(task, e.signal.action, v.price, v.bar.open))
                    && (!task.fillAtOpen ==> PricedFrom(task, e.signal.action, v.price, v.bar.close)))
  {
    var v := Judge(task, feed, e, book);
    FilledInBoardLots(task, feed, e, book);
    FillIsPriced(task, feed, e, book);
    hide Judge;
    RoundWhole(100);
    if v.Fill? {
      var side := SideOf(e.signal.action);
      EventIsPriced(task, e, v.bar, side);
    }
  }

  lemma FillIsPriced(task: Task, feed: Feed, e: Event, book: Ledger)
    ensures var v := Judge(task, feed, e, book);
            v.Fill? ==> !e.signal.action.Watch? && v.price == EventPrice(task, e, v.bar, SideOf(e.signal.action))
  {
    hide LimitBlocked, EventPrice, Charge, AvailableBefore, Hands, EventBar, BuyBudget;
  }

  lemma SlippedIsPriced(task: Task, base: Price, side: Side)
    ensures PricedFrom(task, if side.BuySide? then Buy else Sell, Slipped(base, side, task.slippage), base)
  {
    RoundWhole(100);
    var p := Slipped(base, side, task.slippage);
    hide Slipped;
    if side.SellSide? && base as real - task.slippage < 100.0 {
      NearestIsOnly(p, 100, 100.0);
    }
  }

  lemma EventIsPriced(task: Task, e: Event, bar: Bar, side: Side)
    ensures var p, action := EventPrice(task, e, bar, side), if side.BuySide? then Buy else Sell;
            && (e.price.Some? && e.price.value > 0 ==> PricedFrom(task, action, p, e.price.value))
            && (e.price.None? || e.price.value == 0 ==>
                  && (task.fillAtOpen ==> PricedFrom(task, action, p, bar.open))
                  && (!task.fillAtOpen ==> PricedFrom(task, action, p, bar.close)))
  {
    hide Slipped, PricedFrom;
    SlippedIsPriced(task, bar.open, side);
    SlippedIsPriced(task, bar.close, side);
    if e.price.Some? {
      SlippedIsPriced(task, e.price.value, side);
    }
  }

  // ---------------------------------------------------------------------------
  // The verdict

  /** Frozen at one price, at least 9.5 % above (to buy) or below (to sell) the close of the trading day before. */
  ghost predicate AtLimit(bars: seq<Bar>, bar: Bar, buy: bool) {
    exists p :: ClosestBefore(bars, bar.day, p) && p.close > 0 && bar.high == bar.close && bar.low == bar.close &&
                (if buy then bar.close as real >= 1.095 * p.close as real
                 else bar.close as real <= 0.905 * p.close as real)
  }

  ghost predicate ClosestBefore(bars: seq<Bar>, day: Day, p: Bar) {
    p in bars && p.day < day && forall b :: b in bars && b.day < day ==> b.day <= p.day
  }

  lemma LimitBlockedIff(bars: seq<Bar>, bar: Bar, side: Side)
    requires InDayOrder(bars)
    ensures LimitBlocked(bars, bar, side) <==> AtLimit(bars, bar, side.BuySide?)
  {
    PreviousIsClosest(bars, bar.day, None);
    var found := ScanPrevious(bars, bar.day, None);
    if found.Some? {
      LimitBlockedMeaning(bars, bar, side, found.value);
      assert ClosestBefore(bars, bar.day, found.value);
    }
    hide LimitBlocked, ScanPrevious;
    forall p | ClosestBefore(bars, bar.day, p)
      ensures found.Some? && p == found.value
    {
      OneBarADay(bars, p, found.value);
    }
    if found.None? {
      NeverBlockedFirst(bars, bar, side);
    }
  }

  predicate InRange(task: Task, bar: Bar) {
    task.start <= bar.day <= task.end
  }

  predicate Trades(bar: Bar) {
    !bar.suspended && bar.volume > 0
  }

  /** Inside the backtest, with trade on that day, and not at the limit in the order's direction. */
  ghost predicate Tradable(task: Task, feed: Feed, e: Event, bar: Bar) {
    && InRange(task, bar) && Trades(bar)
    && !AtLimit(DailyBars(feed, e.signal.symbol), bar, e.signal.action.Buy?)
  }

  /** Where none of the guards stops an event, only money or holdings decide. */
  lemma PastTheGuards(task: Task, feed: Feed, e: Event, book: Ledger)
    requires InDayOrder(DailyBars(feed, e.signal.symbol))
    ensures var v, bar := Judge(task, feed, e, book), EventBar(task, feed, e);
            && (v == Skip(Observed) <==> e.signal.action.Watch?)
            && (!e.signal.action.Watch? ==>
                  && (v == Skip(NoBar) <==> bar.None?)
                  && (v == Skip(OutOfRange) <==> bar.Some? && !InRange(task, bar.value))
                  && (v == Skip(NotTrading) <==> bar.Some? && InRange(task, bar.value) && !Trades(bar.value))
                  && (v == Skip(LimitHit) <==> bar.Some? && InRange(task, bar.value) && Trades(bar.value)
                                               && AtLimit(DailyBars(feed, e.signal.symbol), bar.value,
                                                          e.signal.action.Buy?)))
            && (!e.signal.action.Watch? && bar.Some? && Tradable(task, feed, e, bar.value) ==>
                  v == var price := EventPrice(task, e, bar.value, SideOf(e.signal.action));
                       if e.signal.action.Buy? then JudgeBuy(task, e.signal, bar.value, price, book.cash)
                       else JudgeSell(task, e.signal, bar.value, price, book))
  {
    hide LimitBlocked, AtLimit, EventBar, EventPrice, Hands, BuyBudget, Charge, AvailableBefore, Sellable;
    var bar := EventBar(task, feed, e);
    if bar.Some? && !e.signal.action.Watch? {
      LimitBlockedIff(DailyBars(feed, e.signal.symbol), bar.value, SideOf(e.signal.action));
    }
  }

  /**
   A purchase is filled iff its bar is tradable and one board lot is within budget, a sale iff its bar is tradable and
   a board lot is available under T+1; nothing else ever fills.
   */
  lemma FilledIff(task: Task, feed: Feed, e: Event, book: Ledger)
    requires Sound(book) && InDayOrder(DailyBars(feed, e.signal.symbol))
    ensures var v, bar := Judge(task, feed, e, book), EventBar(task, feed, e);
            v.Fill? <==>
              && !e.signal.action.Watch? && bar.Some? && Tradable(task, feed, e, bar.value)
              && if e.signal.action.Buy? then
                   var price := EventPrice(task, e, bar.value, BuySide);
                   price > 0 && price as real <= BuyBudget(task, e.signal, book.cash)
                 else AvailableBefore(book.Lots(e.signal.symbol), bar.value.day) >= 100
  {
    hide Judge, JudgeBuy, JudgeSell, EventBar, EventPrice, BuyBudget, AtLimit, Sound, AvailableBefore;
    PastTheGuards(task, feed, e, book);
    FilledInBoardLots(task, feed, e, book);
    var bar := EventBar(task, feed, e);
    if bar.Some? && e.signal.action.Buy? {
      PurchaseIsLargest(task, e.signal, bar.value, EventPrice(task, e, bar.value, BuySide), book.cash);
    }
    if bar.Some? && e.signal.action.Sell? {
      SaleIsLargest(task, e.signal, bar.value, EventPrice(task, e, bar.value, SellSide), book);
    }
  }

  // ---------------------------------------------------------------------------
  // The record

  /** The row of a fill: what was traded, at what price, on which bar. */
  ghost predicate RowOf(t: Trade, e: Event, v: Verdict)
    requires v.Fill?
  {
    && t.symbol == e.signal.symbol && t.side.BuySide? == e.signal.action.Buy?
    && t.price == v.price && t.quantity == v.quantity && t.day == v.bar.day && t.second == v.bar.second
  }

  /** An event is judged once. Its audit row tells the verdict, and a trade row is written iff it was filled. */
  lemma StepIsRecorded(task: Task, feed: Feed, s: Run)
    requires s.queue != [] && !s.crashed
    ensures var e, next := s.queue[0], Step(task, feed, s);
            var v := Judge(task, feed, e, s.book);
            && (next.crashed <==> v.DivisionByZero?)
            && (v.Skip? ==> next.audits == s.audits + [Audit(e.signal, v.status)] && next.trades == s.trades
                            && next.book == s.book && v.status != Filled)
            && (v.Fill? ==> next.audits == s.audits + [Audit(e.signal, Filled)] && |next.trades| == |s.trades| + 1
                            && next.trades[..|s.trades|] == s.trades && RowOf(next.trades[|s.trades|], e, v))
  {
    hide Judge, SettledBook, SettledExit, SortEvents, ExactPnl, Amount;
    FilledInBoardLots(task, feed, s.queue[0], s.book);
  }
}
