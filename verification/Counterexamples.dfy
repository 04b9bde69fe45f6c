/** Concrete inputs on which properties fail once the condition they are proved under is dropped. */
module Counterexamples {
  import opened AutoExit
  import opened Broker
  import opened BrokerRuns
  import opened Clock
  import opened Holding
  import opened Ledgers
  import opened Market
  import opened Metrics
  import opened MetricsAgreement
  import opened Options
  import opened Rounding
  import opened Signals
  import opened Sorting
  import opened TradeLog

  // ---------------------------------------------------------------------------
  // A purchase without a time schedules its exit into the past

  const TASK: Task := TaskRecord(10, 20, 1000000, 10000.0, false, true, 0.0, 0.0, 0.0)

  function Plain(day: Day): Bar {
    Bar(day, 100, 120, 80, 110, 1000, false, None)
  }

  const FEED: Feed := Feed(map["600000.SH" := [Plain(10), Plain(11), Plain(12)]], map[])

  const UNDATED: Signal :=
    Signal("600000.SH", Buy, Unset, Missing, Missing, Missing, Missing, None, Missing, Number(1.0), Missing, false)

  const FIRST: Event := Event(UNDATED, None, At(LAST_DAY, DAY_SECONDS - 1), 0, None)

  lemma UndatedFillsOnSecondBar()
    ensures EventBar(TASK, FEED, FIRST) == Some(Plain(11))
    ensures BarsAfter(DailyBars(FEED, "600000.SH"), 11) == [Plain(12)]
    ensures !LimitBlocked(DailyBars(FEED, "600000.SH"), Plain(11), BuySide)
  {
    var bars := DailyBars(FEED, "600000.SH");
    assert bars == [Plain(10), Plain(11), Plain(12)];
    assert bars[1..] == [Plain(11), Plain(12)] && bars[1..][1..] == [Plain(12)] && bars[1..][1..][1..] == [];
    assert FirstAfter(bars, 10) == FirstAfter(bars[1..], 10) == Some(Plain(11));
    assert BarsAfter(bars[1..][1..], 11) == [Plain(12)] + BarsAfter([], 11);
    assert BarsAfter(bars[1..], 11) == [] + BarsAfter(bars[1..][1..], 11);
    assert BarsAfter(bars, 11) == [] + BarsAfter(bars[1..], 11);
  }

  lemma UndatedIsFilled(book: Ledger)
    requires book.cash == 1000000
    ensures Judge(TASK, FEED, FIRST, book) == Fill(Plain(11), 100, 10000, 0, 0)
  {
    UndatedFillsOnSecondBar();
    hide EventBar, LimitBlocked, DailyBars;
    RoundWhole(100);
    assert EventPrice(TASK, FIRST, Plain(11), BuySide) == 100;
    assert BuyBudget(TASK, UNDATED, book.cash) == 10000.0;
    assert 10000.0 / 100.0 == 100.0;
    assert Hands(10000.0, 100) == 100;
    RoundWhole(0);
    assert Charge(10000, 0.0) == 0;
  }

  lemma UndatedSchedulesExit()
    ensures AutoExitEvent(TASK, FEED, Plain(11), 100, 10000, UNDATED, 1) ==
              Some(Event(ExitSignal(UNDATED, At(12, OPENING), 10000), Some(Plain(12)), At(12, OPENING), 1, None))
  {
    UndatedFillsOnSecondBar();
    hide EventBar, LimitBlocked, DailyBars;
    assert SellAfter(UNDATED) == 1;
  }

  lemma SortOne(e: Event)
    ensures SortEvents([e]) == [e]
  {
    assert [e][..0] == [];
    assert Sort(KeyLess, []) == [];
  }

  lemma UndatedStart()
    ensures Start(TASK, [UNDATED]) == Run([FIRST], [], Opening(1000000), [], [], 1, false)
  {
    hide SortEvents;
    assert InitialEvents([UNDATED]) == [FIRST];
    SortOne(FIRST);
  }

  const EXIT: Event := Event(ExitSignal(UNDATED, At(12, OPENING), 10000), Some(Plain(12)), At(12, OPENING), 1, None)

  lemma UndatedStep(s: Run)
    requires s == Run([FIRST], [], Opening(1000000), [], [], 1, false)
    ensures Step(TASK, FEED, s).queue == [EXIT] && Step(TASK, FEED, s).done == [FIRST]
  {
    UndatedIsFilled(s.book);
    UndatedSchedulesExit();
    hide Judge, AutoExitEvent, SettledBook, SettledTrade, SortEvents;
    assert s.queue[1..] == [] && [] + [EXIT] == [EXIT] && [] + [FIRST] == [FIRST];
    SortOne(EXIT);
  }

  /** After the first iteration of this run the pending exit lies before the event just processed. */
  lemma UndatedRunGoesBack()
    ensures var s := After(TASK, FEED, Start(TASK, [UNDATED]), 1);
            |s.done| == 1 && |s.queue| == 1 && KeyLess(s.queue[0], s.done[0])
  {
    UndatedStart();
    hide Step, Start;
    var start := Start(TASK, [UNDATED]);
    UndatedStep(start);
    assert After(TASK, FEED, start, 0) == start;
    assert After(TASK, FEED, start, 1) == Step(TASK, FEED, start);
  }

  // ---------------------------------------------------------------------------
  // One step of a run that buys or sells one board lot

  const STOCK: Symbol := "600000.SH"

  /** A minute backtest whose per-order amount buys one board lot at the bars' price. */
  function OneLotTask(start: Day, end: Day): Task {
    TaskRecord(start, end, 1000000, 150.0, true, true, 0.0, 0.0, 0.0)
  }

  function Minute(day: Day, second: Second): Bar {
    Bar(day, 100, 120, 80, 110, 1000, false, Some(second))
  }

  function Order(action: Action, time: Stamp): Signal {
    Signal(STOCK, action, time, Missing, Missing, Missing, Missing, None, Missing, Missing, Missing, false)
  }

  function Queued(action: Action, time: Stamp, sequence: nat): Event {
    Event(Order(action, time), None, SortTime(time), sequence, None)
  }

  function Deal(side: Side, bar: Bar, pnl: int): Trade {
    Trade(STOCK, side, 100, 100, 100, 0, bar.day, bar.second, pnl)
  }

  /** The event's bar and the first of the queue. */
  ghost predicate Next(task: Task, feed: Feed, s: Run, e: Event, bar: Bar) {
    && s.queue != [] && s.queue[0] == e && !s.crashed && EventBar(task, feed, e) == Some(bar)
    && task == OneLotTask(task.start, task.end) && task.start <= bar.day <= task.end
    && bar.second.Some? && bar == Minute(bar.day, bar.second.value)
  }

  lemma NeverBlocked(bars: seq<Bar>, day: Day, second: Second, side: Side)
    ensures !LimitBlocked(bars, Minute(day, second), side)
  {
  }

  lemma OneLotPrice(task: Task, e: Event, bar: Bar, side: Side)
    requires task == OneLotTask(task.start, task.end) && e.price.None? && bar.open == 100
    ensures EventPrice(task, e, bar, side) == 100
  {
    RoundWhole(100);
  }

  lemma BuysOneLot(task: Task, feed: Feed, s: Run, time: Stamp, sequence: nat, bar: Bar)
    requires Next(task, feed, s, Queued(Buy, time, sequence), bar) && s.book.cash >= 150
    ensures Judge(task, feed, Queued(Buy, time, sequence), s.book) == Fill(bar, 100, 100, 0, 0)
  {
    var e := Queued(Buy, time, sequence);
    NeverBlocked(DailyBars(feed, STOCK), bar.day, bar.second.value, BuySide);
    OneLotPrice(task, e, bar, BuySide);
    hide EventBar, LimitBlocked, EventPrice;
    assert BuyBudget(task, e.signal, s.book.cash) == 150.0;
    assert Hands(150.0, 100) == 1;
    RoundWhole(0);
    assert Charge(100, 0.0) == 0;
  }

  lemma NoExit(task: Task, feed: Feed, bar: Bar, time: Stamp, sequence: nat)
    ensures AutoExitEvent(task, feed, bar, 100, 100, Order(Buy, time), sequence) == None
  {
  }

  lemma BuyStep(task: Task, feed: Feed, s: Run, time: Stamp, sequence: nat, bar: Bar)
    requires Next(task, feed, s, Queued(Buy, time, sequence), bar) && s.book.cash >= 150
    ensures var next := Step(task, feed, s);
            && next.queue == s.queue[1..] && !next.crashed && next.trades == s.trades + [Deal(BuySide, bar, 0)]
            && next.book.cash == s.book.cash - 100 && next.book.Position(STOCK) == s.book.Position(STOCK) + 100
            && next.book.Lots(STOCK) == s.book.Lots(STOCK) + [Lot(bar.day, 100, 100.0)]
  {
    BuysOneLot(task, feed, s, time, sequence, bar);
    NoExit(task, feed, bar, time, s.nextSequence);
    hide Judge, AutoExitEvent, EventBar;
    assert Amount(100, 100) == 100;
  }

  lemma SellsOneLot(task: Task, feed: Feed, s: Run, time: Stamp, sequence: nat, bar: Bar)
    requires Next(task, feed, s, Queued(Sell, time, sequence), bar)
    requires s.book.Position(STOCK) >= 100 && AvailableBefore(s.book.Lots(STOCK), bar.day) == 100
    ensures Judge(task, feed, Queued(Sell, time, sequence), s.book) == Fill(bar, 100, 100, 0, 0)
  {
    var e := Queued(Sell, time, sequence);
    NeverBlocked(DailyBars(feed, STOCK), bar.day, bar.second.value, SellSide);
    OneLotPrice(task, e, bar, SellSide);
    hide EventBar, LimitBlocked, EventPrice, AvailableBefore;
    RoundWhole(0);
    assert Amount(100, 100) == 100;
    assert Charge(100, 0.0) == 0;
    assert RequestedQuantity(e.signal) == None;
  }

  lemma SellStep(task: Task, feed: Feed, s: Run, time: Stamp, sequence: nat, bar: Bar) returns (pnl: int)
    requires Next(task, feed, s, Queued(Sell, time, sequence), bar)
    requires s.book.Position(STOCK) >= 100 && AvailableBefore(s.book.Lots(STOCK), bar.day) == 100
    ensures var next := Step(task, feed, s);
            && next.queue == s.queue[1..] && !next.crashed && next.trades == s.trades + [Deal(SellSide, bar, pnl)]
            && next.book.cash == s.book.cash + 100
  {
    SellsOneLot(task, feed, s, time, sequence, bar);
    hide Judge, EventBar, AvailableBefore, Consume;
    assert Amount(100, 100) == 100;
    pnl := Step(task, feed, s).trades[|s.trades|].pnl;
  }

  /** A queue that is in order when the run starts. */
  lemma StartInOrder(task: Task, signals: seq<Signal>)
    requires Strict(KeyLess, InitialEvents(signals))
    ensures Start(task, signals) == Run(InitialEvents(signals), [], Opening(task.initialCash), [], [], |signals|, false)
  {
    KeyOrder();
    hide KeyLess;
    SortOfStrict(KeyLess, InitialEvents(signals));
  }

  // ---------------------------------------------------------------------------
  // Out of day order, first-in first-out is not T+1

  const LOTS_TASK: Task := OneLotTask(3, 5)

  /** Minute bars at 09:31 and 14:59 of day 3 and at 09:31 of day 4. */
  const LOTS_FEED: Feed :=
    Feed(map[STOCK := [Plain(3), Plain(4), Plain(5)]],
         map[STOCK := [Minute(3, 34260), Minute(3, 53940), Minute(4, 34260)]])

  /** Bought at 14:59:10 of day 3, bought with a bare date on day 3, sold at 08:20 of day 4. */
  const LOTS_SIGNALS: seq<Signal> := [Order(Buy, At(3, 53950)), Order(Buy, OnDay(3)), Order(Sell, At(4, 30000))]

  const FIRST_BUY: Event := Queued(Buy, At(3, 53950), 0)
  const SECOND_BUY: Event := Queued(Buy, OnDay(3), 1)
  const ONLY_SALE: Event := Queued(Sell, At(4, 30000), 2)

  /** The first purchase waits for day 4; the bare date takes the first minute of day 3. */
  lemma LotsBars()
    ensures EventBar(LOTS_TASK, LOTS_FEED, FIRST_BUY) == Some(Minute(4, 34260))
    ensures EventBar(LOTS_TASK, LOTS_FEED, SECOND_BUY) == Some(Minute(3, 34260))
    ensures EventBar(LOTS_TASK, LOTS_FEED, ONLY_SALE) == Some(Minute(4, 34260))
  {
    var bars := MinuteBars(LOTS_FEED, STOCK);
    assert bars == [Minute(3, 34260), Minute(3, 53940), Minute(4, 34260)];
    assert bars[1..] == [Minute(3, 53940), Minute(4, 34260)] && bars[1..][1..] == [Minute(4, 34260)];
    assert NextMinuteBar(bars[1..][1..], At(3, 53950), 5) == Some(Minute(4, 34260));
    assert NextMinuteBar(bars[1..][1..], At(4, 30000), 5) == Some(Minute(4, 34260));
    assert NextMinuteBar(bars[1..], At(3, 53950), 5) == Some(Minute(4, 34260));
    assert NextMinuteBar(bars[1..], At(4, 30000), 5) == Some(Minute(4, 34260));
  }

  lemma LotsStart()
    ensures Start(LOTS_TASK, LOTS_SIGNALS) ==
              Run([FIRST_BUY, SECOND_BUY, ONLY_SALE], [], Opening(1000000), [], [], 3, false)
  {
    var events := InitialEvents(LOTS_SIGNALS);
    assert events == [FIRST_BUY, SECOND_BUY, ONLY_SALE];
    StartInOrder(LOTS_TASK, LOTS_SIGNALS);
  }

  lemma OnlyOldLotAvailable()
    ensures AvailableBefore([Lot(4, 100, 100.0), Lot(3, 100, 100.0)], 4) == 100
  {
    var lots := [Lot(4, 100, 100.0), Lot(3, 100, 100.0)];
    assert lots[1..] == [Lot(3, 100, 100.0)] && lots[1..][1..] == [];
    assert AvailableBefore(lots[1..], 4) == 100;
  }

  /** The run buys on day 4, buys on day 3, and sells on day 4 what it bought on day 3. */
  lemma LotsRun() returns (pnl: int)
    ensures After(LOTS_TASK, LOTS_FEED, Start(LOTS_TASK, LOTS_SIGNALS), 3).trades ==
              [Deal(BuySide, Minute(4, 34260), 0), Deal(BuySide, Minute(3, 34260), 0),
               Deal(SellSide, Minute(4, 34260), pnl)]
  {
    LotsStart();
    LotsBars();
    hide Start, Step, EventBar, SortTime;
    var s := Start(LOTS_TASK, LOTS_SIGNALS);
    BuyStep(LOTS_TASK, LOTS_FEED, s, At(3, 53950), 0, Minute(4, 34260));
    var t := Step(LOTS_TASK, LOTS_FEED, s);
    assert t.book.Lots(STOCK) == [Lot(4, 100, 100.0)];
    BuyStep(LOTS_TASK, LOTS_FEED, t, OnDay(3), 1, Minute(3, 34260));
    var u := Step(LOTS_TASK, LOTS_FEED, t);
    assert u.book.Lots(STOCK) == [Lot(4, 100, 100.0), Lot(3, 100, 100.0)];
    OnlyOldLotAvailable();
    pnl := SellStep(LOTS_TASK, LOTS_FEED, u, At(4, 30000), 2, Minute(4, 34260));
    ThreeSteps(LOTS_TASK, LOTS_FEED, s, t, u);
  }

  lemma ThreeSteps(task: Task, feed: Feed, s: Run, t: Run, u: Run)
    requires s.queue != [] && !s.crashed && t == Step(task, feed, s)
    requires t.queue != [] && !t.crashed && u == Step(task, feed, t)
    requires u.queue != [] && !u.crashed
    ensures After(task, feed, s, 2) == u && After(task, feed, s, 3) == Step(task, feed, u)
  {
    hide Step;
    assert After(task, feed, s, 0) == s;
    assert After(task, feed, s, 1) == t;
    assert After(task, feed, s, 2) == u;
  }

  const LISTED: seq<Parcel> := [Parcel(4, 100), Parcel(3, 100)]

  lemma TwoPurchases(tPlusOne: bool)
    ensures PairAll([Deal(BuySide, Minute(4, 34260), 0), Deal(BuySide, Minute(3, 34260), 0)], tPlusOne) ==
              Pairing(map[STOCK := LISTED], [])
  {
    var both := [Deal(BuySide, Minute(4, 34260), 0), Deal(BuySide, Minute(3, 34260), 0)];
    var one := both[..1];
    assert one == [Deal(BuySide, Minute(4, 34260), 0)] && one[..0] == [];
    assert PairAll([], tPlusOne) == Pairing(map[], []);
    assert [] + [Parcel(4, 100)] == [Parcel(4, 100)] && [Parcel(4, 100)] + [Parcel(3, 100)] == LISTED;
    assert PairAll(one, tPlusOne) == PairTrade(Pairing(map[], []), Deal(BuySide, Minute(4, 34260), 0), tPlusOne);
    assert PairAll(one, tPlusOne) == Pairing(map[STOCK := [Parcel(4, 100)]], []);
    assert PairAll(both, tPlusOne) == PairTrade(PairAll(one, tPlusOne), Deal(BuySide, Minute(3, 34260), 0), tPlusOne);
  }

  lemma TakeOutOfOrder()
    ensures Take(LISTED, NO_LIMIT, 100).matches == [Parcel(4, 100)]
    ensures Take(LISTED, 4, 100).matches == [Parcel(3, 100)]
  {
    var rest := LISTED[1..];
    assert rest == [Parcel(3, 100)] && rest[1..] == [];
    assert Take(rest, NO_LIMIT, 0).matches == [];
    assert Take(rest, 4, 100).matches == [Parcel(3, 100)];
  }

  lemma SalePairs(pnl: int)
    ensures var trades := [Deal(BuySide, Minute(4, 34260), 0), Deal(BuySide, Minute(3, 34260), 0),
                           Deal(SellSide, Minute(4, 34260), pnl)];
            && PairAll(trades, false).pairs == [Pair(STOCK, 4, 4, 100)]
            && PairAll(trades, true).pairs == [Pair(STOCK, 3, 4, 100)]
  {
    var sale := Deal(SellSide, Minute(4, 34260), pnl);
    var trades := [Deal(BuySide, Minute(4, 34260), 0), Deal(BuySide, Minute(3, 34260), 0), sale];
    assert trades[..2] == [Deal(BuySide, Minute(4, 34260), 0), Deal(BuySide, Minute(3, 34260), 0)];
    TwoPurchases(false);
    TwoPurchases(true);
    TakeOutOfOrder();
    hide Take;
    assert PairAll(trades, false) == PairTrade(PairAll(trades[..2], false), sale, false);
    assert PairAll(trades, true) == PairTrade(PairAll(trades[..2], true), sale, true);
    assert Tag(STOCK, 4, [Parcel(4, 100)]) == [Pair(STOCK, 4, 4, 100)];
    assert Tag(STOCK, 4, [Parcel(3, 100)]) == [Pair(STOCK, 3, 4, 100)];
  }

  lemma LotsDates()
    ensures Dates(LOTS_TASK, LOTS_FEED) == [3, 4, 5]
  {
    var bars := LOTS_FEED.daily[STOCK];
    assert bars[0].day == 3 && bars[1].day == 4 && bars[2].day == 5;
    assert BarDays(LOTS_TASK, LOTS_FEED) == {3, 4, 5} by {
      assert bars[0] in bars && bars[1] in bars && bars[2] in bars;
    }
    ThreeSorted();
  }

  lemma ThreeSorted()
    ensures SortedDays({3, 4, 5}) == [3, 4, 5]
  {
    assert {3, 4, 5} - {3} == {4, 5} && {4, 5} - {4} == {5} && {5} - {5} == {};
    assert Least({3, 4, 5}) == 3 && Least({4, 5}) == 4 && Least({5}) == 5;
    assert SortedDays({5}) == [5] + SortedDays({}) == [5];
    assert SortedDays({4, 5}) == [4] + [5];
    assert SortedDays({3, 4, 5}) == [3] + [4, 5];
  }

  lemma HoldingOfOnePair(bought: Day, sold: Day)
    requires bought in {3, 4} && sold == 4
    ensures AverageOf(RankMap([3, 4, 5]), [Pair(STOCK, bought, sold, 100)]) == if bought == 3 then 10000 else 0
  {
    assert [3, 4, 5][..2] == [3, 4] && [3, 4][..1] == [3] && [3][..0] == [];
    assert RankMap([3, 4, 5]) == map[3 := 0, 4 := 1, 5 := 2];
    var pairs := [Pair(STOCK, bought, sold, 100)];
    assert pairs[..0] == [] && Paired([]) == 0 && WeightedDays(RankMap([3, 4, 5]), []) == 0;
    assert Paired(pairs) == 100;
    assert WeightedDays(RankMap([3, 4, 5]), pairs) == if bought == 3 then 100 else 0;
    RoundWhole(10000);
    RoundWhole(0);
  }

  /**
   In a run the ledger sells on day 4 what was bought on day 3, while the metrics pair the sale with a purchase
   of day 4: they report a holding time of 0 days for shares held for 1.0000.
   */
  lemma UnorderedLotsPairDifferently()
    ensures var trades := After(LOTS_TASK, LOTS_FEED, Start(LOTS_TASK, LOTS_SIGNALS), 3).trades;
            var rank := RankMap(Dates(LOTS_TASK, LOTS_FEED));
            && PairAll(trades, false).pairs == [Pair(STOCK, 4, 4, 100)]
            && PairAll(trades, true).pairs == [Pair(STOCK, 3, 4, 100)]
            && AverageOf(rank, PairAll(trades, false).pairs) == 0
            && AverageOf(rank, PairAll(trades, true).pairs) == 10000
  {
    var pnl := LotsRun();
    HoldingOfOnePair(4, 4);
    HoldingOfOnePair(3, 4);
    hide *;
    SalePairs(pnl);
    LotsDates();
  }

  // ---------------------------------------------------------------------------
  // A trade day without a daily bar drops out of the metrics

  const GAP_TASK: Task := OneLotTask(1, 2)

  /** Minute bars on days 1 and 2, but a daily bar only on day 2. */
  const GAP_FEED: Feed := Feed(map[STOCK := [Plain(2)]], map[STOCK := [Minute(1, 34260), Minute(2, 34260)]])

  const GAP_SIGNALS: seq<Signal> := [Order(Buy, OnDay(1)), Order(Sell, OnDay(2))]

  lemma GapBars()
    ensures EventBar(GAP_TASK, GAP_FEED, Queued(Buy, OnDay(1), 0)) == Some(Minute(1, 34260))
    ensures EventBar(GAP_TASK, GAP_FEED, Queued(Sell, OnDay(2), 1)) == Some(Minute(2, 34260))
  {
    var bars := MinuteBars(GAP_FEED, STOCK);
    assert bars == [Minute(1, 34260), Minute(2, 34260)] && bars[1..] == [Minute(2, 34260)];
    assert NextMinuteBar(bars[1..], OnDay(2), 2) == Some(Minute(2, 34260));
  }

  lemma GapStart()
    ensures Start(GAP_TASK, GAP_SIGNALS) ==
              Run([Queued(Buy, OnDay(1), 0), Queued(Sell, OnDay(2), 1)], [], Opening(1000000), [], [], 2, false)
  {
    var events := InitialEvents(GAP_SIGNALS);
    assert events == [Queued(Buy, OnDay(1), 0), Queued(Sell, OnDay(2), 1)];
    StartInOrder(GAP_TASK, GAP_SIGNALS);
  }

  lemma GapRun() returns (pnl: int)
    ensures var s := After(GAP_TASK, GAP_FEED, Start(GAP_TASK, GAP_SIGNALS), 2);
            && s.trades == [Deal(BuySide, Minute(1, 34260), 0), Deal(SellSide, Minute(2, 34260), pnl)]
            && s.book.cash == 1000000 && s.queue == []
  {
    GapStart();
    GapBars();
    hide Start, Step, EventBar, SortTime;
    var s := Start(GAP_TASK, GAP_SIGNALS);
    BuyStep(GAP_TASK, GAP_FEED, s, OnDay(1), 0, Minute(1, 34260));
    var t := Step(GAP_TASK, GAP_FEED, s);
    assert t.book.Lots(STOCK) == [Lot(1, 100, 100.0)];
    assert t.book.Lots(STOCK)[1..] == [];
    assert AvailableBefore(t.book.Lots(STOCK), 2) == 100;
    pnl := SellStep(GAP_TASK, GAP_FEED, t, OnDay(2), 1, Minute(2, 34260));
    assert After(GAP_TASK, GAP_FEED, s, 0) == s;
    assert After(GAP_TASK, GAP_FEED, s, 1) == t;
  }

  lemma GapDates()
    ensures Dates(GAP_TASK, GAP_FEED) == [2]
  {
    var bars := GAP_FEED.daily[STOCK];
    assert BarDays(GAP_TASK, GAP_FEED) == {2} by {
      assert bars[0] in bars;
    }
    assert {2} - {2} == {};
    assert SortedDays({2}) == [2] + SortedDays({}) == [2];
  }

  lemma OnlyTheSaleIsReplayed(pnl: int)
    ensures ByDate([Deal(BuySide, Minute(1, 34260), 0), Deal(SellSide, Minute(2, 34260), pnl)], [2]) ==
              [Deal(SellSide, Minute(2, 34260), pnl)]
  {
    var trades := [Deal(BuySide, Minute(1, 34260), 0), Deal(SellSide, Minute(2, 34260), pnl)];
    assert trades[..1] == [Deal(BuySide, Minute(1, 34260), 0)] && trades[..1][..0] == [] && [2][..0] == [];
    assert DayTrades([], 2) == [] && DayTrades(trades[..1], 2) == [];
    assert DayTrades(trades, 2) == [Deal(SellSide, Minute(2, 34260), pnl)];
    assert ByDate(trades, []) == [];
  }

  /**
   The finished run bought and sold one lot and has its initial cash; the metrics miss the purchase and report 1 yuan
   more.
   */
  lemma MissingDayBreaksReplay()
    ensures var s := After(GAP_TASK, GAP_FEED, Start(GAP_TASK, GAP_SIGNALS), 2);
            var dates := Dates(GAP_TASK, GAP_FEED);
            && s.queue == [] && s.book.cash == GAP_TASK.initialCash
            && !Covered(s.trades, dates)
            && AccountAfter(GAP_TASK, s.trades, dates, |dates|).cash == s.book.cash + 100
  {
    var pnl := GapRun();
    GapDates();
    var trades := [Deal(BuySide, Minute(1, 34260), 0), Deal(SellSide, Minute(2, 34260), pnl)];
    var sale := [Deal(SellSide, Minute(2, 34260), pnl)];
    hide After, Start, Dates, DayTrades, ReplayAll;
    OnlyTheSaleIsReplayed(pnl);
    assert trades[0] in trades && trades[0].day == 1;
    assert [2][..1] == [2] && sale[..0] == [];
    ReplayCash(1000000, sale);
    assert Total([], CashEffect) == 0;
    assert Total(sale, CashEffect) == 100;
  }
}
