/**
 What the columns of the equity curve say, stated over the trades and the bars alone (backtest_engine.py,
 build_equity): each day's cash, market value and equity.
 */
module RowValues {
  import opened Broker
  import opened BrokerRuns
  import opened Clock
  import opened Drawdown
  import opened Market
  import opened Metrics
  import opened MetricsAgreement
  import opened Rounding
  import opened Signals
  import opened Sums
  import opened TradeLog

  /** The close of the latest bar up to a day, 0 if there is none. */
  ghost predicate ClosedAt(bars: seq<Bar>, day: Day, close: Price) {
    if exists b :: b in bars && b.day <= day
    then exists b :: LatestUpTo(bars, day, b) && close == b.close
    else close == 0
  }

  ghost predicate LatestUpTo(bars: seq<Bar>, day: Day, b: Bar) {
    b in bars && b.day <= day && forall c :: c in bars && c.day <= day ==> c.day <= b.day
  }

  lemma ScanCloses(bars: seq<Bar>, day: Day)
    requires InDayOrder(bars)
    ensures ClosedAt(bars, day, CloseScan(bars, day, 0))
  {
    var i := CloseIsLatest(bars, day, 0);
    hide CloseScan;
    if i >= 0 {
      assert bars[i] in bars;
      assert LatestUpTo(bars, day, bars[i]);
    }
  }

  /** Only one price is. */
  lemma OneClose(bars: seq<Bar>, day: Day, a: Price, b: Price)
    requires InDayOrder(bars) && ClosedAt(bars, day, a) && ClosedAt(bars, day, b)
    ensures a == b
  {
  }

  /** The value in cents of the shares held of one stock. */
  ghost predicate WorthOf(bars: seq<Bar>, day: Day, held: int, value: real) {
    exists close: Price :: ClosedAt(bars, day, close) && value * 100.0 == close as real * held as real
  }

  /** For each stock of which shares are held after the trades dated up to the day, what they are worth on it. */
  ghost predicate Holdings(feed: Feed, trades: seq<Trade>, day: Day, values: map<Symbol, real>) {
    && (forall s :: s in values <==> Total(trades, HeldUpTo(s, day)) > 0)
    && (forall s :: s in values ==> WorthOf(DailyBars(feed, s), day, Total(trades, HeldUpTo(s, day)), values[s]))
  }

  ghost predicate DailyInOrder(feed: Feed) {
    forall s :: InDayOrder(DailyBars(feed, s))
  }

  lemma WorthIsWorth(feed: Feed, positions: map<Symbol, int>, day: Day, s: Symbol)
    requires InDayOrder(DailyBars(feed, s)) && s in Worth(feed, positions, day)
    ensures WorthOf(DailyBars(feed, s), day, positions[s], Worth(feed, positions, day)[s])
  {
    var close := CloseScan(DailyBars(feed, s), day, 0);
    ScanCloses(DailyBars(feed, s), day);
    assert (close * positions[s]) as real == close as real * positions[s] as real;
  }

  lemma WorthIsHoldings(feed: Feed, trades: seq<Trade>, r: Replay, day: Day)
    requires DailyInOrder(feed) && forall s :: r.Position(s) == Total(trades, HeldUpTo(s, day))
    ensures Holdings(feed, trades, day, Worth(feed, r.positions, day))
  {
    hide InDayOrder, HeldUpTo, CloseScan, WorthOf;
    var values := Worth(feed, r.positions, day);
    forall s | s in values
      ensures WorthOf(DailyBars(feed, s), day, Total(trades, HeldUpTo(s, day)), values[s])
    {
      assert InDayOrder(DailyBars(feed, s));
      WorthIsWorth(feed, r.positions, day, s);
      assert r.Position(s) == r.positions[s];
    }
    forall s
      ensures s in values <==> Total(trades, HeldUpTo(s, day)) > 0
    {
      assert r.Position(s) == Total(trades, HeldUpTo(s, day));
    }
  }

  /** The rows are for exactly the days inside the backtest on which some stock has a bar, in order. */
  lemma RowDays(task: Task, feed: Feed, day: Day)
    ensures Ascending(Dates(task, feed))
    ensures day in Dates(task, feed) <==>
              task.start <= day <= task.end && exists s, b :: s in feed.daily && b in feed.daily[s] && b.day == day
  {
  }

  /**
   In every reachable state whose trade days are all covered, the i-th row of the equity curve is for the i-th day. Its
   cash is the initial cash and the effects of the trades dated up to that day, its market value rounds the sum over
   the stocks held then of latest close times shares held, its equity rounds that sum plus the cash.
   */
  lemma RowsShow(task: Task, feed: Feed, signals: seq<Signal>, n: nat, i: nat) returns (values: map<Symbol, real>)
    requires DailyInOrder(feed) && i < |Dates(task, feed)|
    requires Covered(After(task, feed, Start(task, signals), n).trades, Dates(task, feed))
    ensures var trades, dates := After(task, feed, Start(task, signals), n).trades, Dates(task, feed);
            var row := Rows(task, feed, trades, dates, |dates|)[i];
            && row.day == dates[i]
            && Holdings(feed, trades, row.day, values)
            && row.cash == task.initialCash + Total(trades, CashUpTo(row.day))
            && Nearest(row.marketValue, Sum(values)) && Nearest(row.equity, row.cash as real + Sum(values))
            && Equity(task, feed, trades, dates, i) == row.cash as real + Sum(values)
  {
    var trades, dates := After(task, feed, Start(task, signals), n).trades, Dates(task, feed);
    hide After, Dates, Start, Step, AccountAfter, HeldUpTo, CashUpTo, Worth, DailyInOrder, Covered, Holdings, Peak,
      RowAt, Rows;
    RowsAt(task, feed, trades, dates, |dates|, i);
    RowsAgree(task, feed, signals, n, "", i);
    var r := AccountAfter(task, trades, dates, i + 1);
    forall s
      ensures r.Position(s) == Total(trades, HeldUpTo(s, dates[i]))
    {
      RowsAgree(task, feed, signals, n, s, i);
    }
    WorthIsHoldings(feed, trades, r, dates[i]);
    values := Worth(feed, r.positions, dates[i]);
    RowIsFrom(task, feed, trades, dates, i);
  }

  lemma RowIsFrom(task: Task, feed: Feed, trades: seq<Trade>, dates: seq<Day>, i: nat)
    requires i < |dates|
    ensures var r, row := AccountAfter(task, trades, dates, i + 1), RowAt(task, feed, trades, dates, i);
            var value := Sum(Worth(feed, r.positions, dates[i]));
            && row.day == dates[i] && row.cash == r.cash
            && Nearest(row.marketValue, value) && Nearest(row.equity, row.cash as real + value)
            && Equity(task, feed, trades, dates, i) == row.cash as real + value
  {
    hide AccountAfter, Worth, Peak, Drop, Round;
  }
}
