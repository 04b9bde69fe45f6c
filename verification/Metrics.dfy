/**
 The metrics' own account of a run, rebuilt from the trade list alone (backtest_engine.py, MetricsService):
 cash, positions and equity day by day, in date order.
 */
module Metrics {
  import opened AutoExit
  import opened Broker
  import opened Clock
  import opened Market
  import opened Rounding
  import opened Sums

  /** The trading days a task's daily bars cover. */
  function BarDays(task: Task, feed: Feed): set<Day> {
    set s, b | s in feed.daily && b in feed.daily[s] && task.start <= b.day <= task.end :: b.day
  }

  function Dates(task: Task, feed: Feed): seq<Day> {
    SortedDays(BarDays(task, feed))
  }

  // ---------------------------------------------------------------------------
  // Replaying a trade list

  datatype Replay = Replay(cash: int, positions: map<Symbol, int>) {
    function Position(symbol: Symbol): int {
      if symbol in positions then positions[symbol] else 0
    }
  }

  function ReplayTrade(r: Replay, t: Trade): Replay {
    var held := r.Position(t.symbol);
    if t.side.BuySide? then Replay(r.cash - (t.amount + t.fee), r.positions[t.symbol := held + t.quantity])
    else Replay(r.cash + (t.amount - t.fee), r.positions[t.symbol := Max(held - t.quantity, 0)])
  }

  function ReplayAll(r: Replay, log: seq<Trade>): Replay {
    if log == [] then r else ReplayTrade(ReplayAll(r, log[..|log| - 1]), log[|log| - 1])
  }

  function DayTrades(trades: seq<Trade>, day: Day): seq<Trade> {
    if trades == [] then []
    else if trades[|trades| - 1].day == day then DayTrades(trades[..|trades| - 1], day) + [trades[|trades| - 1]]
    else DayTrades(trades[..|trades| - 1], day)
  }

  /** The trades of the listed days, day by day and in list order within a day. */
  function ByDate(trades: seq<Trade>, dates: seq<Day>): seq<Trade> {
    if dates == [] then [] else ByDate(trades, dates[..|dates| - 1]) + DayTrades(trades, dates[|dates| - 1])
  }

  /** The metrics' account after the first `i` dates. */
  function AccountAfter(task: Task, trades: seq<Trade>, dates: seq<Day>, i: nat): Replay
    requires i <= |dates|
  {
    ReplayAll(Replay(task.initialCash, map[]), ByDate(trades, dates[..i]))
  }

  lemma {:induction false} ReplayConcat(r: Replay, a: seq<Trade>, b: seq<Trade>)
    ensures ReplayAll(r, a + b) == ReplayAll(ReplayAll(r, a), b)
  {
    if b == [] {
      assert a + b == a;
    } else {
      assert (a + b)[..|a + b| - 1] == a + b[..|b| - 1];
      ReplayConcat(r, a, b[..|b| - 1]);
    }
  }

  // ---------------------------------------------------------------------------
  // Valuation

  function CloseScan(bars: seq<Bar>, day: Day, latest: Price): Price {
    if bars == [] || bars[0].day > day then latest else CloseScan(bars[1..], day, bars[0].close)
  }

  /** The bars up to the day are the first `i + 1`, and the price is the close of the last of them, if there is any. */
  lemma {:induction false} CloseIsLatest(bars: seq<Bar>, day: Day, latest: Price) returns (i: int)
    requires InDayOrder(bars)
    ensures -1 <= i < |bars|
    ensures forall j :: 0 <= j < |bars| ==> (bars[j].day <= day <==> j <= i)
    ensures CloseScan(bars, day, latest) == if i < 0 then latest else bars[i].close
  {
    if bars == [] || bars[0].day > day {
      i := -1;
    } else {
      i := CloseIsLatest(bars[1..], day, bars[0].close);
      i := i + 1;
    }
  }

  /** Market value of each open position in cents. */
  function Worth(feed: Feed, positions: map<Symbol, int>, day: Day): map<Symbol, real> {
    map s | s in positions && positions[s] > 0 :: (CloseScan(DailyBars(feed, s), day, 0) * positions[s]) as real / 100.0
  }

  ghost function MarketValue(feed: Feed, positions: map<Symbol, int>, day: Day): real {
    Sum(Worth(feed, positions, day))
  }

  ghost function Equity(task: Task, feed: Feed, trades: seq<Trade>, dates: seq<Day>, i: nat): real
    requires i < |dates|
  {
    var r := AccountAfter(task, trades, dates, i + 1);
    r.cash as real + MarketValue(feed, r.positions, dates[i])
  }

  /** Highest equity so far, the initial cash included. */
  ghost function Peak(task: Task, feed: Feed, trades: seq<Trade>, dates: seq<Day>, i: nat): real
    requires i <= |dates|
  {
    if i == 0 then task.initialCash as real
    else MaxReal(Peak(task, feed, trades, dates, i - 1), Equity(task, feed, trades, dates, i - 1))
  }

  /** A drop from `from` to `to`, in units of 0.0001 percent. */
  function Drop(from: real, to: real): real
    requires from != 0.0
  {
    (to - from) / from * 1000000.0
  }

  function Drawdown(peak: real, equity: real): int {
    if peak == 0.0 then 0 else Round(Drop(peak, equity))
  }

  datatype EquityRow = EquityRow(day: Day, equity: int, cash: int, marketValue: int, drawdown: int)

  function RowFrom(day: Day, cash: int, value: real, peak: real): EquityRow {
    var equity := cash as real + value;
    EquityRow(day, Round(equity), cash, Round(value), Drawdown(peak, equity))
  }

  ghost function RowAt(task: Task, feed: Feed, trades: seq<Trade>, dates: seq<Day>, i: nat): EquityRow
    requires i < |dates|
  {
    var r := AccountAfter(task, trades, dates, i + 1);
    RowFrom(dates[i], r.cash, MarketValue(feed, r.positions, dates[i]), Peak(task, feed, trades, dates, i + 1))
  }

  /** The first `n` rows. */
  ghost function Rows(task: Task, feed: Feed, trades: seq<Trade>, dates: seq<Day>, n: nat): (rows: seq<EquityRow>)
    requires n <= |dates|
    ensures |rows| == n
  {
    if n == 0 then [] else Rows(task, feed, trades, dates, n - 1) + [RowAt(task, feed, trades, dates, n - 1)]
  }

  // ---------------------------------------------------------------------------
  // The loops

  method GroupByDay(trades: seq<Trade>) returns (byDay: map<Day, seq<Trade>>)
    ensures forall d: Day :: DayTrades(trades, d) == if d in byDay then byDay[d] else []
  {
    byDay := map[];
    for i := 0 to |trades|
      invariant forall d: Day :: DayTrades(trades[..i], d) == if d in byDay then byDay[d] else []
    {
      var t := trades[i];
      assert trades[..i + 1][..i] == trades[..i];
      byDay := byDay[t.day := (if t.day in byDay then byDay[t.day] else []) + [t]];
    }
    assert trades[..|trades|] == trades;
  }

  method ClosePrice(bars: seq<Bar>, day: Day) returns (latest: Price)
    ensures latest == CloseScan(bars, day, 0)
  {
    latest := 0;
    for i := 0 to |bars|
      invariant CloseScan(bars, day, 0) == CloseScan(bars[i..], day, latest)
    {
      assert bars[i..][0] == bars[i] && bars[i..][1..] == bars[i + 1..];
      if bars[i].day > day {
        return;
      }
      latest := bars[i].close;
    }
  }

  method ValuePositions(feed: Feed, positions: map<Symbol, int>, day: Day) returns (value: real)
    ensures value == MarketValue(feed, positions, day)
  {
    value := 0.0;
    var keys := positions.Keys;
    ghost var worth := Worth(feed, positions, day);
    ghost var left := worth;
    while keys != {}
      invariant keys <= positions.Keys
      invariant left == map s | s in worth && s in keys :: worth[s]
      invariant Sum(worth) == value + Sum(left)
      decreases keys
    {
      var s :| s in keys;
      keys := keys - {s};
      if positions[s] > 0 {
        SumSplit(left, s);
        var close := ClosePrice(DailyBars(feed, s), day);
        value := value + (close * positions[s]) as real / 100.0;
      } else {
        assert left - {s} == left;
      }
      left := left - {s};
    }
  }

  method ReplayDay(cash0: int, positions0: map<Symbol, int>, today: seq<Trade>)
    returns (cash: int, positions: map<Symbol, int>)
    ensures Replay(cash, positions) == ReplayAll(Replay(cash0, positions0), today)
  {
    cash, positions := cash0, positions0;
    for j := 0 to |today|
      invariant Replay(cash, positions) == ReplayAll(Replay(cash0, positions0), today[..j])
    {
      var t := today[j];
      assert today[..j + 1][..j] == today[..j];
      if t.side.BuySide? {
        cash := cash - (t.amount + t.fee);
        positions := positions[t.symbol := (if t.symbol in positions then positions[t.symbol] else 0) + t.quantity];
      } else {
        cash := cash + (t.amount - t.fee);
        var held := if t.symbol in positions then positions[t.symbol] else 0;
        positions := positions[t.symbol := Max(held - t.quantity, 0)];
      }
    }
    assert today[..|today|] == today;
  }

  lemma RowIs(task: Task, feed: Feed, trades: seq<Trade>, dates: seq<Day>, i: nat, r: Replay, value: real, peak: real)
    requires i < |dates| && r == AccountAfter(task, trades, dates, i + 1)
    requires value == MarketValue(feed, r.positions, dates[i])
    requires peak == MaxReal(Peak(task, feed, trades, dates, i), r.cash as real + value)
    ensures peak == Peak(task, feed, trades, dates, i + 1)
    ensures Rows(task, feed, trades, dates, i + 1) ==
              Rows(task, feed, trades, dates, i) + [RowFrom(dates[i], r.cash, value, peak)]
  {
    hide RowFrom, MarketValue, AccountAfter;
  }

  lemma NoRowsYet(task: Task, feed: Feed, trades: seq<Trade>, dates: seq<Day>)
    ensures AccountAfter(task, trades, dates, 0) == Replay(task.initialCash, map[])
    ensures Peak(task, feed, trades, dates, 0) == task.initialCash as real && Rows(task, feed, trades, dates, 0) == []
  {
    assert dates[..0] == [];
  }

  method NextRow(feed: Feed, day: Day, cash: int, positions: map<Symbol, int>, highest: real)
    returns (row: EquityRow, peak: real)
    ensures var value := MarketValue(feed, positions, day);
            peak == MaxReal(highest, cash as real + value) && row == RowFrom(day, cash, value, peak)
  {
    var marketValue := ValuePositions(feed, positions, day);
    peak := MaxReal(highest, cash as real + marketValue);
    row := RowFrom(day, cash, marketValue, peak);
  }

  method RowsOver(task: Task, feed: Feed, trades: seq<Trade>, dates: seq<Day>) returns (rows: seq<EquityRow>)
    ensures rows == Rows(task, feed, trades, dates, |dates|)
  {
    hide RowFrom, AccountAfter, MarketValue, Peak, Rows, ReplayAll, DayTrades;
    NoRowsYet(task, feed, trades, dates);
    var cash := task.initialCash;
    var positions: map<Symbol, int> := map[];
    var byDay := GroupByDay(trades);
    var peak := task.initialCash as real;
    rows := [];
    for i := 0 to |dates|
      invariant Replay(cash, positions) == AccountAfter(task, trades, dates, i)
      invariant peak == Peak(task, feed, trades, dates, i)
      invariant rows == Rows(task, feed, trades, dates, i)
    {
      var day := dates[i];
      AccountNext(task, trades, dates, i);
      cash, positions := ReplayDay(cash, positions, if day in byDay then byDay[day] else []);
      var row, highest := NextRow(feed, day, cash, positions, peak);
      RowIs(task, feed, trades, dates, i, Replay(cash, positions), MarketValue(feed, positions, day), highest);
      peak := highest;
      rows := rows + [row];
    }
  }

  method BuildEquity(task: Task, feed: Feed, trades: seq<Trade>) returns (rows: seq<EquityRow>)
    ensures var dates := Dates(task, feed);
            if dates == [] then rows == [EquityRow(task.start, task.initialCash, task.initialCash, 0, 0)]
            else rows == Rows(task, feed, trades, dates, |dates|)
  {
    rows := RowsOver(task, feed, trades, Dates(task, feed));
    if rows == [] {
      rows := [EquityRow(task.start, task.initialCash, task.initialCash, 0, 0)];
    }
  }

  lemma AccountNext(task: Task, trades: seq<Trade>, dates: seq<Day>, i: nat)
    requires i < |dates|
    ensures AccountAfter(task, trades, dates, i + 1) ==
              ReplayAll(AccountAfter(task, trades, dates, i), DayTrades(trades, dates[i]))
  {
    assert dates[..i + 1][..i] == dates[..i];
    ReplayConcat(Replay(task.initialCash, map[]), ByDate(trades, dates[..i]), DayTrades(trades, dates[i]));
  }
}
