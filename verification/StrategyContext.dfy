/**
 What a strategy may see and return on a day of a backtest (backtest_engine.py, BacktestStrategyContext and
 StrategyRunner): nothing it reads depends on later bars, and every signal it may return is dated in range.
 */
module StrategyContext {
  import opened AutoExit
  import opened Broker
  import opened BrokerRuns
  import opened Clock
  import opened Market
  import opened Options
  import opened Rounding
  import opened SignalCheck
  import opened Signals
  import opened Sorting
  import Ledgers

  type Bars = map<Symbol, seq<Bar>>

  /** 1900-01-01, shown when no earlier day has a bar. */
  const EPOCH: Day := 693596

  function BarsOf(bars: Bars, symbol: Symbol): seq<Bar> {
    if symbol in bars then bars[symbol] else []
  }

  /** Bars of a list dated between two days. */
  function Between(bars: seq<Bar>, from: int, to: int): seq<Bar> {
    if bars == [] then []
    else if from <= bars[0].day <= to then [bars[0]] + Between(bars[1..], from, to)
    else Between(bars[1..], from, to)
  }

  /** Bars no later than a day: what the runner hands to the strategy. */
  function Until(bars: Bars, day: int): Bars {
    map s | s in bars :: Between(bars[s], 0, day)
  }

  function EarlierDays(bars: Bars, current: Day): set<Day> {
    set s, b | s in bars && b in bars[s] && b.day < current :: b.day
  }

  /** In minute mode the current day's daily bar is still unknown: the last earlier day is visible. */
  function VisibleEnd(bars: Bars, current: Day, minute: bool): Day {
    if !minute then current
    else
      var days := SortedDays(EarlierDays(bars, current));
      if days == [] then EPOCH else days[|days| - 1]
  }

  function GetDailyBars(bars: Bars, current: Day, minute: bool, symbol: Symbol, start: Option<Day>,
                        end: Option<Day>): seq<Bar> {
    var visible := VisibleEnd(bars, current, minute);
    var cutoff := if end.Some? then Min(end.value, visible) else visible;
    Between(BarsOf(bars, symbol), if start.Some? then start.value else 0, cutoff)
  }

  function GetLatestPrice(bars: Bars, current: Day, minute: bool, symbol: Symbol): Price {
    var visible := GetDailyBars(bars, current, minute, symbol, None, None);
    if visible == [] then 0 else visible[|visible| - 1].close
  }

  /** Last day a strategy may know about: today's close only in daily mode. */
  function Horizon(current: Day, minute: bool): int {
    if minute then current - 1 else current
  }

  /** Two histories that agree up to a day. */
  ghost predicate SamePast(a: Bars, b: Bars, day: int) {
    forall s: Symbol :: Between(BarsOf(a, s), 0, day) == Between(BarsOf(b, s), 0, day)
  }

  lemma {:induction false} BetweenMembers(bars: seq<Bar>, from: int, to: int, b: Bar)
    ensures b in Between(bars, from, to) <==> b in bars && from <= b.day <= to
  {
    if bars != [] {
      BetweenMembers(bars[1..], from, to, b);
    }
  }

  /**
   In daily mode the current day is visible; in minute mode the latest earlier day on which any stock has a bar, or
   1900-01-01 if there is none.
   */
  lemma VisibleEndIs(bars: Bars, current: Day, minute: bool, s: Symbol, b: Bar)
    ensures var end := VisibleEnd(bars, current, minute);
            && (!minute ==> end == current)
            && (minute && b in BarsOf(bars, s) && b.day < current ==> b.day <= end < current)
            && (minute ==> end == EPOCH || exists x, y :: y in BarsOf(bars, x) && y.day == end && end < current)
            && (minute && (forall x, y :: y in BarsOf(bars, x) ==> y.day >= current) ==> end == EPOCH)
  {
    if minute {
      var days := SortedDays(EarlierDays(bars, current));
      hide SortedDays;
      if days != [] {
        var last := days[|days| - 1];
        assert last in days;
        var x, y :| x in bars && y in bars[x] && y.day < current && y.day == last;
        assert y in BarsOf(bars, x);
      }
      if b in BarsOf(bars, s) && b.day < current {
        assert b.day in EarlierDays(bars, current);
        var i :| 0 <= i < |days| && days[i] == b.day;
      }
    }
  }

  /** A strategy sees exactly the bars of the stock inside the days asked for, up to the visible end. */
  lemma DailyBarsAre(bars: Bars, current: Day, minute: bool, symbol: Symbol, start: Option<Day>, end: Option<Day>,
                     b: Bar)
    ensures b in GetDailyBars(bars, current, minute, symbol, start, end) <==>
              && b in BarsOf(bars, symbol) && b.day <= VisibleEnd(bars, current, minute)
              && (start.Some? ==> b.day >= start.value) && (end.Some? ==> b.day <= end.value)
  {
    hide VisibleEnd, BarsOf, Between;
    var visible := VisibleEnd(bars, current, minute);
    BetweenMembers(BarsOf(bars, symbol), if start.Some? then start.value else 0,
                   if end.Some? then Min(end.value, visible) else visible, b);
  }

  lemma {:induction false} BetweenInOrder(bars: seq<Bar>, from: int, to: int)
    requires InDayOrder(bars)
    ensures InDayOrder(Between(bars, from, to))
  {
    if bars != [] {
      BetweenInOrder(bars[1..], from, to);
      var rest := Between(bars[1..], from, to);
      forall b | b in rest
        ensures bars[0].day < b.day
      {
        BetweenMembers(bars[1..], from, to, b);
        var i :| 0 <= i < |bars[1..]| && bars[1..][i] == b;
        assert bars[i + 1] == b;
      }
      assert forall i :: 0 <= i < |rest| ==> rest[i] in rest;
    }
  }

  /** The latest price is the close of the latest visible bar, or 0 if none is visible. */
  lemma LatestPriceIs(bars: Bars, current: Day, minute: bool, symbol: Symbol, b: Bar)
    requires InDayOrder(BarsOf(bars, symbol)) && b in BarsOf(bars, symbol)
    requires b.day <= VisibleEnd(bars, current, minute)
    requires forall x :: x in BarsOf(bars, symbol) && x.day <= VisibleEnd(bars, current, minute) ==> x.day <= b.day
    ensures GetLatestPrice(bars, current, minute, symbol) == b.close
  {
    var end := VisibleEnd(bars, current, minute);
    var visible := GetDailyBars(bars, current, minute, symbol, None, None);
    assert visible == Between(BarsOf(bars, symbol), 0, end);
    BetweenInOrder(BarsOf(bars, symbol), 0, end);
    DailyBarsAre(bars, current, minute, symbol, None, None, b);
    hide VisibleEnd, GetDailyBars, Between, BarsOf;
    var last := visible[|visible| - 1];
    DailyBarsAre(bars, current, minute, symbol, None, None, last);
    assert last in visible;
    var i :| 0 <= i < |visible| && visible[i] == b;
  }

  lemma NoPriceYet(bars: Bars, current: Day, minute: bool, symbol: Symbol)
    requires forall x :: x in BarsOf(bars, symbol) ==> x.day > VisibleEnd(bars, current, minute)
    ensures GetLatestPrice(bars, current, minute, symbol) == 0
  {
    var visible := GetDailyBars(bars, current, minute, symbol, None, None);
    hide VisibleEnd, GetDailyBars, BarsOf;
    if visible != [] {
      DailyBarsAre(bars, current, minute, symbol, None, None, visible[0]);
    }
  }

  /** Cutting twice is cutting once. */
  lemma {:induction false} BetweenAgain(bars: seq<Bar>, from: int, to: int, day: int)
    requires to <= day && 0 <= from
    ensures Between(Between(bars, 0, day), from, to) == Between(bars, from, to)
  {
    if bars != [] {
      BetweenAgain(bars[1..], from, to, day);
      if 0 <= bars[0].day <= day {
        var cut := Between(bars, 0, day);
        assert cut[0] == bars[0] && cut[1..] == Between(bars[1..], 0, day);
      }
    }
  }

  lemma SameVisibleEnd(a: Bars, b: Bars, current: Day, minute: bool)
    requires SamePast(a, b, Horizon(current, minute))
    ensures VisibleEnd(a, current, minute) == VisibleEnd(b, current, minute)
    ensures VisibleEnd(a, current, minute) == EPOCH || VisibleEnd(a, current, minute) <= Horizon(current, minute)
  {
    if minute {
      assert EarlierDays(a, current) == EarlierDays(b, current) by {
        EarlierDaysWithin(a, b, current);
        EarlierDaysWithin(b, a, current);
      }
      var days := SortedDays(EarlierDays(a, current));
      if days != [] {
        assert days[|days| - 1] in days;
      }
    }
  }

  lemma EarlierDaysWithin(a: Bars, b: Bars, current: Day)
    requires SamePast(a, b, current - 1)
    ensures EarlierDays(a, current) <= EarlierDays(b, current)
  {
    forall d | d in EarlierDays(a, current)
      ensures d in EarlierDays(b, current)
    {
      var s, x :| s in a && x in a[s] && x.day == d && x.day < current;
      BetweenMembers(BarsOf(a, s), 0, current - 1, x);
      assert Between(BarsOf(a, s), 0, current - 1) == Between(BarsOf(b, s), 0, current - 1);
      BetweenMembers(BarsOf(b, s), 0, current - 1, x);
    }
  }

  /** Within a shared past, every cut shows the same. */
  lemma SameCut(a: Bars, b: Bars, day: int, symbol: Symbol, from: int, to: int)
    requires SamePast(a, b, day) && 0 <= from && to <= day
    ensures Between(BarsOf(a, symbol), from, to) == Between(BarsOf(b, symbol), from, to)
  {
    hide Between, BarsOf;
    BetweenAgain(BarsOf(a, symbol), from, to, day);
    BetweenAgain(BarsOf(b, symbol), from, to, day);
  }

  lemma SameDailyBars(a: Bars, b: Bars, current: Day, minute: bool, symbol: Symbol, start: Option<Day>,
                      end: Option<Day>)
    requires SamePast(a, b, Horizon(current, minute)) && current > EPOCH
    ensures GetDailyBars(a, current, minute, symbol, start, end) == GetDailyBars(b, current, minute, symbol, start, end)
  {
    SameVisibleEnd(a, b, current, minute);
    hide VisibleEnd, SamePast, Between, BarsOf;
    var h, visible := Horizon(current, minute), VisibleEnd(a, current, minute);
    assert visible <= h;
    var from, to := if start.Some? then start.value else 0, if end.Some? then Min(end.value, visible) else visible;
    SameCut(a, b, h, symbol, from, to);
  }

  /** When no earlier bar exists, minute mode shows day 1900-01-01; on a later day that is still the past. */
  lemma NoLookAhead(a: Bars, b: Bars, current: Day, minute: bool, symbol: Symbol, start: Option<Day>, end: Option<Day>)
    requires SamePast(a, b, Horizon(current, minute)) && current > EPOCH
    ensures GetDailyBars(a, current, minute, symbol, start, end) == GetDailyBars(b, current, minute, symbol, start, end)
    ensures GetLatestPrice(a, current, minute, symbol) == GetLatestPrice(b, current, minute, symbol)
  {
    hide SamePast, GetDailyBars;
    SameDailyBars(a, b, current, minute, symbol, start, end);
    SameDailyBars(a, b, current, minute, symbol, None, None);
  }

  /** Cutting the bars at the current day, as the runner does, hides nothing the strategy could see. */
  lemma RunnerCutIsInvisible(bars: Bars, current: Day, minute: bool, symbol: Symbol, start: Option<Day>,
                             end: Option<Day>)
    requires current > EPOCH
    ensures GetDailyBars(Until(bars, current), current, minute, symbol, start, end) ==
              GetDailyBars(bars, current, minute, symbol, start, end)
  {
    var cut := Until(bars, current);
    forall s: Symbol
      ensures Between(BarsOf(cut, s), 0, Horizon(current, minute)) ==
                Between(BarsOf(bars, s), 0, Horizon(current, minute))
    {
      if s in bars {
        BetweenAgain(bars[s], 0, Horizon(current, minute), current);
      }
    }
    NoLookAhead(cut, bars, current, minute, symbol, start, end);
  }

  // ---------------------------------------------------------------------------
  // From signal to fill

  /** A signal is filled only on a bar strictly later than its own time. */
  lemma FillIsLater(task: Task, feed: Feed, e: Event, book: Ledgers.Ledger)
    requires e.bar.None? && Judge(task, feed, e, book).Fill?
    ensures var bar := Judge(task, feed, e, book).bar;
            TextOrder(e.signal.time) < TextOrder(bar.Time()) &&
                (!task.minuteData ==> !e.signal.time.Unset? ==> bar.day > e.signal.time.day)
  {
    FilledInBoardLots(task, feed, e, book);
  }

  /**
   Later than the signal, but not always than the moment its event is processed: in time order a fill precedes that
   moment exactly for a bare date filled at a minute of its own day before 15:00, and for no date at all.
   */
  lemma FillBeforeProcessing(task: Task, feed: Feed, e: Event, book: Ledgers.Ledger)
    requires e.bar.None? && e.time == SortTime(e.signal.time) && Judge(task, feed, e, book).Fill?
    ensures var bar := Judge(task, feed, e, book).bar;
            TextOrder(bar.Time()) < TextOrder(e.time) <==>
              match e.signal.time
              case Unset => bar.Time() != At(LAST_DAY, DAY_SECONDS - 1)
              case OnDay(d) => bar.day == d && bar.second.Some? && bar.second.value < CLOSING
              case At(_, _) => false
  {
    FilledInBoardLots(task, feed, e, book);
    hide Judge;
    var bar := Judge(task, feed, e, book).bar;
    assert EventBar(task, feed, e) == Some(bar);
  }

  /** Runs over admissible signals never schedule an exit into the past. */
  lemma AdmissibleRunsMoveForward(task: Task, feed: Feed, signals: seq<Signal>, n: nat)
    requires forall g :: g in signals ==> exists current :: Admissible(g, current, task.start, task.end)
    ensures var s := After(task, feed, Start(task, signals), n);
            Strict(KeyLess, s.done) && forall a, b :: a in s.done && b in s.queue ==> KeyLess(a, b)
  {
    hide Step, KeyLess, After;
    NeverIntoThePast(task, feed, signals, n);
  }
}
