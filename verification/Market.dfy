/** Bars and the matching engine (backtest_engine.py, MatchingEngine; backtest_repository.py, minute queries). */
module Market {
  import opened Clock
  import opened Options
  import opened Rounding

  type Symbol = string

  /** A price in units of 0.0001 yuan. */
  type Price = nat

  /** A daily bar has no second; a minute bar has one. */
  datatype Bar = Bar(day: Day, open: Price, high: Price, low: Price, close: Price,
                     volume: int, suspended: bool, second: Option<Second>)
  {
    function Time(): Stamp {
      if second.Some? then At(day, second.value) else OnDay(day)
    }
  }

  datatype Side = BuySide | SellSide

  datatype TaskRecord = TaskRecord(start: Day, end: Day, initialCash: int, singleOrder: real, minuteData: bool,
                                   fillAtOpen: bool, feeRate: real, stampRate: real, slippage: real)

  /** What the request schema guarantees about a task. */
  type Task = t: TaskRecord |
      t.initialCash > 0 && t.singleOrder > 0.0 && t.feeRate >= 0.0 && t.stampRate >= 0.0 && t.slippage >= 0.0
    witness TaskRecord(0, 0, 1, 1.0, false, true, 0.0, 0.0, 0.0)

  datatype Feed = Feed(daily: map<Symbol, seq<Bar>>, minutes: map<Symbol, seq<Bar>>)

  function DailyBars(feed: Feed, symbol: Symbol): seq<Bar> {
    if symbol in feed.daily then feed.daily[symbol] else []
  }

  function MinuteBars(feed: Feed, symbol: Symbol): seq<Bar> {
    if symbol in feed.minutes then feed.minutes[symbol] else []
  }

  /** ORDER BY over a unique key: one bar per day, ascending. */
  ghost predicate InDayOrder(bars: seq<Bar>) {
    forall i, j :: 0 <= i < j < |bars| ==> bars[i].day < bars[j].day
  }

  /** First bar of a list dated strictly after a day. */
  function FirstAfter(bars: seq<Bar>, day: Day): (r: Option<Bar>)
    ensures r.Some? ==> r.value in bars && r.value.day > day
    ensures r.None? ==> forall b :: b in bars ==> b.day <= day
  {
    if bars == [] then None
    else if bars[0].day > day then Some(bars[0])
    else
      FirstAfter(bars[1..], day)
  }

  /** On ascending bars the bar found moves forward with the day asked for. */
  lemma {:induction false} FirstAfterMonotone(bars: seq<Bar>, a: Day, b: Day)
    requires InDayOrder(bars) && a <= b && FirstAfter(bars, b).Some?
    ensures FirstAfter(bars, a).Some? && FirstAfter(bars, a).value.day <= FirstAfter(bars, b).value.day
  {
    if bars[0].day > a {
    } else {
      FirstAfterMonotone(bars[1..], a, b);
    }
  }

  /** The day a daily fill counts from; a signal without a time counts from the first bar. */
  function SignalDay(bars: seq<Bar>, time: Stamp): Day
    requires bars != []
  {
    if time.Unset? then bars[0].day else time.day
  }

  function NextBar(bars: seq<Bar>, time: Stamp): (r: Option<Bar>)
    ensures r.Some? ==> r.value in bars && (!time.Unset? ==> r.value.day > time.day)
  {
    if bars == [] then None else FirstAfter(bars, SignalDay(bars, time))
  }

  /** First minute bar strictly after a stamp, in text order, and no later than the end of the last day. */
  function NextMinuteBar(bars: seq<Bar>, time: Stamp, end: Day): (r: Option<Bar>)
    ensures r.Some? ==> r.value in bars && TextOrder(time) < TextOrder(r.value.Time()) && r.value.day <= end
  {
    if bars == [] then None
    else if TextOrder(time) < TextOrder(bars[0].Time()) <= TextOrder(At(end, DAY_SECONDS - 1)) then Some(bars[0])
    else
      NextMinuteBar(bars[1..], time, end)
  }

  function Slipped(base: Price, side: Side, slippage: real): (p: int)
    requires slippage >= 0.0
    ensures side.BuySide? ==> p >= base && Nearest(p, base as real + slippage)
    ensures side.SellSide? ==> p >= 100 && Nearest(p, MaxReal(base as real - slippage, 100.0))
    ensures side.SellSide? && base >= 100 ==> p <= base
  {
    RoundMonotone(base as real, base as real + slippage);
    RoundWhole(base);
    RoundWhole(100);
    RoundMonotone(100.0, MaxReal(base as real - slippage, 100.0));
    RoundMonotone(MaxReal(base as real - slippage, 100.0), MaxReal(base as real, 100.0));
    if side.BuySide? then Round(base as real + slippage) else Round(MaxReal(base as real - slippage, 100.0))
  }

  function ExecutablePrice(task: Task, bar: Bar, side: Side): (p: Price) {
    Slipped(if task.fillAtOpen then bar.open else bar.close, side, task.slippage)
  }

  /** The last bar dated before a day that is met on the way to that day's own bar. */
  function ScanPrevious(bars: seq<Bar>, day: Day, found: Option<Bar>): Option<Bar> {
    if bars == [] || bars[0].day == day then found
    else ScanPrevious(bars[1..], day, if bars[0].day < day then Some(bars[0]) else found)
  }

  /** On ascending bars the scan finds exactly the closest earlier trading day. */
  lemma {:induction false} PreviousIsClosest(bars: seq<Bar>, day: Day, found: Option<Bar>)
    requires InDayOrder(bars)
    requires found.Some? ==> found.value.day < day && forall b :: b in bars ==> found.value.day < b.day
    ensures var p := ScanPrevious(bars, day, found);
            && (found.Some? ==> p.Some?)
            && (p.Some? ==> p.value.day < day && (p == found || p.value in bars))
            && (forall b :: b in bars && b.day < day ==> p.Some? && b.day <= p.value.day)
  {
    if bars == [] || bars[0].day == day {
    } else {
      var next := if bars[0].day < day then Some(bars[0]) else found;
      assert forall b :: b in bars ==> b == bars[0] || b in bars[1..];
      if bars[0].day > day {
        ScanPastDay(bars[1..], day, found);
      } else {
        assert forall b :: b in bars[1..] ==> bars[0].day < b.day;
        PreviousIsClosest(bars[1..], day, next);
      }
    }
  }

  lemma {:induction false} ScanPastDay(bars: seq<Bar>, day: Day, found: Option<Bar>)
    requires forall b :: b in bars ==> b.day > day
    ensures ScanPrevious(bars, day, found) == found
  {
    if bars != [] {
      assert bars[0] in bars;
      ScanPastDay(bars[1..], day, found);
    }
  }

  /** A bar frozen at one price, at least 9.5% away from the previous close, cannot be traded in that direction. */
  predicate LimitBlocked(bars: seq<Bar>, bar: Bar, side: Side) {
    var previous := ScanPrevious(bars, bar.day, None);
    && previous.Some? && previous.value.close > 0
    && bar.high == bar.low == bar.close
    && (if side.BuySide? then bar.close * 1000 >= previous.value.close * 1095
        else bar.close * 1000 <= previous.value.close * 905)
  }

  /** On ascending bars: blocked iff frozen, at least 9.5 % from the closest earlier close, against the order. */
  lemma LimitBlockedMeaning(bars: seq<Bar>, bar: Bar, side: Side, p: Bar)
    requires InDayOrder(bars) && p in bars && p.day < bar.day
    requires forall b :: b in bars && b.day < bar.day ==> b.day <= p.day
    ensures LimitBlocked(bars, bar, side) <==>
              && p.close > 0 && bar.high == bar.close && bar.low == bar.close
              && (side.BuySide? ==> bar.close as real >= 1.095 * p.close as real)
              && (side.SellSide? ==> bar.close as real <= 0.905 * p.close as real)
  {
    PreviousIsClosest(bars, bar.day, None);
    var found := ScanPrevious(bars, bar.day, None).value;
    OneBarADay(bars, found, p);
    assert (bar.close * 1000) as real == 1000.0 * bar.close as real;
    assert (p.close * 1095) as real == 1095.0 * p.close as real && (p.close * 905) as real == 905.0 * p.close as real;
    hide ScanPrevious, InDayOrder;
  }

  lemma OneBarADay(bars: seq<Bar>, a: Bar, b: Bar)
    requires InDayOrder(bars) && a in bars && b in bars && a.day == b.day
    ensures a == b
  {
  }

  /** Without an earlier bar nothing is blocked. */
  lemma NeverBlockedFirst(bars: seq<Bar>, bar: Bar, side: Side)
    requires InDayOrder(bars) && forall b :: b in bars ==> b.day >= bar.day
    ensures !LimitBlocked(bars, bar, side)
  {
    PreviousIsClosest(bars, bar.day, None);
  }

  method IsLimitBlocked(bars: seq<Bar>, bar: Bar, side: Side) returns (blocked: bool)
    ensures blocked <==> LimitBlocked(bars, bar, side)
  {
    var previous: Option<Bar> := None;
    var i := 0;
    while i < |bars| && bars[i].day != bar.day
      invariant 0 <= i <= |bars|
      invariant ScanPrevious(bars, bar.day, None) == ScanPrevious(bars[i..], bar.day, previous)
    {
      if bars[i].day < bar.day {
        previous := Some(bars[i]);
      }
      i := i + 1;
    }
    if previous.None? || previous.value.close <= 0 {
      return false;
    }
    if side.BuySide? {
      return bar.high == bar.low == bar.close && bar.close * 1000 >= previous.value.close * 1095;
    }
    return bar.high == bar.low == bar.close && bar.close * 1000 <= previous.value.close * 905;
  }
}
