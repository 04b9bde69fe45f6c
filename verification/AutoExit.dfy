/**
 The exit a filled BUY schedules for itself (backtest_engine.py, _auto_exit_event and
 _controlled_exit_event): a stop-loss / take-profit scan over minute bars, or a sale after a
 number of trading days.
 */
module AutoExit {
  import opened Clock
  import opened Market
  import opened Options
  import opened Rounding
  import opened Signals

  /** `price` overrides the bar's own price when the exit was triggered at a known price. */
  datatype Event = Event(signal: Signal, bar: Option<Bar>, time: Stamp, sequence: nat, price: Option<Price>)

  // ---------------------------------------------------------------------------
  // Trading days after a date

  function Days(bars: seq<Bar>, after: int): set<Day> {
    set b | b in bars && b.day > after :: b.day
  }

  function Least(days: set<Day>): (d: Day)
    requires days != {}
    ensures d in days && forall x :: x in days ==> d <= x
  {
    LeastExists(days);
    assert exists d :: IsLeast(d, days);
    var d :| d in days && forall x :: x in days ==> d <= x;
    d
  }

  ghost predicate IsLeast(d: Day, days: set<Day>) {
    d in days && forall x :: x in days ==> d <= x
  }

  lemma {:induction false} LeastExists(days: set<Day>)
    requires days != {}
    ensures exists d :: IsLeast(d, days)
  {
    var d :| d in days;
    var others := days - {d};
    assert forall x :: x in days ==> x == d || x in others;
    if others == {} {
      assert IsLeast(d, days);
    } else {
      LeastExists(others);
      var e :| IsLeast(e, others);
      assert IsLeast(if d <= e then d else e, days);
    }
  }

  /** `sorted(set(...))` */
  function SortedDays(days: set<Day>): (s: seq<Day>)
    ensures forall d :: d in s <==> d in days
    ensures forall i, j :: 0 <= i < j < |s| ==> s[i] < s[j]
  {
    if days == {} then []
    else
      var d := Least(days);
      [d] + SortedDays(days - {d})
  }

  function BarsAfter(bars: seq<Bar>, day: Day): (r: seq<Bar>)
    ensures forall b :: b in r ==> b in bars && b.day > day
  {
    if bars == [] then []
    else (if bars[0].day > day then [bars[0]] else []) + BarsAfter(bars[1..], day)
  }

  // ---------------------------------------------------------------------------
  // Stop-loss / take-profit scan

  /** Minute bars of one day from the opening up to a clock time. */
  function RowsOn(bars: seq<Bar>, day: Day, clock: nat): (r: seq<Bar>)
    ensures forall b :: b in r <==> b in bars && b.day == day && b.second.Some? && OPENING <= b.second.value <= clock
  {
    if bars == [] then []
    else
      var b := bars[0];
      var later := RowsOn(bars[1..], day, clock);
      if b.day == day && b.second.Some? && OPENING <= b.second.value <= clock then [b] + later else later
  }

  /** The fallback clock cuts only the last day short. */
  function ScanRows(bars: seq<Bar>, days: seq<Day>, last: Day, clock: nat): (r: seq<Bar>)
    ensures forall b :: b in r <==> b in bars && b.day in days && Watched(b, last, clock)
  {
    if days == [] then []
    else RowsOn(bars, days[0], Until(days[0], last, clock)) + ScanRows(bars, days[1..], last, clock)
  }

  function Until(day: Day, last: Day, clock: nat): nat {
    if day == last then clock else DAY_SECONDS - 1
  }

  /** A minute bar from the opening on, on the last day no later than the clock. */
  predicate Watched(b: Bar, last: Day, clock: nat) {
    b.second.Some? && OPENING <= b.second.value <= Until(b.day, last, clock)
  }

  /** Python's `a or b` on prices. */
  function NonZero(price: int, otherwise: int): (p: int)
    ensures price == 0 ==> p == otherwise
    ensures price != 0 ==> p == price
  {
    if price != 0 then price else otherwise
  }

  /** The price at which one minute bar triggers an exit, if it does. */
  function Trigger(row: Bar, stop: Option<int>, take: Option<int>): Option<int> {
    if stop.Some? && row.open <= stop.value then Some(row.open)
    else if take.Some? && row.open >= take.value then Some(row.open)
    else if stop.Some? && row.low <= stop.value then Some(NonZero(stop.value, row.open))
    else if take.Some? && row.high >= take.value then Some(NonZero(take.value, row.open))
    else None
  }

  datatype Selection = Selection(row: Bar, price: int)

  /** First triggering row, or the last row at its open. */
  function SelectExit(rows: seq<Bar>, stop: Option<int>, take: Option<int>): (s: Selection)
    requires rows != []
    ensures s.row in rows
  {
    var t := Trigger(rows[0], stop, take);
    if t.Some? then Selection(rows[0], t.value)
    else if |rows| == 1 then Selection(rows[0], rows[0].open)
    else SelectExit(rows[1..], stop, take)
  }

  method ScanForExit(rows: seq<Bar>, stop: Option<int>, take: Option<int>) returns (s: Selection)
    requires rows != []
    ensures s == SelectExit(rows, stop, take)
  {
    for i := 0 to |rows|
      invariant i < |rows| ==> SelectExit(rows, stop, take) == SelectExit(rows[i..], stop, take)
      invariant i == |rows| ==> SelectExit(rows, stop, take) == Selection(rows[i - 1], rows[i - 1].open)
    {
      var t := Trigger(rows[i], stop, take);
      assert rows[i..][0] == rows[i] && rows[i..][1..] == rows[i + 1..];
      if t.Some? {
        return Selection(rows[i], t.value);
      }
    }
    s := Selection(rows[|rows| - 1], rows[|rows| - 1].open);
  }

  /** A bar's prices are ordered as market data orders them. */
  predicate Ordered(row: Bar) {
    row.low <= row.open <= row.high
  }

  predicate Hits(row: Bar, stop: Option<int>, take: Option<int>) {
    (stop.Some? && row.low <= stop.value) || (take.Some? && row.high >= take.value)
  }

  /** Index of the earliest row that touches the stop or the take price; the last row if none does. */
  function EarliestHit(rows: seq<Bar>, stop: Option<int>, take: Option<int>): (i: nat)
    requires rows != []
    ensures i < |rows| && forall j :: 0 <= j < i ==> !Hits(rows[j], stop, take)
    ensures i < |rows| - 1 ==> Hits(rows[i], stop, take)
  {
    if Hits(rows[0], stop, take) || |rows| == 1 then 0 else 1 + EarliestHit(rows[1..], stop, take)
  }

  /**
   The scan exits at the earliest minute touching either price. The price is one traded in that minute;
   a stop wins over a take unless the minute already opened past the take, and an open beyond a price
   fills at the open.
   */
  lemma {:induction false} ScanIsEarliestHit(rows: seq<Bar>, stop: Option<int>, take: Option<int>)
    requires rows != [] && forall r :: r in rows ==> Ordered(r)
    ensures var s := SelectExit(rows, stop, take);
            var row := rows[EarliestHit(rows, stop, take)];
            && s.row == row
            && row.low <= s.price <= row.high
            && (stop.Some? && row.open <= stop.value ==> s.price == row.open)
            && (take.Some? && row.open >= take.value ==> s.price == row.open)
            && (stop.Some? && row.low <= stop.value < row.open && (take.Some? ==> row.open < take.value) ==>
                  s.price == NonZero(stop.value, row.open))
            && (take.Some? && row.open < take.value <= row.high && (stop.Some? ==> row.low > stop.value) ==>
                  s.price == NonZero(take.value, row.open))
            && (!Hits(row, stop, take) ==> s.price == row.open)
  {
    assert rows[0] in rows && Ordered(rows[0]);
    if Trigger(rows[0], stop, take).None? && |rows| > 1 {
      ScanIsEarliestHit(rows[1..], stop, take);
    }
  }

  datatype Controlled = NotRequested | Refused | Scheduled(event: Event)

  lemma PercentOff(price: real, percent: real)
    ensures price * (1.0 - percent / 100.0) == price - percent * price / 100.0
    ensures price * (1.0 + percent / 100.0) == price + percent * price / 100.0
    ensures price >= 0.0 && percent > 0.0 ==> percent * price / 100.0 >= 0.0
  {
  }

  /** The stop lies `percent` of the purchase price below it, to 0.0001 yuan. */
  function StopPrice(buyPrice: Price, percent: real): (p: Option<int>)
    ensures p.Some? <==> percent > 0.0
    ensures p.Some? ==> Nearest(p.value, buyPrice as real - percent * buyPrice as real / 100.0) && p.value <= buyPrice
  {
    PercentOff(buyPrice as real, percent);
    RoundWhole(buyPrice);
    if percent > 0.0 then
      RoundMonotone(buyPrice as real * (1.0 - percent / 100.0), buyPrice as real);
      Some(Round(buyPrice as real * (1.0 - percent / 100.0)))
    else None
  }

  /** The take lies as much above it. */
  function TakePrice(buyPrice: Price, percent: real): (p: Option<int>)
    ensures p.Some? <==> percent > 0.0
    ensures p.Some? ==> Nearest(p.value, buyPrice as real + percent * buyPrice as real / 100.0) && p.value >= buyPrice
  {
    PercentOff(buyPrice as real, percent);
    RoundWhole(buyPrice);
    if percent > 0.0 then
      RoundMonotone(buyPrice as real, buyPrice as real * (1.0 + percent / 100.0));
      Some(Round(buyPrice as real * (1.0 + percent / 100.0)))
    else None
  }

  /** Days the scan covers: none unless the whole requested span has daily bars. */
  function ScanDays(bars: seq<Bar>, after: Day, count: nat): seq<Day> {
    var future := SortedDays(Days(bars, after));
    if |future| >= count then future[..count] else []
  }

  function ExitSignal(signal: Signal, time: Stamp, quantity: nat): Signal {
    Signal(signal.symbol, Sell, time, Blank, Number(quantity as real),
           Missing, Missing, None, Missing, Missing, Missing, true)
  }

  function ControlledRows(task: Task, feed: Feed, buyBar: Bar, signal: Signal): (r: seq<Bar>)
    ensures forall b :: b in r ==> b.day > buyBar.day && b.second.Some?
  {
    var days := ScanDays(DailyBars(feed, signal.symbol), buyBar.day, ExitAfter(signal));
    if days == [] then []
    else
      var clock := if signal.fallbackClock.Some? then signal.fallbackClock.value else DEFAULT_FALLBACK;
      ScanRows(MinuteBars(feed, signal.symbol), days, days[|days| - 1], clock)
  }

  function ControlledExit(task: Task, feed: Feed, buyBar: Bar, buyPrice: Price, quantity: nat, signal: Signal,
                          sequence: nat): (c: Controlled)
    ensures c.Scheduled? ==> LaterSell(c.event, signal, buyBar, sequence)
  {
    var stop, take := Percent(signal.stopLoss), Percent(signal.takeProfit);
    if stop <= 0.0 && take <= 0.0 && signal.fallbackClock.None? then NotRequested
    else if !task.minuteData then Refused
    else
      var rows := ControlledRows(task, feed, buyBar, signal);
      if rows == [] then Refused
      else
        var s := SelectExit(rows, StopPrice(buyPrice, stop), TakePrice(buyPrice, take));
        var time := s.row.Time();
        Scheduled(Event(ExitSignal(signal, time, quantity), Some(s.row), time, sequence,
                        if s.price >= 0 then Some(s.price) else None))
  }

  /** What every scheduled exit looks like: a SELL of the same stock on a later day than the purchase. */
  ghost predicate LaterSell(e: Event, signal: Signal, buyBar: Bar, sequence: nat) {
    && e.signal.symbol == signal.symbol && e.signal.action.Sell? && e.signal.auto
    && e.bar.Some? && e.bar.value.day > buyBar.day
    && e.time.At? && e.time.day == e.bar.value.day && e.signal.time == e.time
    && e.sequence == sequence
  }

  function AutoExitEvent(task: Task, feed: Feed, buyBar: Bar, buyPrice: Price, quantity: nat, signal: Signal,
                         sequence: nat): (r: Option<Event>)
    ensures r.Some? ==> LaterSell(r.value, signal, buyBar, sequence)
    ensures r.Some? ==> r.value.signal.quantity == Number(quantity as real)
  {
    var controlled := ControlledExit(task, feed, buyBar, buyPrice, quantity, signal, sequence);
    if controlled.Scheduled? then Some(controlled.event)
    else if controlled.Refused? && task.minuteData then None
    else
      var future := BarsAfter(DailyBars(feed, signal.symbol), buyBar.day);
      var days := SellAfter(signal);
      if days == 0 || |future| < days then None
      else
        var bar := future[days - 1];
        assert bar in future;
        var time := At(bar.day, OPENING);
        Some(Event(ExitSignal(signal, time, quantity), Some(bar), time, sequence, None))
  }

  // ---------------------------------------------------------------------------

  method CollectRows(bars: seq<Bar>, days: seq<Day>, last: Day, clock: nat) returns (rows: seq<Bar>)
    ensures rows == ScanRows(bars, days, last, clock)
    ensures forall b :: b in rows <==> b in bars && b.day in days && Watched(b, last, clock)
  {
    hide RowsOn, Until;
    rows := [];
    for i := 0 to |days|
      invariant ScanRows(bars, days, last, clock) == rows + ScanRows(bars, days[i..], last, clock)
    {
      assert days[i..][0] == days[i] && days[i..][1..] == days[i + 1..];
      rows := rows + RowsOn(bars, days[i], Until(days[i], last, clock));
    }
  }

  method ControlledExitEvent(task: Task, feed: Feed, buyBar: Bar, buyPrice: Price, quantity: nat, signal: Signal,
                             sequence: nat) returns (c: Controlled)
    ensures c == ControlledExit(task, feed, buyBar, buyPrice, quantity, signal, sequence)
  {
    hide SelectExit, ScanDays, ScanRows, StopPrice, TakePrice, SortedDays, Percent;
    var stopPercent, takePercent := Percent(signal.stopLoss), Percent(signal.takeProfit);
    if stopPercent <= 0.0 && takePercent <= 0.0 && signal.fallbackClock.None? {
      return NotRequested;
    }
    if !task.minuteData {
      return Refused;
    }
    var clock := if signal.fallbackClock.Some? then signal.fallbackClock.value else DEFAULT_FALLBACK;
    var days := ScanDays(DailyBars(feed, signal.symbol), buyBar.day, ExitAfter(signal));
    if days == [] {
      return Refused;
    }
    var rows := CollectRows(MinuteBars(feed, signal.symbol), days, days[|days| - 1], clock);
    if rows == [] {
      return Refused;
    }
    var s := ScanForExit(rows, StopPrice(buyPrice, stopPercent), TakePrice(buyPrice, takePercent));
    var time := s.row.Time();
    c := Scheduled(Event(ExitSignal(signal, time, quantity), Some(s.row), time, sequence,
                         if s.price >= 0 then Some(s.price) else None));
  }
}
