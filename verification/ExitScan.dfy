/**
 The stop-loss / take-profit exit from end to end: which minute of which day it falls on, and at what price
 (backtest_engine.py, _controlled_exit_event).
 */
module ExitScan {
  import opened AutoExit
  import opened Clock
  import opened Market
  import opened Options
  import opened OrderSizing
  import opened Signals

  // ---------------------------------------------------------------------------
  // The days scanned are the first n trading days

  lemma {:induction false} SortedDaysCount(days: set<Day>)
    ensures |SortedDays(days)| == |days|
  {
    if days != {} {
      SortedDaysCount(days - {Least(days)});
    }
  }

  function Members(days: seq<Day>): set<Day> {
    set d | d in days
  }

  lemma {:induction false} AscendingCount(days: seq<Day>)
    requires Ascending(days)
    ensures |Members(days)| == |days|
  {
    if days != [] {
      var front, last := days[..|days| - 1], days[|days| - 1];
      AscendingCount(front);
      assert Members(days) == Members(front) + {last};
    }
  }

  /** In ascending days the i-th has exactly i + 1 days up to and including itself. */
  lemma RankOfDay(bars: seq<Bar>, after: Day, i: nat)
    requires i < |SortedDays(Days(bars, after))|
    ensures |DaysBetween(bars, after, SortedDays(Days(bars, after))[i])| == i + 1
  {
    var s := SortedDays(Days(bars, after));
    var first, to := s[..i + 1], s[i];
    hide SortedDays;
    AscendingCount(first);
    forall d: Day
      ensures d in DaysBetween(bars, after, to) <==> d in Members(first)
    {
      RankMember(bars, after, s, i, d);
    }
    assert DaysBetween(bars, after, to) == Members(first);
  }

  lemma RankMember(bars: seq<Bar>, after: Day, s: seq<Day>, i: nat, d: Day)
    requires Ascending(s) && i < |s| && forall x :: x in s <==> x in Days(bars, after)
    ensures d in DaysBetween(bars, after, s[i]) <==> d in Members(s[..i + 1])
  {
    if d in DaysBetween(bars, after, s[i]) {
      assert d in s;
      var j :| 0 <= j < |s| && s[j] == d;
      assert j <= i;
      assert s[..i + 1][j] == d;
    }
    if d in Members(s[..i + 1]) {
      var j :| 0 <= j < i + 1 && s[..i + 1][j] == d;
      assert s[j] in s && s[j] <= s[i];
    }
  }

  /** Trading days after the purchase, the purchase day excluded, up to a day. */
  function Rank(bars: seq<Bar>, after: Day, day: Day): nat {
    |DaysBetween(bars, after, day)|
  }

  lemma PrefixMember(s: seq<Day>, count: nat, i: nat)
    requires Ascending(s) && 1 <= count <= |s| && i < |s|
    ensures s[i] in s[..count] <==> i < count
    ensures s[i] == s[count - 1] <==> i == count - 1
    ensures Ascending(s[..count])
  {
    if i < count {
      assert s[..count][i] == s[i];
    } else {
      assert forall j :: 0 <= j < count ==> s[..count][j] == s[j] && s[j] < s[i];
    }
  }

  /** The scan covers the first `count` trading days, or none when there are fewer. */
  lemma ScanDaysAreFirst(bars: seq<Bar>, after: Day, count: nat, d: Day)
    requires count >= 1
    ensures var days := ScanDays(bars, after, count);
            && (days != [] <==> |Days(bars, after)| >= count)
            && (d in days <==> |Days(bars, after)| >= count && d in Days(bars, after) && Rank(bars, after, d) <= count)
            && (days != [] && d in days ==> (d == days[|days| - 1] <==> Rank(bars, after, d) == count))
            && Ascending(days)
  {
    var s, days := SortedDays(Days(bars, after)), ScanDays(bars, after, count);
    SortedDaysCount(Days(bars, after));
    assert days == if |s| >= count then s[..count] else [];
    hide SortedDays, Days, DaysBetween, ScanDays;
    if |s| >= count {
      PrefixMember(s, count, 0);
      if d in s {
        var i :| 0 <= i < |s| && s[i] == d;
        hide Ascending;
        RankOfDay(bars, after, i);
        PrefixMember(s, count, i);
      } else {
        assert forall x :: x in days ==> x in s;
      }
    }
  }

  // ---------------------------------------------------------------------------
  // The rows scanned, and their order

  /** The clock the signal names, or 14:50. */
  function ScanClock(signal: Signal): (clock: nat)
    ensures signal.fallbackClock == Some(clock) || (signal.fallbackClock.None? && clock == (14 * 60 + 50) * 60)
  {
    if signal.fallbackClock.Some? then signal.fallbackClock.value else DEFAULT_FALLBACK
  }

  /**
   The minutes a purchase's stop/take rule watches: from the opening on, on the first n trading days after the
   purchase, on the n-th no later than the fallback clock; none when fewer than n trading days follow.
   */
  ghost predicate InScan(feed: Feed, buyBar: Bar, signal: Signal, b: Bar) {
    var bars, n := DailyBars(feed, signal.symbol), ExitAfter(signal);
    && b in MinuteBars(feed, signal.symbol) && b.second.Some? && OPENING <= b.second.value
    && |Days(bars, buyBar.day)| >= n && b.day in Days(bars, buyBar.day) && Rank(bars, buyBar.day, b.day) <= n
    && (Rank(bars, buyBar.day, b.day) == n ==> b.second.value <= ScanClock(signal))
  }

  lemma RowsAreScan(task: Task, feed: Feed, buyBar: Bar, signal: Signal, b: Bar)
    ensures b in ControlledRows(task, feed, buyBar, signal) <==> InScan(feed, buyBar, signal, b)
  {
    var bars, n := DailyBars(feed, signal.symbol), ExitAfter(signal);
    ScanDaysAreFirst(bars, buyBar.day, n, b.day);
    hide ScanDays, Days, Rank, ExitAfter, ScanRows, MinuteBars, DailyBars;
    var days := ScanDays(bars, buyBar.day, n);
    if days != [] {
      assert ControlledRows(task, feed, buyBar, signal) ==
        ScanRows(MinuteBars(feed, signal.symbol), days, days[|days| - 1], ScanClock(signal));
    }
  }

  lemma InOrderOf(bars: seq<Bar>, i: nat, j: nat)
    requires InTextOrder(bars) && i < j < |bars|
    ensures TextOrder(bars[i].Time()) < TextOrder(bars[j].Time())
  {
  }

  lemma TailInOrder(bars: seq<Bar>)
    requires InTextOrder(bars) && bars != []
    ensures InTextOrder(bars[1..])
    ensures forall b :: b in bars[1..] ==> TextOrder(bars[0].Time()) < TextOrder(b.Time())
  {
  }

  lemma HeadInOrder(first: Bar, rest: seq<Bar>)
    requires InTextOrder(rest) && forall b :: b in rest ==> TextOrder(first.Time()) < TextOrder(b.Time())
    ensures InTextOrder([first] + rest)
  {
    hide TextOrder;
    var all := [first] + rest;
    forall i, j | 0 <= i < j < |all|
      ensures TextOrder(all[i].Time()) < TextOrder(all[j].Time())
    {
      assert all[j] == rest[j - 1] && all[j] in rest;
      if i > 0 {
        assert all[i] == rest[i - 1];
      }
    }
  }

  lemma {:induction false} RowsOnInOrder(bars: seq<Bar>, day: Day, clock: nat)
    requires InTextOrder(bars)
    ensures InTextOrder(RowsOn(bars, day, clock))
  {
    if bars != [] {
      TailInOrder(bars);
      RowsOnInOrder(bars[1..], day, clock);
      var rest := RowsOn(bars[1..], day, clock);
      assert RowsOn(bars, day, clock) == rest || RowsOn(bars, day, clock) == [bars[0]] + rest;
      hide InTextOrder, TextOrder, RowsOn;
      HeadInOrder(bars[0], rest);
    }
  }

  lemma ConcatInOrder(a: seq<Bar>, b: seq<Bar>)
    requires InTextOrder(a) && InTextOrder(b)
    requires forall x, y :: x in a && y in b ==> TextOrder(x.Time()) < TextOrder(y.Time())
    ensures InTextOrder(a + b)
  {
    hide TextOrder;
    var all := a + b;
    forall i, j | 0 <= i < j < |all|
      ensures TextOrder(all[i].Time()) < TextOrder(all[j].Time())
    {
      if j < |a| {
        InOrderOf(a, i, j);
      } else if i >= |a| {
        InOrderOf(b, i - |a|, j - |a|);
      } else {
        assert all[i] in a && all[j] in b;
      }
    }
  }

  lemma EarlierDayEarlier(a: Bar, b: Bar)
    requires a.day < b.day
    ensures TextOrder(a.Time()) < TextOrder(b.Time())
  {
  }

  lemma {:induction false} ScanRowsInOrder(bars: seq<Bar>, days: seq<Day>, last: Day, clock: nat)
    requires InTextOrder(bars) && Ascending(days)
    ensures InTextOrder(ScanRows(bars, days, last, clock))
  {
    if days != [] {
      assert forall d :: d in days[1..] ==> days[0] < d;
      ScanRowsInOrder(bars, days[1..], last, clock);
      RowsOnInOrder(bars, days[0], Until(days[0], last, clock));
      var today, later := RowsOn(bars, days[0], Until(days[0], last, clock)), ScanRows(bars, days[1..], last, clock);
      assert ScanRows(bars, days, last, clock) == today + later;
      hide InTextOrder, TextOrder, RowsOn, ScanRows;
      forall x, y | x in today && y in later
        ensures TextOrder(x.Time()) < TextOrder(y.Time())
      {
        EarlierDayEarlier(x, y);
      }
      ConcatInOrder(today, later);
    }
  }

  lemma ControlledRowsInOrder(task: Task, feed: Feed, buyBar: Bar, signal: Signal)
    requires InTextOrder(MinuteBars(feed, signal.symbol))
    ensures InTextOrder(ControlledRows(task, feed, buyBar, signal))
  {
    var days := ScanDays(DailyBars(feed, signal.symbol), buyBar.day, ExitAfter(signal));
    hide ScanDays, ExitAfter, ScanRows, MinuteBars, DailyBars;
    if days != [] {
      ScanDaysAreFirst(DailyBars(feed, signal.symbol), buyBar.day, ExitAfter(signal), days[0]);
      ScanRowsInOrder(MinuteBars(feed, signal.symbol), days, days[|days| - 1], ScanClock(signal));
    }
  }

  // ---------------------------------------------------------------------------
  // The exit

  function StopOf(buyPrice: Price, signal: Signal): Option<int> {
    StopPrice(buyPrice, Percent(signal.stopLoss))
  }

  function TakeOf(buyPrice: Price, signal: Signal): Option<int> {
    TakePrice(buyPrice, Percent(signal.takeProfit))
  }

  predicate Requested(signal: Signal) {
    Percent(signal.stopLoss) > 0.0 || Percent(signal.takeProfit) > 0.0 || signal.fallbackClock.Some?
  }

  ghost predicate NoLaterThan(a: Bar, b: Bar) {
    TextOrder(a.Time()) <= TextOrder(b.Time())
  }

  lemma FirstHitInOrder(rows: seq<Bar>, stop: Option<int>, take: Option<int>, b: Bar)
    requires rows != [] && InTextOrder(rows) && b in rows
    ensures var row := rows[EarliestHit(rows, stop, take)];
            && (Hits(b, stop, take) ==> Hits(row, stop, take) && NoLaterThan(row, b))
            && (!Hits(row, stop, take) ==> NoLaterThan(b, row))
  {
    hide TextOrder, Hits;
    var i := EarliestHit(rows, stop, take);
    var j :| 0 <= j < |rows| && rows[j] == b;
    if i < j {
      InOrderOf(rows, i, j);
    } else if j < i {
      InOrderOf(rows, j, i);
    }
  }

  /**
   With minute bars in time order and prices in market order: no exit iff no minute is watched. Otherwise it falls on
   the earliest watched minute that touches the stop or the take price, or on the last watched minute if none does,
   at a price traded in that minute: the open where it lies beyond a price, else the stop if touched, else the take,
   else the open.
   */
  lemma StopTakeExit(task: Task, feed: Feed, buyBar: Bar, buyPrice: Price, quantity: nat, signal: Signal, sequence: nat,
                     b: Bar)
    requires task.minuteData && Requested(signal) && InTextOrder(MinuteBars(feed, signal.symbol))
    requires forall x :: x in MinuteBars(feed, signal.symbol) ==> Ordered(x)
    ensures var c := ControlledExit(task, feed, buyBar, buyPrice, quantity, signal, sequence);
            var stop, take := StopOf(buyPrice, signal), TakeOf(buyPrice, signal);
            && !c.NotRequested?
            && (InScan(feed, buyBar, signal, b) ==> c.Scheduled?)
            && (c.Scheduled? ==>
                  var row, price := c.event.bar.value, c.event.price;
                  && InScan(feed, buyBar, signal, row)
                  && (InScan(feed, buyBar, signal, b) && Hits(b, stop, take) ==>
                        Hits(row, stop, take) && NoLaterThan(row, b))
                  && (InScan(feed, buyBar, signal, b) && !Hits(row, stop, take) ==> NoLaterThan(b, row))
                  && price == Some(ExitPrice(row, stop, take)) && row.low <= price.value <= row.high)
  {
    hide ControlledRows, MinuteBars, SelectExit, Percent, InScan, Hits, InTextOrder, NoLaterThan;
    var rows := ControlledRows(task, feed, buyBar, signal);
    var stop, take := StopOf(buyPrice, signal), TakeOf(buyPrice, signal);
    RowsAreScan(task, feed, buyBar, signal, b);
    ControlledRowsInOrder(task, feed, buyBar, signal);
    forall r | r in rows
      ensures InScan(feed, buyBar, signal, r) && Ordered(r)
    {
      RowsAreScan(task, feed, buyBar, signal, r);
      ScannedIsBar(feed, buyBar, signal, r);
    }
    if rows != [] {
      PriceOfExit(rows, stop, take);
      if b in rows {
        FirstHitInOrder(rows, stop, take, b);
      }
    }
  }

  lemma ScannedIsBar(feed: Feed, buyBar: Bar, signal: Signal, b: Bar)
    requires InScan(feed, buyBar, signal, b)
    ensures b in MinuteBars(feed, signal.symbol)
  {
  }

  /** The price an exit on a row is made at. */
  function ExitPrice(row: Bar, stop: Option<int>, take: Option<int>): int {
    if stop.Some? && row.open <= stop.value then row.open
    else if take.Some? && row.open >= take.value then row.open
    else if stop.Some? && row.low <= stop.value then NonZero(stop.value, row.open)
    else if take.Some? && row.high >= take.value then NonZero(take.value, row.open)
    else row.open
  }

  lemma PriceOfExit(rows: seq<Bar>, stop: Option<int>, take: Option<int>)
    requires rows != [] && forall r :: r in rows ==> Ordered(r)
    ensures var s := SelectExit(rows, stop, take);
            s.row == rows[EarliestHit(rows, stop, take)] && s.price == ExitPrice(s.row, stop, take)
            && s.row.low <= s.price <= s.row.high
  {
    ScanIsEarliestHit(rows, stop, take);
    hide SelectExit, EarliestHit;
  }
}
