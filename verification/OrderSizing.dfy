/**
 Which bar an order gets and how large it is, stated without the code's arithmetic: the first bar, the most
 board lots, exactly so many trading days (backtest_engine.py, execute_with_audit and its helpers).
 */
module OrderSizing {
  import opened AutoExit
  import opened Broker
  import opened Clock
  import opened Ledgers
  import opened Market
  import opened Rounding
  import opened Signals

  // ---------------------------------------------------------------------------
  // The first bar

  /** On ascending bars a dated signal fills on the earliest bar after its day, and on none only if there is none. */
  lemma {:induction false} FirstAfterIsEarliest(bars: seq<Bar>, day: Day)
    requires InDayOrder(bars)
    ensures var r := FirstAfter(bars, day);
            forall b :: b in bars && b.day > day ==> r.Some? && r.value.day <= b.day
  {
    if bars != [] {
      assert forall b :: b in bars ==> b == bars[0] || b in bars[1..];
      FirstAfterIsEarliest(bars[1..], day);
    }
  }

  /**
   The bar a daily fill takes: the earliest after the signal's day, or after the first bar if the signal has no time.
   */
  lemma NextBarIsEarliest(bars: seq<Bar>, time: Stamp)
    requires InDayOrder(bars)
    ensures var r := NextBar(bars, time);
            && (r.Some? ==> r.value in bars && r.value.day > SignalDay(bars, time))
            && forall b :: b in bars && b.day > SignalDay(bars, time) ==> r.Some? && r.value.day <= b.day
  {
    if bars != [] {
      FirstAfterIsEarliest(bars, SignalDay(bars, time));
    }
  }

  ghost predicate InTextOrder(bars: seq<Bar>) {
    forall i, j :: 0 <= i < j < |bars| ==> TextOrder(bars[i].Time()) < TextOrder(bars[j].Time())
  }

  /** A bar lies within the days asked for iff its time does not exceed the end of the last day. */
  lemma WithinLastDay(b: Bar, end: Day)
    ensures TextOrder(b.Time()) <= TextOrder(At(end, DAY_SECONDS - 1)) <==> b.day <= end
  {
  }

  /** The minute bar found is the earliest after the signal up to the end of the last day. */
  lemma {:induction false} NextMinuteIsEarliest(bars: seq<Bar>, time: Stamp, end: Day)
    requires InTextOrder(bars)
    ensures var r := NextMinuteBar(bars, time, end);
            forall b :: b in bars && TextOrder(time) < TextOrder(b.Time()) && b.day <= end ==>
              r.Some? && TextOrder(r.value.Time()) <= TextOrder(b.Time())
  {
    hide TextOrder;
    if bars != [] {
      var rest := bars[1..];
      assert forall i :: 0 <= i < |rest| ==> rest[i] == bars[i + 1];
      NextMinuteIsEarliest(rest, time, end);
      WithinLastDay(bars[0], end);
      forall b | b in bars
        ensures b == bars[0] || (b in rest && TextOrder(bars[0].Time()) < TextOrder(b.Time()))
      {
        var i :| 0 <= i < |bars| && bars[i] == b;
      }
    }
  }

  // ---------------------------------------------------------------------------
  // The most board lots

  /** With a budget of x times the price p, n lots are within it iff n is at most x. */
  lemma WithinBudget(budget: real, x: real, p: real, n: real)
    requires p > 0.0 && x * p == budget
    ensures n <= x <==> n * p <= budget
  {
    TimesPositive(x, n, p);
  }

  lemma Recompose(budget: real, p: real)
    requires p > 0.0
    ensures budget / p * p == budget
  {
  }

  lemma HandsBracket(budget: real, price: Price)
    requires price > 0
    ensures var x, h := budget / price as real, Hands(budget, price);
            (h >= 1 <==> 1.0 <= x) && (h >= 1 ==> h as real <= x < h as real + 1.0)
  {
  }

  lemma Cents(price: Price, h: nat)
    ensures (price * h) as real == h as real * price as real
  {
  }

  lemma HandsAreMost(budget: real, price: Price)
    requires price > 0
    ensures Hands(budget, price) >= 1 <==> price as real <= budget
    ensures Hands(budget, price) >= 1 ==>
              (price * Hands(budget, price)) as real <= budget < (price * (Hands(budget, price) + 1)) as real
  {
    var p, h := price as real, Hands(budget, price);
    var x := budget / p;
    HandsBracket(budget, price);
    Recompose(budget, p);
    hide Hands;
    WithinBudget(budget, x, p, 1.0);
    if h >= 1 {
      WithinBudget(budget, x, p, h as real);
      WithinBudget(budget, x, p, (h + 1) as real);
      Cents(price, h);
      Cents(price, h + 1);
    }
  }

  /**
   One board lot costs `price` cents. A purchase is made iff one lot is within budget, and then of as many lots
   as are.
   */
  lemma PurchaseIsLargest(task: Task, signal: Signal, bar: Bar, price: Price, cash: int)
    ensures var v := JudgeBuy(task, signal, bar, price, cash);
            var budget := BuyBudget(task, signal, cash);
            && (v.DivisionByZero? <==> price == 0)
            && (price > 0 ==> (v.Fill? <==> price as real <= budget) && (v == Skip(NoCash) <==> price as real > budget))
            && (v.Fill? ==>
                  var hands := v.quantity / 100;
                  v.quantity == hands * 100 && (price * hands) as real <= budget < (price * (hands + 1)) as real)
  {
    hide Charge;
    if price > 0 {
      var h := Hands(BuyBudget(task, signal, cash), price);
      HandsAreMost(BuyBudget(task, signal, cash), price);
      hide Hands, BuyBudget;
      assert h >= 1 ==> h * 100 / 100 == h;
    }
  }

  lemma {:induction false} AvailableAtMostHeld(lots: seq<Lot>, day: int)
    ensures AvailableBefore(lots, day) <= Quantity(lots)
  {
    if lots != [] {
      AvailableAtMostHeld(lots[1..], day);
    }
  }

  /** What a sale is asked to sell: a valid requested quantity, or all it may. */
  function Wanted(signal: Signal, available: int): int {
    if RequestedQuantity(signal).Some? then Min(RequestedQuantity(signal).value, available) else available
  }

  lemma WholeLots(n: int)
    requires n >= 100
    ensures var q := n / 100 * 100;
            q >= 100 && q % 100 == 0 && q <= n < q + 100
  {
  }

  lemma SellableIsWanted(signal: Signal, holding: int, available: int)
    requires available <= holding
    ensures Sellable(signal, holding, available) == Wanted(signal, available)
    ensures available >= 100 ==> Wanted(signal, available) >= 100
  {
  }

  /**
   On a sound ledger a sale is made iff a board lot is available under T+1, and then of the most lots wanted.
   The odd-lot refusal is never reached, and the no-holding refusal means less than a lot is held in all.
   */
  lemma SaleIsLargest(task: Task, signal: Signal, bar: Bar, price: Price, book: Ledger)
    requires Sound(book)
    ensures var v := JudgeSell(task, signal, bar, price, book);
            var available := AvailableBefore(book.Lots(signal.symbol), bar.day);
            && (v.Fill? <==> available >= 100)
            && (v.Fill? ==> v.quantity % 100 == 0 && v.quantity <= Wanted(signal, available) < v.quantity + 100)
            && (v == Skip(Status.NoHolding) <==> Quantity(book.Lots(signal.symbol)) < 100)
            && (v == Skip(Status.TPlusOne) <==> available < 100 <= Quantity(book.Lots(signal.symbol)))
            && v != Skip(Status.OddLot)
  {
    var held := book.Position(signal.symbol);
    var available := AvailableBefore(book.Lots(signal.symbol), bar.day);
    AvailableAtMostHeld(book.Lots(signal.symbol), bar.day);
    assert held == Quantity(book.Lots(signal.symbol));
    hide Charge, Sound, Amount, AvailableBefore, Quantity, Sellable, Wanted;
    SellableIsWanted(signal, held, available);
    if available >= 100 {
      WholeLots(Wanted(signal, available));
    }
  }

  // ---------------------------------------------------------------------------
  // Exactly so many trading days

  /** The trading days after one day and up to another. */
  function DaysBetween(bars: seq<Bar>, after: Day, to: Day): set<Day> {
    set b | b in bars && after < b.day <= to :: b.day
  }

  lemma {:induction false} BarsAfterAscend(bars: seq<Bar>, after: Day)
    requires InDayOrder(bars)
    ensures InDayOrder(BarsAfter(bars, after))
    ensures forall b :: b in bars && b.day > after ==> b in BarsAfter(bars, after)
  {
    if bars != [] {
      var rest := bars[1..];
      BarsAfterAscend(rest, after);
      forall b | b in rest
        ensures bars[0].day < b.day
      {
        var i :| 0 <= i < |rest| && rest[i] == b;
        assert bars[i + 1] == b;
      }
      if bars[0].day > after {
        assert BarsAfter(bars, after) == [bars[0]] + BarsAfter(rest, after);
        AscendingCons(bars[0], BarsAfter(rest, after));
      } else {
        assert BarsAfter(bars, after) == BarsAfter(rest, after);
      }
    }
  }

  lemma AscendingCons(first: Bar, rest: seq<Bar>)
    requires InDayOrder(rest) && forall b :: b in rest ==> first.day < b.day
    ensures InDayOrder([first] + rest)
  {
    var all := [first] + rest;
    assert forall i :: 0 < i < |all| ==> all[i] == rest[i - 1] && all[i] in rest;
  }

  function DaysOf(bars: seq<Bar>): set<Day> {
    set b | b in bars :: b.day
  }

  lemma {:induction false} AscendingDaysCount(bars: seq<Bar>)
    requires InDayOrder(bars)
    ensures |DaysOf(bars)| == |bars|
  {
    if bars != [] {
      var front, last := bars[..|bars| - 1], bars[|bars| - 1];
      AscendingDaysCount(front);
      assert forall b :: b in bars <==> b in front || b == last;
      assert DaysOf(bars) == DaysOf(front) + {last.day};
      assert forall b :: b in front ==> b.day < last.day;
    }
  }

  /** In an ascending list, the bars up to the n-th day are the first n. */
  lemma FirstBars(future: seq<Bar>, n: nat, d: Day)
    requires InDayOrder(future) && 1 <= n <= |future|
    ensures d in DaysOf(future[..n]) <==> d in DaysOf(future) && d <= future[n - 1].day
  {
    var first := future[..n];
    if d in DaysOf(first) {
      var i :| 0 <= i < n && first[i].day == d;
      assert future[i] in future && future[i].day == d;
    }
    if d in DaysOf(future) && d <= future[n - 1].day {
      var i :| 0 <= i < |future| && future[i].day == d;
      assert i < n;
      assert first[i] in first;
    }
  }

  lemma LaterDays(bars: seq<Bar>, after: Day, to: Day)
    requires InDayOrder(bars)
    ensures forall d: Day :: d in DaysBetween(bars, after, to) <==> d in DaysOf(BarsAfter(bars, after)) && d <= to
  {
    BarsAfterAscend(bars, after);
    hide BarsAfter;
  }

  lemma NthBarAfter(bars: seq<Bar>, after: Day, n: nat)
    requires InDayOrder(bars) && 1 <= n <= |BarsAfter(bars, after)|
    ensures |DaysBetween(bars, after, BarsAfter(bars, after)[n - 1].day)| == n
  {
    var future := BarsAfter(bars, after);
    var to := future[n - 1].day;
    BarsAfterAscend(bars, after);
    LaterDays(bars, after, to);
    hide BarsAfter, DaysBetween, DaysOf;
    AscendingDaysCount(future[..n]);
    forall d: Day
      ensures d in DaysBetween(bars, after, to) <==> d in DaysOf(future[..n])
    {
      FirstBars(future, n, d);
    }
    assert DaysBetween(bars, after, to) == DaysOf(future[..n]);
  }

  /**
   A purchase without a stop/take rule, or outside minute data, is sold on the n-th trading day after it when it
   asks to be held for n, and no exit is scheduled iff n is 0 or the bars end before.
   */
  lemma HeldExactly(task: Task, feed: Feed, buyBar: Bar, buyPrice: Price, quantity: nat, signal: Signal, sequence: nat)
    requires InDayOrder(DailyBars(feed, signal.symbol))
    requires !task.minuteData || ControlledExit(task, feed, buyBar, buyPrice, quantity, signal, sequence).NotRequested?
    ensures var bars := DailyBars(feed, signal.symbol);
            var exit := AutoExitEvent(task, feed, buyBar, buyPrice, quantity, signal, sequence);
            && (exit.Some? <==> 1 <= SellAfter(signal) <= |BarsAfter(bars, buyBar.day)|)
            && (exit.Some? ==> |DaysBetween(bars, buyBar.day, exit.value.bar.value.day)| == SellAfter(signal))
            && (exit.Some? ==> exit.value.signal.quantity == Number(quantity as real))
  {
    var future := BarsAfter(DailyBars(feed, signal.symbol), buyBar.day);
    var days := SellAfter(signal);
    hide BarsAfter, SellAfter, DaysBetween, ScanDays, ControlledRows, SelectExit, Percent;
    if 1 <= days <= |future| {
      NthBarAfter(DailyBars(feed, signal.symbol), buyBar.day, days);
    }
  }
}
