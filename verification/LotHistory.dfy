/** Where the lots of a run come from and in which order they leave (backtest_engine.py, Portfolio). */
module LotHistory {
  import opened AutoExit
  import opened Broker
  import opened BrokerRuns
  import opened Clock
  import opened Ledgers
  import opened Market
  import opened Rounding
  import opened Signals

  lemma FirstThenRest(lots: seq<Lot>, day: Day, quantity: nat)
    requires lots != []
    ensures var used := Used(lots[0], day, quantity);
            var rest := Consume(lots[1..], day, quantity - used);
            Consume(lots, day, quantity) ==
              Consumption(LeftOver(lots[0], used) + rest.lots, UsedCost(lots[0], used) + rest.cost, rest.remaining)
    ensures AvailableBefore(lots, day) ==
              (if lots[0].day < day then lots[0].quantity else 0) + AvailableBefore(lots[1..], day)
  {
  }

  lemma NothingInFront(back: seq<Lot>, day: Day, quantity: nat)
    ensures AvailableBefore([], day) == 0 && Consume([], day, quantity) == Consumption([], 0.0, quantity)
    ensures var c := Consume(back, day, quantity); Consumption([] + c.lots, 0.0 + c.cost, c.remaining) == c
  {
    hide UsedCost, LeftOver;
    var c := Consume(back, day, quantity);
    assert [] + c.lots == c.lots;
  }

  /** First in, first out: the lots in front give all that T+1 lets them before one behind gives anything. */
  lemma {:induction false} FrontFirst(front: seq<Lot>, back: seq<Lot>, day: Day, quantity: nat)
    ensures var first := Consume(front, day, quantity);
            var later := Consume(back, day, first.remaining);
            && first.remaining == Max(quantity - AvailableBefore(front, day), 0)
            && Consume(front + back, day, quantity) ==
                 Consumption(first.lots + later.lots, first.cost + later.cost, later.remaining)
  {
    hide UsedCost, LeftOver, Consume, AvailableBefore;
    if front == [] {
      NothingInFront(back, day, quantity);
      assert front + back == back;
    } else {
      var all := front + back;
      assert all[0] == front[0] && all[1..] == front[1..] + back;
      var used := Used(front[0], day, quantity);
      FirstThenRest(all, day, quantity);
      FirstThenRest(front, day, quantity);
      FrontFirst(front[1..], back, day, quantity - used);
      var middle := Consume(front[1..], day, quantity - used);
      Associative(LeftOver(front[0], used), middle.lots, Consume(back, day, middle.remaining).lots);
    }
  }

  // ---------------------------------------------------------------------------
  // Unit costs

  /** Cost of a share of a purchase, its fee included. */
  function PerShare(t: Trade): real {
    if t.quantity == 0 then 0.0 else (t.amount + t.fee) as real / t.quantity as real
  }

  predicate AtUnit(lot: Lot, unit: real) {
    lot.cost == unit * lot.quantity as real
  }

  /** A lot is what remains of some purchase: its day, no more than its shares, at its cost per share. */
  ghost predicate RemainsOf(lot: Lot, symbol: Symbol, t: Trade) {
    && t.symbol == symbol && t.side.BuySide? && t.day == lot.day && 0 < lot.quantity <= t.quantity
    && AtUnit(lot, PerShare(t))
  }

  ghost predicate LotsPriced(book: Ledger, trades: seq<Trade>) {
    forall symbol: Symbol, lot ::
      lot in book.Lots(symbol) ==> exists t :: t in trades && RemainsOf(lot, symbol, t)
  }

  lemma KeepsUnit(lot: Lot, left: nat, unit: real)
    requires lot.quantity > 0 && lot.cost == unit * lot.quantity as real
    ensures ShareOfCost(lot, left) == unit * left as real
  {
    var q, l := lot.quantity as real, left as real;
    assert unit * q * l / q == unit * l by {
      assert unit * q * l == unit * l * q;
    }
  }

  /** What the walk leaves of a lot has the lot's unit cost. */
  ghost predicate PartOf(part: Lot, lot: Lot) {
    && part.day == lot.day && 0 < part.quantity <= lot.quantity
    && forall unit: real :: AtUnit(lot, unit) ==> AtUnit(part, unit)
  }

  lemma LeftOverIsPart(lot: Lot, used: nat, part: Lot)
    requires used <= lot.quantity && part in LeftOver(lot, used)
    ensures PartOf(part, lot)
  {
    var left := lot.quantity - used;
    assert part == lot.(quantity := left, cost := ShareOfCost(lot, left));
    forall unit: real | AtUnit(lot, unit)
      ensures AtUnit(part, unit)
    {
      KeepsUnit(lot, left, unit);
    }
  }

  lemma {:induction false} ConsumeLeavesParts(lots: seq<Lot>, day: Day, quantity: int, part: Lot) returns (lot: Lot)
    requires part in Consume(lots, day, quantity).lots
    ensures lot in lots && PartOf(part, lot)
  {
    hide PartOf, UsedCost;
    var used := Used(lots[0], day, quantity);
    if part in LeftOver(lots[0], used) {
      lot := lots[0];
      LeftOverIsPart(lot, used, part);
    } else {
      lot := ConsumeLeavesParts(lots[1..], day, quantity - used, part);
    }
  }

  lemma PartRemains(part: Lot, lot: Lot, symbol: Symbol, t: Trade)
    requires PartOf(part, lot) && RemainsOf(lot, symbol, t)
    ensures RemainsOf(part, symbol, t)
  {
    hide PerShare, AtUnit;
  }

  lemma NewLotRemains(day: Day, quantity: nat, cost: int, symbol: Symbol, t: Trade)
    requires t.symbol == symbol && t.side.BuySide? && t.day == day && t.quantity == quantity > 0
    requires cost == t.amount + t.fee
    ensures RemainsOf(Lot(day, quantity, cost as real), symbol, t)
  {
    var q := quantity as real;
    assert cost as real / q * q == cost as real;
  }

  lemma SettledLots(task: Task, book: Ledger, trades: seq<Trade>, e: Event, v: Verdict)
    requires LotsPriced(book, trades) && SaneFill(task, book, e, v)
    ensures LotsPriced(SettledBook(book, e, v), trades + [SettledTrade(book, e, v)])
  {
    hide RemainsOf, Levied, ExactPnl, Amount, Consume;
    var t, after := SettledTrade(book, e, v), SettledBook(book, e, v);
    forall symbol: Symbol, lot | lot in after.Lots(symbol)
      ensures exists x :: x in trades + [t] && RemainsOf(lot, symbol, x)
    {
      if lot in book.Lots(symbol) {
        var x :| x in trades && RemainsOf(lot, symbol, x);
        assert x in trades + [t];
      } else if e.signal.action.Buy? {
        NewLotRemains(v.bar.day, v.quantity, Amount(v.price, v.quantity) + v.fee, symbol, t);
        assert t in trades + [t];
      } else {
        assert symbol == e.signal.symbol;
        var whole := ConsumeLeavesParts(book.Lots(symbol), v.bar.day, v.quantity, lot);
        var x :| x in trades && RemainsOf(whole, symbol, x);
        PartRemains(lot, whole, symbol, x);
        assert x in trades + [t];
      }
    }
  }

  /** In every reachable state each open lot is what remains of a purchase of the run, at its cost per share. */
  lemma {:induction false} LotsKeepTheirCost(task: Task, feed: Feed, signals: seq<Signal>, n: nat)
    ensures var s := After(task, feed, Start(task, signals), n);
            LotsPriced(s.book, s.trades)
  {
    hide Step, LotsPriced, Judge, SettledBook, SettledTrade, SaneFill;
    if n == 0 {
      NoLotsYet(task, signals);
    } else {
      LotsKeepTheirCost(task, feed, signals, n - 1);
      var before := After(task, feed, Start(task, signals), n - 1);
      if before.queue != [] && !before.crashed {
        var e := before.queue[0];
        StepBooks(task, feed, before);
        FillIsSane(task, feed, e, before.book);
        if Judge(task, feed, e, before.book).Fill? {
          SettledLots(task, before.book, before.trades, e, Judge(task, feed, e, before.book));
        }
      }
    }
  }

  lemma NoLotsYet(task: Task, signals: seq<Signal>)
    ensures LotsPriced(Start(task, signals).book, Start(task, signals).trades)
  {
    hide SortEvents;
  }
}
