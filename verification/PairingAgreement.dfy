/**
 Exactly when the metrics' plain first-in first-out pairing of sales with purchases is the ledger's pairing under T+1,
 for any list of trades and any run (backtest_engine.py, _average_holding_days against _consume_lots).
 */
module PairingAgreement {
  import opened AutoExit
  import opened Broker
  import opened BrokerRuns
  import opened Holding
  import opened HoldingAgreement
  import opened Ledgers
  import opened Market
  import opened Signals

  // ---------------------------------------------------------------------------
  // 1. Trade lists

  /** Every sale fits into the leading shares of its stock at that point of the list. */
  function AllLed(trades: seq<Trade>): bool {
    if trades == [] then true
    else
      var front, t := trades[..|trades| - 1], trades[|trades| - 1];
      AllLed(front) && (t.side.SellSide? ==> t.quantity <= Leading(PairAll(front, true).Parcels(t.symbol), t.day))
  }

  /** Every trade is for some shares, and every sale is one that T+1 allows. */
  function Served(trades: seq<Trade>): bool {
    if trades == [] then true
    else
      var front, t := trades[..|trades| - 1], trades[|trades| - 1];
      && Served(front) && t.quantity > 0
      && (t.side.SellSide? ==> t.quantity <= SharesBefore(PairAll(front, true).Parcels(t.symbol), t.day))
  }

  lemma {:induction false} LeftPositive(parcels: seq<Parcel>, before: int, quantity: int)
    requires Positive(parcels)
    ensures Positive(Take(parcels, before, quantity).left)
  {
    if parcels != [] {
      LeftPositive(parcels[1..], before, quantity - TakenFrom(parcels[0], before, quantity));
    }
  }

  lemma {:induction false} PairingPositive(trades: seq<Trade>, symbol: Symbol)
    requires Served(trades)
    ensures Positive(PairAll(trades, true).Parcels(symbol))
  {
    if trades != [] {
      var front, t := trades[..|trades| - 1], trades[|trades| - 1];
      PairingPositive(front, symbol);
      if t.symbol == symbol && t.side.SellSide? {
        LeftPositive(PairAll(front, true).Parcels(symbol), t.day, t.quantity);
      }
    }
  }

  /** Under T+1 every pair was bought on an earlier day than it was sold. */
  lemma {:induction false} PairsInTime(trades: seq<Trade>)
    ensures forall x :: x in PairAll(trades, true).pairs ==> x.bought < x.sold
  {
    if trades != [] {
      var front, t := trades[..|trades| - 1], trades[|trades| - 1];
      PairsInTime(front);
      if t.side.SellSide? {
        TakeIsTPlusOne(PairAll(front, true).Parcels(t.symbol), t.day, t.quantity);
      }
    }
  }

  ghost predicate PairsFromTheFuture(p: Pairing) {
    exists x :: x in p.pairs && x.bought >= x.sold
  }

  lemma PairsStay(p: Pairing, t: Trade, tPlusOne: bool)
    requires PairsFromTheFuture(p)
    ensures PairsFromTheFuture(PairTrade(p, t, tPlusOne))
  {
    var x :| x in p.pairs && x.bought >= x.sold;
    assert x in PairTrade(p, t, tPlusOne).pairs;
  }

  lemma SaleFromTheFuture(p: Pairing, t: Trade)
    requires t.side.SellSide? && Positive(p.Parcels(t.symbol))
    requires Leading(p.Parcels(t.symbol), t.day) < t.quantity <= SharesBefore(p.Parcels(t.symbol), t.day)
    ensures PairsFromTheFuture(PairTrade(p, t, false))
  {
    var parcels := p.Parcels(t.symbol);
    var taken := Take(parcels, NO_LIMIT, t.quantity);
    BeyondLeading(parcels, t.day, t.quantity);
    hide Take;
    var m :| m in taken.matches && m.day >= t.day;
    var i :| 0 <= i < |taken.matches| && taken.matches[i] == m;
    var x := Tag(t.symbol, t.day, taken.matches)[i];
    assert x in PairTrade(p, t, false).pairs;
  }

  /**
   The two pairings of a list are one iff every sale fits; otherwise the metrics pair a sale with a later purchase.
   */
  lemma {:induction false} PairingsAgreeIff(trades: seq<Trade>)
    requires Served(trades)
    ensures AllLed(trades) <==> PairAll(trades, false) == PairAll(trades, true)
    ensures AllLed(trades) <==> !PairsFromTheFuture(PairAll(trades, false))
  {
    PairsInTime(trades);
    if trades != [] {
      var front, t := trades[..|trades| - 1], trades[|trades| - 1];
      PairingsAgreeIff(front);
      var p := PairAll(front, false);
      hide Leading, Take, PairsFromTheFuture;
      if !AllLed(front) {
        PairsStay(p, t, false);
      } else if t.side.SellSide? {
        PairingPositive(front, t.symbol);
        if t.quantity <= Leading(p.Parcels(t.symbol), t.day) {
          LeadingServesAlike(p.Parcels(t.symbol), t.day, t.quantity);
        } else {
          SaleFromTheFuture(p, t);
        }
      }
      FutureOrNot(trades);
    }
  }

  lemma FutureOrNot(trades: seq<Trade>)
    ensures !PairsFromTheFuture(PairAll(trades, true))
  {
    PairsInTime(trades);
  }

  // ---------------------------------------------------------------------------
  // 2. Runs

  lemma StepServed(task: Task, feed: Feed, s: Run)
    requires LedgerPairing(s.book, s.trades) && Served(s.trades) && s.queue != [] && !s.crashed
    ensures var next := Step(task, feed, s); LedgerPairing(next.book, next.trades) && Served(next.trades)
  {
    hide Judge, SettledTrade, SettledBook, SettledExit, SortEvents, LedgerPairing, Served;
    var e := s.queue[0];
    var v := Judge(task, feed, e, s.book);
    FillIsSane(task, feed, e, s.book);
    if v.Fill? {
      SettlePairing(task, s.book, s.trades, e, v);
      SettleServed(task, s.book, s.trades, e, v);
    }
  }

  lemma SettleServed(task: Task, book: Ledger, trades: seq<Trade>, e: Event, v: Verdict)
    requires LedgerPairing(book, trades) && Served(trades) && SaneFill(task, book, e, v)
    ensures Served(trades + [SettledTrade(book, e, v)])
  {
    hide Consume, ExactPnl, Amount, AvailableBefore;
    var t := SettledTrade(book, e, v);
    assert (trades + [t])[..|trades|] == trades;
    if e.signal.action.Sell? {
      AvailableIsShares(book.Lots(t.symbol), v.bar.day);
    }
  }

  lemma NothingServed()
    ensures Served([])
  {
  }

  /**
   In every run, daily or not: pairing under T+1 leaves the ledger's own lots, covers every share sold, and pairs each
   with a strictly earlier purchase; and no sale exceeds what T+1 allows.
   */
  lemma {:induction false} RunPairsAsTheLedger(task: Task, feed: Feed, signals: seq<Signal>, n: nat)
    ensures var s := After(task, feed, Start(task, signals), n); LedgerPairing(s.book, s.trades) && Served(s.trades)
  {
    hide Step, Served;
    if n == 0 {
      NothingServed();
    } else {
      RunPairsAsTheLedger(task, feed, signals, n - 1);
      var before := After(task, feed, Start(task, signals), n - 1);
      hide LedgerPairing;
      if before.queue != [] && !before.crashed {
        StepServed(task, feed, before);
      }
    }
  }

  /**
   In every run the metrics' pairing is the ledger's iff each sale fits into the leading shares of its stock, that is,
   never reaches past a lot that T+1 holds back. Every daily run of dated signals meets this.
   */
  lemma MetricsPairAsTheLedger(task: Task, feed: Feed, signals: seq<Signal>, n: nat)
    ensures var s := After(task, feed, Start(task, signals), n);
            && (PairAll(s.trades, false) == PairAll(s.trades, true) <==> AllLed(s.trades))
            && (PairsFromTheFuture(PairAll(s.trades, false)) <==> !AllLed(s.trades))
            && (Dated(signals) && DailyWorld(task, feed) ==> AllLed(s.trades))
  {
    hide After, Start, DailyWorld, AllLed, Served, LedgerPairing, Agenda, OnBarDays;
    RunPairsAsTheLedger(task, feed, signals, n);
    PairingsAgreeIff(After(task, feed, Start(task, signals), n).trades);
    if Dated(signals) && DailyWorld(task, feed) {
      DailyAlways(task, feed, signals, n);
    }
  }
}
