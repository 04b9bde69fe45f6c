/**
 What one step of the trading store does: when it goes through, which rows it changes and that it changes no other
 (trading_repository.py over the constraints of database.py).
 */
module TradingSteps {
  import opened Options
  import opened TradingRuns
  import opened TradingStore

  /** The tables differ at most in this row. */
  ghost predicate OnlyAt<K(!new), V>(a: map<K, V>, b: map<K, V>, k: K) {
    forall x :: x != k ==> (x in a <==> x in b) && (x in a ==> a[x] == b[x])
  }

  ghost predicate SameTrading(a: Db, b: Db) {
    a.trades == b.trades && a.positions == b.positions && a.accounts == b.accounts
  }

  /** Storing the row would leave each key with at most one active order. */
  ghost predicate Fits(db: Db, order: OrderId, row: OrderRow) {
    OneActivePerKey(db.orders[order := row])
  }

  lemma FitsIff(db: Db, order: OrderId, row: OrderRow)
    requires OneActivePerKey(db.orders)
    ensures Fits(db, order, row) <==> !KeyTaken(db.orders, order, row)
  {
    if KeyTaken(db.orders, order, row) {
      var o :| o in db.orders && o != order && Active(db.orders[o].status) && db.orders[o].key == row.key;
      var after := db.orders[order := row];
      assert o in after && order in after && after[o].key == after[order].key;
    } else {
      PutKeepsOneActive(db.orders, order, row);
    }
  }

  /** An order is inserted exactly when its id is new and the active keys stay unique; only it is added. */
  lemma CreateOrderDoes(db: Db, order: OrderId, row: OrderRow)
    requires OneActivePerKey(db.orders)
    ensures var (after, r) := Apply(db, CreateOrder(order, row));
            && (r == Done <==> order !in db.orders && Fits(db, order, row))
            && (r != Done ==> r == ConstraintViolated && after == db)
            && (r == Done ==>
                  && after.orders == db.orders[order := row] && after.links == db.links
                  && after.signals == db.signals && SameTrading(db, after))
  {
    hide KeyTaken, OneActivePerKey, Fits;
    FitsIff(db, order, row);
  }

  /**
   A signal is ordered exactly when it is unprocessed and has no link row yet, and the order can be inserted. Then the
   order, one link row and the signal's state change together; otherwise nothing does.
   */
  lemma CreateSignalOrderDoes(db: Db, order: OrderId, row: OrderRow, signal: SignalId)
    requires Consistent(db)
    ensures var (after, r) := Apply(db, CreateSignalOrder(order, row, signal));
            && (r == NotFound <==> signal !in db.signals)
            && (r == NotUnprocessed <==> signal in db.signals && db.signals[signal].status != Unprocessed)
            && (r == Done <==>
                  && signal in db.signals && db.signals[signal].status == Unprocessed
                  && signal !in db.links && order !in db.orders && Fits(db, order, row))
            && (r != Done ==> after == db)
            && (r == Done ==>
                  && OnlyAt(db.signals, after.signals, signal) && signal in after.signals
                  && after.signals[signal] == SignalRow(Ordered, Some(order))
                  && OnlyAt(db.links, after.links, signal) && signal in after.links
                  && after.links[signal] == LinkRow(order, Placed)
                  && OnlyAt(db.orders, after.orders, order) && order in after.orders && after.orders[order] == row
                  && SameTrading(db, after))
  {
    hide KeyTaken, OneActivePerKey, Fits;
    FitsIff(db, order, row);
  }

  /** The link rows of the order take the status; orders and all other rows stay. */
  ghost predicate Relabelled(was: map<SignalId, LinkRow>, links: map<SignalId, LinkRow>, order: OrderId,
                             status: LinkStatus) {
    && links.Keys == was.Keys
    && forall s :: s in was ==>
         && links[s].order == was[s].order
         && links[s].status == if was[s].order == order then status else was[s].status
  }

  lemma RelabelDoes(links: map<SignalId, LinkRow>, order: OrderId, status: LinkStatus)
    ensures Relabelled(links, Relabel(links, order, status), order, status)
  {
  }

  lemma UpdateStatusDoes(db: Db, order: OrderId, status: OrderStatus, filled: Option<int>)
    requires OneActivePerKey(db.orders)
    ensures var (after, r) := Apply(db, UpdateStatus(order, status, filled));
            && (r == NotFound <==> order !in db.orders)
            && (order in db.orders ==>
                  var row := OrderRow(status, db.orders[order].key,
                      if filled.Some? then filled.value else db.orders[order].filled);
                  && (r == Done <==> Fits(db, order, row))
                  && (r == Done ==> after.orders == db.orders[order := row])
                  && (r != Done ==> r == ConstraintViolated && after == db))
            && (r != ConstraintViolated ==> Relabelled(db.links, after.links, order, Of(status)))
            && (r == NotFound ==> after.orders == db.orders)
            && after.signals == db.signals && SameTrading(db, after)
  {
    hide KeyTaken, OneActivePerKey, Fits, Relabel, Relabelled;
    RelabelDoes(db.links, order, Of(status));
    if order in db.orders {
      FitsIff(db, order, OrderRow(status, db.orders[order].key,
          if filled.Some? then filled.value else db.orders[order].filled));
    }
  }

  lemma UpdateSubmitDoes(db: Db, order: OrderId, status: OrderStatus)
    requires OneActivePerKey(db.orders)
    ensures var (after, r) := Apply(db, UpdateSubmit(order, status));
            && (r == NotFound <==> order !in db.orders)
            && (order in db.orders ==>
                  var row := OrderRow(status, db.orders[order].key, db.orders[order].filled);
                  && (r == Done <==> Fits(db, order, row))
                  && (r == Done ==> after.orders == db.orders[order := row]))
            && (r != Done ==> after == db)
            && after.signals == db.signals && after.links == db.links && SameTrading(db, after)
  {
    hide KeyTaken, OneActivePerKey, Fits;
    if order in db.orders {
      FitsIff(db, order, OrderRow(status, db.orders[order].key, db.orders[order].filled));
    }
  }

  /**
   The failed order's link row is labelled and its signal open again, still pointing to it. A signal or a link that
   belongs to another order is left alone.
   */
  lemma MarkFailedDoes(db: Db, signal: SignalId, order: OrderId)
    ensures var (after, r) := Apply(db, MarkFailed(signal, order));
            && r == Done && OnlyAt(db.links, after.links, signal) && OnlyAt(db.signals, after.signals, signal)
            && (signal in after.links <==> signal in db.links) && (signal in after.signals <==> signal in db.signals)
            && (signal in db.links ==>
                  after.links[signal] == if db.links[signal].order == order then LinkRow(order, Of(OrderFailed))
                                         else db.links[signal])
            && (signal in db.signals ==>
                  && after.signals[signal].order == db.signals[signal].order
                  && after.signals[signal].status ==
                       if db.signals[signal].order == Some(order) then Unprocessed else db.signals[signal].status)
            && after.orders == db.orders && SameTrading(db, after)
  {
  }

  /** Only an unprocessed signal becomes ignored. */
  lemma IgnoreDoes(db: Db, signal: SignalId)
    ensures var (after, r) := Apply(db, IgnoreSignal(signal));
            && (r == NotFound <==> signal !in db.signals) && (r == Done <==> signal in db.signals)
            && OnlyAt(db.signals, after.signals, signal)
            && (signal in after.signals <==> signal in db.signals)
            && (signal in db.signals ==>
                  && after.signals[signal].order == db.signals[signal].order
                  && after.signals[signal].status ==
                       if db.signals[signal].status == Unprocessed then Ignored else db.signals[signal].status)
            && after.orders == db.orders && after.links == db.links && SameTrading(db, after)
  {
  }

  lemma AddDoes(db: Db, signal: SignalId)
    ensures var (after, r) := Apply(db, AddSignal(signal));
            && (r == Done <==> signal !in db.signals) && (r != Done ==> r == ConstraintViolated && after == db)
            && OnlyAt(db.signals, after.signals, signal) && signal in after.signals
            && (r == Done ==> after.signals[signal] == SignalRow(Unprocessed, None))
            && after.orders == db.orders && after.links == db.links && SameTrading(db, after)
  {
  }

  /**
   A known trade changes nothing. A new one is stored, marks its order and the order's link rows as filled, with no
   less filled than before or than it traded, and touches no other order and no signal.
   */
  lemma TradeDoes(db: Db, t: Trade, now: Time)
    ensures var (after, r) := Apply(db, ApplyTrade(t, now));
            && (r == AlreadyApplied <==> t.id in db.trades) && (r == Done <==> t.id !in db.trades)
            && (r != Done ==> after == db)
            && (r == Done ==> after.trades == db.trades[t.id := t])
            && after.signals == db.signals && after.orders.Keys == db.orders.Keys
            && (r == Done && t.order.Some? ==>
                  && OnlyAt(db.orders, after.orders, t.order.value)
                  && Relabelled(db.links, after.links, t.order.value, Of(AllFilled))
                  && (t.order.value in db.orders ==>
                        var was, row := db.orders[t.order.value], after.orders[t.order.value];
                        && row.status == AllFilled && row.key == was.key
                        && row.filled == (if was.filled >= t.quantity then was.filled else t.quantity)))
            && (t.order.None? ==> after.orders == db.orders && after.links == db.links)
  {
    hide NextPosition, NextBalance, LatestPosition, LatestBalance, NewRow, Relabel, Relabelled;
    if t.order.Some? {
      RelabelDoes(db.links, t.order.value, Of(AllFilled));
    }
  }
}
