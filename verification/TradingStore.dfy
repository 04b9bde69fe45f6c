/**
 The order, signal and trade store (trading_repository.py over the tables and constraints of database.py).
 Each method is one transaction: its statements run in order, and a violated constraint rolls all of them back.
 */
module TradingStore {
  import opened Options
  import opened Rounding

  type SignalId = nat
  type OrderId = string
  type IdemKey = string
  type TradeId = string
  type AccountId = string
  type Symbol = string
  /** Snapshot times, in text order. */
  type Time = nat

  // ---------------------------------------------------------------------------
  // Tables

  datatype SignalStatus = Unprocessed | Ordered | Ignored | Expired
  datatype OrderStatus =
    | ToSubmit | Submitted | Reported | PartFilled | AllFilled | Cancelled | Rejected | OrderFailed | ToSync
  datatype LinkStatus = Placed | Of(status: OrderStatus)

  datatype SignalRow = SignalRow(status: SignalStatus, order: Option<OrderId>)
  datatype OrderRow = OrderRow(status: OrderStatus, key: Option<IdemKey>, filled: int)
  /** signal_order: unique per signal (the map's key) and per order. */
  datatype LinkRow = LinkRow(order: OrderId, status: LinkStatus)

  /** Prices in 0.0001 yuan, money in cents. */
  datatype Position = Position(quantity: int, available: int, cost: int, last: int, market: int, pnl: int)
  datatype PositionKey = PositionKey(account: AccountId, symbol: Symbol, time: Time)
  datatype Balance = Balance(total: int, cash: int, frozen: int, market: int, todayPnl: int)
  datatype AccountRow = AccountRow(account: AccountId, time: Time, balance: Balance)

  datatype Trade = Trade(id: TradeId, order: Option<OrderId>, account: AccountId, symbol: Symbol, buy: bool,
                         price: int, quantity: int, amount: int, fee: int)

  /** Account snapshots are in the order of their ids. */
  datatype Db = Db(signals: map<SignalId, SignalRow>, orders: map<OrderId, OrderRow>, links: map<SignalId, LinkRow>,
                   trades: map<TradeId, Trade>, positions: map<PositionKey, Position>, accounts: seq<AccountRow>)

  datatype Outcome = Done | NotFound | NotUnprocessed | ConstraintViolated | AlreadyApplied

  /** On its way; the other states are final, or to be cleared up. */
  predicate Active(status: OrderStatus): (active: bool)
    ensures !active <==>
              status.AllFilled? || status.Cancelled? || status.Rejected? || status.OrderFailed? || status.ToSync?
  {
    status.ToSubmit? || status.Submitted? || status.Reported? || status.PartFilled?
  }

  // ---------------------------------------------------------------------------
  // Constraints

  /** idx_order_record_active_idempotency: another active order holds the key. */
  predicate KeyTaken(orders: map<OrderId, OrderRow>, order: OrderId, row: OrderRow) {
    Active(row.status) && row.key.Some? &&
    exists o :: o in orders && o != order && Active(orders[o].status) && orders[o].key == row.key
  }

  predicate CanInsertOrder(orders: map<OrderId, OrderRow>, order: OrderId, row: OrderRow) {
    order !in orders && !KeyTaken(orders, order, row)
  }

  predicate CanInsertLink(links: map<SignalId, LinkRow>, signal: SignalId, order: OrderId) {
    signal !in links && forall s :: s in links ==> links[s].order != order
  }

  // ---------------------------------------------------------------------------
  // Order and signal steps

  function CreateOrderOf(db: Db, order: OrderId, row: OrderRow): (Db, Outcome) {
    if CanInsertOrder(db.orders, order, row) then (db.(orders := db.orders[order := row]), Done)
    else (db, ConstraintViolated)
  }

  function CreateSignalOrderOf(db: Db, order: OrderId, row: OrderRow, signal: SignalId): (Db, Outcome) {
    if signal !in db.signals then (db, NotFound)
    else if db.signals[signal].status != Unprocessed then (db, NotUnprocessed)
    else if !CanInsertOrder(db.orders, order, row) || !CanInsertLink(db.links, signal, order) then
      (db, ConstraintViolated)
    else
      (db.(orders := db.orders[order := row], links := db.links[signal := LinkRow(order, Placed)],
           signals := db.signals[signal := SignalRow(Ordered, Some(order))]), Done)
  }

  /** The signal_order rows of an order take its status. */
  function Relabel(links: map<SignalId, LinkRow>, order: OrderId, status: LinkStatus): map<SignalId, LinkRow> {
    map s | s in links :: if links[s].order == order then LinkRow(order, status) else links[s]
  }

  /** The update goes through and is committed even for an unknown order; only reading it back fails. */
  function UpdateOrderStatusOf(db: Db, order: OrderId, status: OrderStatus, filled: Option<int>): (Db, Outcome) {
    if order !in db.orders then (db.(links := Relabel(db.links, order, Of(status))), NotFound)
    else
      var quantity := if filled.Some? then filled.value else db.orders[order].filled;
      var row := db.orders[order].(status := status, filled := quantity);
      if KeyTaken(db.orders, order, row) then (db, ConstraintViolated)
      else (db.(orders := db.orders[order := row], links := Relabel(db.links, order, Of(status))), Done)
  }

  function UpdateOrderSubmitOf(db: Db, order: OrderId, status: OrderStatus): (Db, Outcome) {
    if order !in db.orders then (db, NotFound)
    else
      var row := db.orders[order].(status := status);
      if KeyTaken(db.orders, order, row) then (db, ConstraintViolated)
      else (db.(orders := db.orders[order := row]), Done)
  }

  /** The link row stays; only its status changes. The signal is open again if it points to that order. */
  function MarkFailedOf(db: Db, signal: SignalId, order: OrderId): (Db, Outcome) {
    var links := if signal in db.links && db.links[signal].order == order
                 then db.links[signal := LinkRow(order, Of(OrderFailed))] else db.links;
    var signals := if signal in db.signals && db.signals[signal].order == Some(order)
                   then db.signals[signal := db.signals[signal].(status := Unprocessed)] else db.signals;
    (db.(links := links, signals := signals), Done)
  }

  function IgnoreSignalOf(db: Db, signal: SignalId): (Db, Outcome) {
    if signal !in db.signals then (db, NotFound)
    else if db.signals[signal].status == Unprocessed then
      (db.(signals := db.signals[signal := db.signals[signal].(status := Ignored)]), Done)
    else (db, Done)
  }

  /** Strategy runs insert new signals unprocessed and without an order. */
  function AddSignalOf(db: Db, signal: SignalId): (Db, Outcome) {
    if signal in db.signals then (db, ConstraintViolated)
    else (db.(signals := db.signals[signal := SignalRow(Unprocessed, None)]), Done)
  }

  // ---------------------------------------------------------------------------
  // Trade effects

  function TimesOf(positions: map<PositionKey, Position>, account: AccountId, symbol: Symbol): set<Time> {
    set k | k in positions && k.account == account && k.symbol == symbol :: k.time
  }

  function Latest(times: set<Time>): (t: Time)
    requires times != {}
    ensures t in times && forall x :: x in times ==> x <= t
  {
    LatestExists(times);
    assert exists t :: IsGreatest(t, times);
    var t :| t in times && forall x :: x in times ==> x <= t;
    t
  }

  ghost predicate IsGreatest(t: Time, times: set<Time>) {
    t in times && forall x :: x in times ==> x <= t
  }

  lemma {:induction false} LatestExists(times: set<Time>)
    requires times != {}
    ensures exists t :: IsGreatest(t, times)
  {
    var t :| t in times;
    var others := times - {t};
    assert forall x :: x in times ==> x == t || x in others;
    if others == {} {
      assert IsGreatest(t, times);
    } else {
      LatestExists(others);
      var u :| IsGreatest(u, others);
      assert IsGreatest(if t >= u then t else u, times);
    }
  }

  /** ORDER BY snapshot_time DESC LIMIT 1; the key is unique per time. */
  function LatestPosition(positions: map<PositionKey, Position>, account: AccountId, symbol: Symbol): Option<Position> {
    var times := TimesOf(positions, account, symbol);
    if times == {} then None
    else
      var t := Latest(times);
      Some(positions[PositionKey(account, symbol, t)])
  }

  /** ORDER BY snapshot_time DESC, id DESC LIMIT 1 */
  function LatestRow(rows: seq<AccountRow>, account: AccountId): Option<AccountRow> {
    if rows == [] then None
    else
      var last, earlier := rows[|rows| - 1], LatestRow(rows[..|rows| - 1], account);
      if last.account == account && (earlier.Some? ==> earlier.value.time <= last.time) then Some(last) else earlier
  }

  function LatestBalance(rows: seq<AccountRow>, account: AccountId): Option<Balance> {
    var r := LatestRow(rows, account);
    if r.Some? then Some(r.value.balance) else None
  }

  /** Cents for a quantity at a price in 0.0001 yuan. */
  function Value(quantity: int, price: int): int {
    Round((quantity * price) as real / 100.0)
  }

  /** Average cost per share after a purchase, before rounding. */
  function BlendedCost(cost: int, quantity: int, spent: int, total: int): real
    requires total != 0
  {
    (cost * quantity + spent * 100) as real / total as real
  }

  /** Average cost per share after a trade that leaves `held` shares, before rounding. */
  function UnitCost(was: Option<Position>, t: Trade, held: int): real {
    var quantity := if was.Some? then was.value.quantity else 0;
    var cost := if was.Some? then was.value.cost else t.price;
    if held == 0 then t.price as real
    else if t.buy then BlendedCost(cost, quantity, t.amount + t.fee, held)
    else cost as real
  }

  /** Cents gained on shares of a unit cost at a last price. */
  function OpenProfit(last: int, unit: real, held: int): real {
    (last as real - unit) * held as real / 100.0
  }

  function NextPosition(was: Option<Position>, t: Trade): Position {
    var quantity := if was.Some? then was.value.quantity else 0;
    var available := if was.Some? then was.value.available else 0;
    var held := if t.buy then quantity + t.quantity else Max(quantity - t.quantity, 0);
    var sellable := if t.buy then available else Max(available - t.quantity, 0);
    var unit := UnitCost(was, t, held);
    var last := if t.price != 0 then t.price else if was.Some? then was.value.last else t.price;
    Position(held, sellable, Round(unit), last, Value(held, last), Round(OpenProfit(last, unit, held)))
  }

  function OldMarket(was: Option<Position>): int {
    if was.Some? then was.value.market else 0
  }

  function NextBalance(b: Balance, was: Option<Position>, t: Trade): Balance {
    var cash := b.cash + (if t.buy then -(t.amount + t.fee) else t.amount - t.fee);
    var market := b.market - OldMarket(was) + NextPosition(was, t).market;
    Balance(cash + b.frozen + market, cash, b.frozen, market, b.todayPnl)
  }

  function FilledRow(row: OrderRow, quantity: int): OrderRow {
    row.(status := AllFilled, filled := Max(row.filled, quantity))
  }

  function FillOrder(db: Db, t: Trade): Db {
    if t.order.None? then db
    else
      var o := t.order.value;
      db.(orders := if o in db.orders then db.orders[o := FilledRow(db.orders[o], t.quantity)] else db.orders,
          links := Relabel(db.links, o, Of(AllFilled)))
  }

  /** The row written for an account that is known. */
  function NewRow(balance: Option<Balance>, was: Option<Position>, t: Trade, now: Time): seq<AccountRow> {
    if balance.Some? then [AccountRow(t.account, now, NextBalance(balance.value, was, t))] else []
  }

  function ApplyTradeOf(db: Db, t: Trade, now: Time): (Db, Outcome) {
    if t.id in db.trades then (db, AlreadyApplied)
    else
      var was := LatestPosition(db.positions, t.account, t.symbol);
      var balance := LatestBalance(db.accounts, t.account);
      var filled := FillOrder(db, t);
      (filled.(trades := db.trades[t.id := t],
               positions := db.positions[PositionKey(t.account, t.symbol, now) := NextPosition(was, t)],
               accounts := db.accounts + NewRow(balance, was, t, now)), Done)
  }

  // ---------------------------------------------------------------------------

  class Store {
    var signals: map<SignalId, SignalRow>
    var orders: map<OrderId, OrderRow>
    var links: map<SignalId, LinkRow>
    var trades: map<TradeId, Trade>
    var positions: map<PositionKey, Position>
    var accounts: seq<AccountRow>

    function Contents(): Db
      reads this
    {
      Db(signals, orders, links, trades, positions, accounts)
    }

    constructor (db: Db)
      ensures Contents() == db
    {
      signals, orders, links := db.signals, db.orders, db.links;
      trades, positions, accounts := db.trades, db.positions, db.accounts;
    }

    method InsertOrder(order: OrderId, row: OrderRow) returns (ok: bool)
      modifies `orders
      ensures ok == CanInsertOrder(old(orders), order, row)
      ensures orders == if ok then old(orders)[order := row] else old(orders)
    {
      ok := CanInsertOrder(orders, order, row);
      if ok {
        orders := orders[order := row];
      }
    }

    method CreateOrder(order: OrderId, row: OrderRow) returns (r: Outcome)
      modifies this
      ensures (Contents(), r) == CreateOrderOf(old(Contents()), order, row)
    {
      var ok := InsertOrder(order, row);
      r := if ok then Done else ConstraintViolated;
    }

    /** Three statements, one transaction: the order goes again if the link cannot be inserted. */
    method CreateSignalOrder(order: OrderId, row: OrderRow, signal: SignalId) returns (r: Outcome)
      modifies this
      ensures (Contents(), r) == CreateSignalOrderOf(old(Contents()), order, row, signal)
    {
      if signal !in signals {
        return NotFound;
      }
      if signals[signal].status != Unprocessed {
        return NotUnprocessed;
      }
      var saved := orders;
      var ok := InsertOrder(order, row);
      if !ok {
        return ConstraintViolated;
      }
      if !CanInsertLink(links, signal, order) {
        orders := saved;
        return ConstraintViolated;
      }
      links := links[signal := LinkRow(order, Placed)];
      signals := signals[signal := SignalRow(Ordered, Some(order))];
      r := Done;
    }

    method UpdateOrderStatus(order: OrderId, status: OrderStatus, filled: Option<int>) returns (r: Outcome)
      modifies this
      ensures (Contents(), r) == UpdateOrderStatusOf(old(Contents()), order, status, filled)
    {
      if order in orders {
        var quantity := if filled.Some? then filled.value else orders[order].filled;
        var row := orders[order].(status := status, filled := quantity);
        if KeyTaken(orders, order, row) {
          return ConstraintViolated;
        }
        orders := orders[order := row];
      }
      links := Relabel(links, order, Of(status));
      r := if order in orders then Done else NotFound;
    }

    method UpdateOrderSubmit(order: OrderId, status: OrderStatus) returns (r: Outcome)
      modifies this
      ensures (Contents(), r) == UpdateOrderSubmitOf(old(Contents()), order, status)
    {
      if order !in orders {
        return NotFound;
      }
      var row := orders[order].(status := status);
      if KeyTaken(orders, order, row) {
        return ConstraintViolated;
      }
      orders := orders[order := row];
      r := Done;
    }

    method MarkSignalOrderFailed(signal: SignalId, order: OrderId) returns (r: Outcome)
      modifies this
      ensures (Contents(), r) == MarkFailedOf(old(Contents()), signal, order)
    {
      if signal in links && links[signal].order == order {
        links := links[signal := LinkRow(order, Of(OrderFailed))];
      }
      if signal in signals && signals[signal].order == Some(order) {
        signals := signals[signal := signals[signal].(status := Unprocessed)];
      }
      r := Done;
    }

    method IgnoreSignal(signal: SignalId) returns (r: Outcome)
      modifies this
      ensures (Contents(), r) == IgnoreSignalOf(old(Contents()), signal)
    {
      if signal in signals && signals[signal].status == Unprocessed {
        signals := signals[signal := signals[signal].(status := Ignored)];
      }
      r := if signal in signals then Done else NotFound;
    }

    method AddSignal(signal: SignalId) returns (r: Outcome)
      modifies this
      ensures (Contents(), r) == AddSignalOf(old(Contents()), signal)
    {
      if signal in signals {
        return ConstraintViolated;
      }
      signals := signals[signal := SignalRow(Unprocessed, None)];
      r := Done;
    }

    method UpsertTradeAndApplyEffect(t: Trade, now: Time) returns (r: Outcome)
      modifies this
      ensures (Contents(), r) == ApplyTradeOf(old(Contents()), t, now)
    {
      if t.id in trades {
        return AlreadyApplied;
      }
      trades := trades[t.id := t];
      if t.order.Some? {
        var o := t.order.value;
        if o in orders {
          orders := orders[o := orders[o].(status := AllFilled, filled := Max(orders[o].filled, t.quantity))];
        }
        links := Relabel(links, o, Of(AllFilled));
      }
      ApplyPositionAndAccountSnapshot(t, now);
      r := Done;
    }

    method ApplyPositionAndAccountSnapshot(t: Trade, now: Time)
      modifies `positions, `accounts
      ensures var was := LatestPosition(old(positions), t.account, t.symbol);
              var balance := LatestBalance(old(accounts), t.account);
              && positions == old(positions)[PositionKey(t.account, t.symbol, now) := NextPosition(was, t)]
              && accounts == old(accounts) + NewRow(balance, was, t, now)
    {
      hide NextPosition, NextBalance, LatestPosition, LatestBalance;
      var balance := LatestBalance(accounts, t.account);
      var position := LatestPosition(positions, t.account, t.symbol);
      positions := positions[PositionKey(t.account, t.symbol, now) := NextPosition(position, t)];
      if balance.Some? {
        accounts := accounts + [AccountRow(t.account, now, NextBalance(balance.value, position, t))];
      }
    }
  }
}
