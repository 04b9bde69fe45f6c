/** What every sequence of store steps keeps, and that repeated trades take effect once. */
module TradingRuns {
  import opened Options
  import opened Rounding
  import opened Sums
  import opened TradingStore

  datatype Op =
    | CreateOrder(order: OrderId, row: OrderRow)
    | CreateSignalOrder(order: OrderId, row: OrderRow, signal: SignalId)
    | UpdateStatus(order: OrderId, status: OrderStatus, filled: Option<int>)
    | UpdateSubmit(order: OrderId, status: OrderStatus)
    | MarkFailed(signal: SignalId, order: OrderId)
    | IgnoreSignal(signal: SignalId)
    | AddSignal(signal: SignalId)
    | ApplyTrade(trade: Trade, now: Time)

  function Apply(db: Db, op: Op): (Db, Outcome) {
    match op
    case CreateOrder(order, row) => CreateOrderOf(db, order, row)
    case CreateSignalOrder(order, row, signal) => CreateSignalOrderOf(db, order, row, signal)
    case UpdateStatus(order, status, filled) => UpdateOrderStatusOf(db, order, status, filled)
    case UpdateSubmit(order, status) => UpdateOrderSubmitOf(db, order, status)
    case MarkFailed(signal, order) => MarkFailedOf(db, signal, order)
    case IgnoreSignal(signal) => IgnoreSignalOf(db, signal)
    case AddSignal(signal) => AddSignalOf(db, signal)
    case ApplyTrade(trade, now) => ApplyTradeOf(db, trade, now)
  }

  function RunOps(db: Db, ops: seq<Op>): Db {
    if ops == [] then db else Apply(RunOps(db, ops[..|ops| - 1]), ops[|ops| - 1]).0
  }

  // ---------------------------------------------------------------------------
  // 1. Signals, orders and their links

  ghost predicate OrderedSignalsLinked(db: Db) {
    forall s :: s in db.signals && db.signals[s].status == Ordered ==>
      && db.signals[s].order.Some? && db.signals[s].order.value in db.orders
      && s in db.links && db.links[s].order == db.signals[s].order.value
  }

  ghost predicate LinksSound(db: Db) {
    && (forall s :: s in db.links ==> db.links[s].order in db.orders)
    && (forall s, t :: s in db.links && t in db.links && s != t ==> db.links[s].order != db.links[t].order)
  }

  ghost predicate OneActivePerKey(orders: map<OrderId, OrderRow>) {
    forall o, p ::
      o in orders && p in orders && o != p && Active(orders[o].status) && Active(orders[p].status) ==>
        orders[o].key.Some? ==> orders[o].key != orders[p].key
  }

  ghost predicate Consistent(db: Db) {
    OrderedSignalsLinked(db) && LinksSound(db) && OneActivePerKey(db.orders)
  }

  lemma PutKeepsOneActive(orders: map<OrderId, OrderRow>, order: OrderId, row: OrderRow)
    requires OneActivePerKey(orders) && !KeyTaken(orders, order, row)
    ensures OneActivePerKey(orders[order := row])
  {
  }

  lemma FillKeepsConsistent(db: Db, t: Trade)
    requires Consistent(db)
    ensures Consistent(FillOrder(db, t))
  {
    if t.order.Some? {
      var o := t.order.value;
      hide Consistent;
      RelabelConsistent(db, o, Of(AllFilled));
      if o in db.orders {
        var row := db.orders[o].(status := AllFilled, filled := Max(db.orders[o].filled, t.quantity));
        PutConsistent(db, o, row);
        RelabelConsistent(db.(orders := db.orders[o := row]), o, Of(AllFilled));
      }
    }
  }

  /** Storing an order that violates no constraint, with relabelled links or not. */
  lemma PutConsistent(db: Db, order: OrderId, row: OrderRow)
    requires Consistent(db) && !KeyTaken(db.orders, order, row)
    ensures Consistent(db.(orders := db.orders[order := row]))
  {
    PutKeepsOneActive(db.orders, order, row);
    hide KeyTaken, OneActivePerKey;
  }

  lemma RelabelConsistent(db: Db, order: OrderId, status: LinkStatus)
    requires Consistent(db)
    ensures Consistent(db.(links := Relabel(db.links, order, status)))
  {
    hide OneActivePerKey;
  }

  lemma LinkConsistent(db: Db, order: OrderId, signal: SignalId)
    requires Consistent(db) && order in db.orders && CanInsertLink(db.links, signal, order)
    ensures Consistent(db.(links := db.links[signal := LinkRow(order, Placed)],
                           signals := db.signals[signal := SignalRow(Ordered, Some(order))]))
  {
    hide OneActivePerKey;
  }

  lemma OrderSignalConsistent(db: Db, order: OrderId, row: OrderRow, signal: SignalId)
    requires Consistent(db)
    ensures Consistent(CreateSignalOrderOf(db, order, row, signal).0)
  {
    hide Consistent, KeyTaken, CanInsertLink;
    if CanInsertOrder(db.orders, order, row) {
      PutConsistent(db, order, row);
      if CanInsertLink(db.links, signal, order) {
        LinkConsistent(db.(orders := db.orders[order := row]), order, signal);
      }
    }
  }

  lemma MarkFailedConsistent(db: Db, signal: SignalId, order: OrderId)
    requires Consistent(db)
    ensures Consistent(MarkFailedOf(db, signal, order).0)
  {
    hide OneActivePerKey;
  }

  lemma UpdateStatusConsistent(db: Db, order: OrderId, status: OrderStatus, filled: Option<int>)
    requires Consistent(db)
    ensures Consistent(UpdateOrderStatusOf(db, order, status, filled).0)
  {
    hide Consistent, KeyTaken, Relabel;
    RelabelConsistent(db, order, Of(status));
    if order in db.orders {
      var quantity := if filled.Some? then filled.value else db.orders[order].filled;
      var row := db.orders[order].(status := status, filled := quantity);
      if !KeyTaken(db.orders, order, row) {
        PutConsistent(db, order, row);
        RelabelConsistent(db.(orders := db.orders[order := row]), order, Of(status));
      }
    }
  }

  lemma IgnoreConsistent(db: Db, signal: SignalId)
    requires Consistent(db)
    ensures Consistent(IgnoreSignalOf(db, signal).0)
  {
    hide OneActivePerKey;
  }

  lemma AddConsistent(db: Db, signal: SignalId)
    requires Consistent(db)
    ensures Consistent(AddSignalOf(db, signal).0)
  {
    hide OneActivePerKey;
  }

  lemma SubmitConsistent(db: Db, order: OrderId, status: OrderStatus)
    requires Consistent(db)
    ensures Consistent(UpdateOrderSubmitOf(db, order, status).0)
  {
    hide Consistent, KeyTaken;
    if order in db.orders && !KeyTaken(db.orders, order, db.orders[order].(status := status)) {
      PutConsistent(db, order, db.orders[order].(status := status));
    }
  }

  /** Trades, positions and accounts are not what consistency speaks of. */
  lemma SameTables(a: Db, b: Db)
    requires Consistent(a) && a.signals == b.signals && a.orders == b.orders && a.links == b.links
    ensures Consistent(b)
  {
    hide OneActivePerKey;
  }

  lemma TradeConsistent(db: Db, t: Trade, now: Time)
    requires Consistent(db)
    ensures Consistent(ApplyTradeOf(db, t, now).0)
  {
    hide NextPosition, NextBalance, LatestPosition, LatestBalance, FillOrder, Consistent;
    FillKeepsConsistent(db, t);
    FillTouchesOrdersOnly(db, t);
    if t.id !in db.trades {
      SameTables(FillOrder(db, t), ApplyTradeOf(db, t, now).0);
    }
  }

  lemma CreateConsistent(db: Db, order: OrderId, row: OrderRow)
    requires Consistent(db)
    ensures Consistent(CreateOrderOf(db, order, row).0)
  {
    hide Consistent, KeyTaken;
    if CanInsertOrder(db.orders, order, row) {
      PutConsistent(db, order, row);
    }
  }

  lemma StepConsistent(db: Db, op: Op)
    requires Consistent(db)
    ensures Consistent(Apply(db, op).0)
  {
    hide Consistent, CreateOrderOf, CreateSignalOrderOf, UpdateOrderStatusOf, UpdateOrderSubmitOf, MarkFailedOf,
      IgnoreSignalOf, AddSignalOf, ApplyTradeOf;
    match op {
      case CreateOrder(order, row) => CreateConsistent(db, order, row);
      case CreateSignalOrder(order, row, signal) => OrderSignalConsistent(db, order, row, signal);
      case UpdateStatus(order, status, filled) => UpdateStatusConsistent(db, order, status, filled);
      case UpdateSubmit(order, status) => SubmitConsistent(db, order, status);
      case MarkFailed(signal, order) => MarkFailedConsistent(db, signal, order);
      case IgnoreSignal(signal) => IgnoreConsistent(db, signal);
      case AddSignal(signal) => AddConsistent(db, signal);
      case ApplyTrade(trade, now) => TradeConsistent(db, trade, now);
    }
  }

  lemma FillTouchesOrdersOnly(db: Db, t: Trade)
    ensures var f := FillOrder(db, t);
            f.signals == db.signals && f.trades == db.trades && f.positions == db.positions && f.accounts == db.accounts
            && f.links.Keys == db.links.Keys
  {
  }

  /**
   Whatever steps are taken: ordered signals point to an existing order through their link row, and no key has two
   active orders.
   */
  lemma {:induction false} AlwaysConsistent(db: Db, ops: seq<Op>)
    requires Consistent(db)
    ensures Consistent(RunOps(db, ops))
  {
    hide Apply, Consistent;
    if ops != [] {
      AlwaysConsistent(db, ops[..|ops| - 1]);
      StepConsistent(RunOps(db, ops[..|ops| - 1]), ops[|ops| - 1]);
    }
  }

  lemma StepKeepsLinks(db: Db, op: Op)
    ensures db.links.Keys <= Apply(db, op).0.links.Keys
  {
    hide NextPosition, NextBalance, LatestPosition, LatestBalance, FillOrder, KeyTaken;
    if op.ApplyTrade? {
      FillTouchesOrdersOnly(db, op.trade);
    }
  }

  lemma {:induction false} LinksStay(db: Db, ops: seq<Op>)
    ensures db.links.Keys <= RunOps(db, ops).links.Keys
  {
    hide Apply;
    if ops != [] {
      LinksStay(db, ops[..|ops| - 1]);
      StepKeepsLinks(RunOps(db, ops[..|ops| - 1]), ops[|ops| - 1]);
    }
  }

  /** Did this step order this signal? */
  predicate Succeeds(db: Db, op: Op, signal: SignalId) {
    op.CreateSignalOrder? && op.signal == signal && Apply(db, op).1 == Done
  }

  function Successes(db: Db, ops: seq<Op>, signal: SignalId): nat {
    if ops == [] then 0
    else
      var front := ops[..|ops| - 1];
      Successes(db, front, signal) + (if Succeeds(RunOps(db, front), ops[|ops| - 1], signal) then 1 else 0)
  }

  lemma SuccessLinks(db: Db, op: Op, signal: SignalId)
    requires Succeeds(db, op, signal)
    ensures signal !in db.links && signal in Apply(db, op).0.links
  {
  }

  /** A signal is ordered at most once in any run, and never if it already has a link row. */
  lemma {:induction false} OrderedAtMostOnce(db: Db, ops: seq<Op>, signal: SignalId)
    ensures Successes(db, ops, signal) <= if signal in db.links then 0 else 1
    ensures Successes(db, ops, signal) > 0 ==> signal in RunOps(db, ops).links
  {
    hide Apply, Succeeds;
    if ops != [] {
      var front, last := ops[..|ops| - 1], ops[|ops| - 1];
      OrderedAtMostOnce(db, front, signal);
      LinksStay(db, front);
      StepKeepsLinks(RunOps(db, front), last);
      if Succeeds(RunOps(db, front), last, signal) {
        SuccessLinks(RunOps(db, front), last, signal);
      }
    }
  }

  /**
   After an order for a signal has failed the signal is open again, but no later attempt can succeed:
   the failed link row blocks the insert, and the transaction leaves no order behind.
   */
  lemma FailedSignalIsBlocked(db: Db, signal: SignalId, ops: seq<Op>, order: OrderId, row: OrderRow)
    requires Consistent(db) && signal in db.signals && db.signals[signal].status == Ordered
    ensures var failed := MarkFailedOf(db, signal, db.signals[signal].order.value).0;
            && failed.signals[signal].status == Unprocessed
            && failed.links[signal].status == Of(OrderFailed)
            && CreateSignalOrderOf(RunOps(failed, ops), order, row, signal).1 != Done
            && CreateSignalOrderOf(RunOps(failed, ops), order, row, signal).0 == RunOps(failed, ops)
  {
    hide RunOps, CanInsertOrder;
    var failed := MarkFailedOf(db, signal, db.signals[signal].order.value).0;
    LinksStay(failed, ops);
    assert signal in RunOps(failed, ops).links;
  }

  // ---------------------------------------------------------------------------
  // 2. Exactly-once trades

  /** The latest position of each stock and the latest balance of each account. */
  datatype View = View(position: (AccountId, Symbol) -> Option<Position>, balance: AccountId -> Option<Balance>)

  function ViewOf(db: Db): View {
    View((a, s) => LatestPosition(db.positions, a, s), a => LatestBalance(db.accounts, a))
  }

  /** What one trade does to the view. */
  function Effect(v: View, t: Trade): View {
    var was, balance := v.position(t.account, t.symbol), v.balance(t.account);
    View((a, s) => if a == t.account && s == t.symbol then Some(NextPosition(was, t)) else v.position(a, s),
         a => if a == t.account && balance.Some? then Some(NextBalance(balance.value, was, t)) else v.balance(a))
  }

  function EffectAll(v: View, trades: seq<Trade>): View {
    if trades == [] then v else Effect(EffectAll(v, trades[..|trades| - 1]), trades[|trades| - 1])
  }

  function Ids(ops: seq<Op>): set<TradeId> {
    set op | op in ops && op.ApplyTrade? :: op.trade.id
  }

  /** First occurrences of trades not in the store yet. */
  function FirstTrades(seen: set<TradeId>, ops: seq<Op>): seq<Trade> {
    if ops == [] then []
    else
      var front, last := ops[..|ops| - 1], ops[|ops| - 1];
      if last.ApplyTrade? && last.trade.id !in seen + Ids(front) then FirstTrades(seen, front) + [last.trade]
      else FirstTrades(seen, front)
  }

  ghost predicate NotAfter(db: Db, now: Time) {
    (forall k :: k in db.positions ==> k.time <= now) && (forall r :: r in db.accounts ==> r.time <= now)
  }

  /** The clock never runs backwards over the trade steps, nor behind what is stored. */
  ghost predicate ClockForward(db: Db, ops: seq<Op>) {
    && (forall i :: 0 <= i < |ops| && ops[i].ApplyTrade? ==> NotAfter(db, ops[i].now))
    && (forall i, j :: 0 <= i < j < |ops| && ops[i].ApplyTrade? && ops[j].ApplyTrade? ==> ops[i].now <= ops[j].now)
  }

  lemma LatestAfterPut(positions: map<PositionKey, Position>, k: PositionKey, p: Position, a: AccountId, s: Symbol)
    requires forall x :: x in positions ==> x.time <= k.time
    ensures LatestPosition(positions[k := p], a, s) ==
              if a == k.account && s == k.symbol then Some(p) else LatestPosition(positions, a, s)
  {
    var after := positions[k := p];
    if a == k.account && s == k.symbol {
      assert k.time in TimesOf(after, a, s) by {
        assert k in after;
      }
      forall t | t in TimesOf(after, a, s)
        ensures t <= k.time
      {
      }
      assert Latest(TimesOf(after, a, s)) == k.time;
      assert PositionKey(a, s, k.time) == k;
    } else {
      assert TimesOf(after, a, s) == TimesOf(positions, a, s);
      if TimesOf(after, a, s) != {} {
        var t := Latest(TimesOf(after, a, s));
        assert PositionKey(a, s, t) != k;
      }
    }
  }

  lemma LatestAfterAppend(rows: seq<AccountRow>, r: AccountRow, a: AccountId)
    requires forall x :: x in rows ==> x.time <= r.time
    ensures LatestBalance(rows + [r], a) == if a == r.account then Some(r.balance) else LatestBalance(rows, a)
  {
    assert (rows + [r])[..|rows|] == rows;
    LatestRowIsRow(rows, a);
  }

  /** What a trade's row, if it is written, does to the latest balances. */
  lemma LatestAfterTrade(rows: seq<AccountRow>, balance: Option<Balance>, was: Option<Position>, t: Trade, now: Time,
                         a: AccountId)
    requires forall x :: x in rows ==> x.time <= now
    ensures LatestBalance(rows + NewRow(balance, was, t, now), a) ==
              if balance.Some? && a == t.account then Some(NextBalance(balance.value, was, t))
              else LatestBalance(rows, a)
  {
    hide NextBalance, LatestBalance;
    if balance.Some? {
      LatestAfterAppend(rows, AccountRow(t.account, now, NextBalance(balance.value, was, t)), a);
    } else {
      assert rows + [] == rows;
    }
  }

  lemma {:induction false} LatestRowIsRow(rows: seq<AccountRow>, a: AccountId)
    ensures LatestRow(rows, a).Some? ==> LatestRow(rows, a).value in rows && LatestRow(rows, a).value.account == a
  {
    if rows != [] {
      LatestRowIsRow(rows[..|rows| - 1], a);
      assert forall x :: x in rows[..|rows| - 1] ==> x in rows;
    }
  }

  /** One new trade changes the view by its effect. */
  lemma TradeEffect(db: Db, t: Trade, now: Time, a: AccountId, s: Symbol)
    requires NotAfter(db, now) && t.id !in db.trades
    ensures var after := ViewOf(ApplyTradeOf(db, t, now).0);
            after.position(a, s) == Effect(ViewOf(db), t).position(a, s) &&
                after.balance(a) == Effect(ViewOf(db), t).balance(a)
  {
    hide NextPosition, NextBalance, LatestPosition, LatestBalance, FillOrder;
    var was := LatestPosition(db.positions, t.account, t.symbol);
    var balance := LatestBalance(db.accounts, t.account);
    LatestAfterPut(db.positions, PositionKey(t.account, t.symbol, now), NextPosition(was, t), a, s);
    LatestAfterTrade(db.accounts, balance, was, t, now, a);
  }

  /** Steps other than trades leave positions, accounts and the trade table alone. */
  lemma OthersLeaveTrades(db: Db, op: Op)
    ensures !op.ApplyTrade? ==>
              var after := Apply(db, op).0;
              after.positions == db.positions && after.accounts == db.accounts && after.trades == db.trades
  {
    hide KeyTaken;
  }

  lemma {:induction false} TradesSeen(db: Db, ops: seq<Op>)
    ensures RunOps(db, ops).trades.Keys == db.trades.Keys + Ids(ops)
  {
    if ops == [] {
      assert Ids(ops) == {};
    } else {
      var front, last := ops[..|ops| - 1], ops[|ops| - 1];
      TradesSeen(db, front);
      OthersLeaveTrades(RunOps(db, front), last);
      assert forall op :: op in ops <==> op in front || op == last;
      hide Apply;
      assert Ids(ops) == if last.ApplyTrade? then Ids(front) + {last.trade.id} else Ids(front);
      TradeIsRecorded(RunOps(db, front), last);
    }
  }

  lemma TradeIsRecorded(db: Db, op: Op)
    ensures op.ApplyTrade? ==> Apply(db, op).0.trades.Keys == db.trades.Keys + {op.trade.id}
  {
    hide NextPosition, NextBalance, LatestPosition, LatestBalance, FillOrder;
  }

  lemma StepTimes(db: Db, op: Op, now: Time)
    requires NotAfter(db, now) && (op.ApplyTrade? ==> op.now <= now)
    ensures NotAfter(Apply(db, op).0, now)
  {
    hide NextPosition, NextBalance, LatestPosition, LatestBalance, FillOrder;
    OthersLeaveTrades(db, op);
  }

  lemma {:induction false} RunTimes(db: Db, ops: seq<Op>, now: Time)
    requires NotAfter(db, now) && forall i :: 0 <= i < |ops| && ops[i].ApplyTrade? ==> ops[i].now <= now
    ensures NotAfter(RunOps(db, ops), now)
  {
    hide Apply, NotAfter;
    if ops != [] {
      RunTimes(db, ops[..|ops| - 1], now);
      StepTimes(RunOps(db, ops[..|ops| - 1]), ops[|ops| - 1], now);
    }
  }

  ghost predicate SameView(v: View, w: View) {
    (forall a: AccountId, s: Symbol :: v.position(a, s) == w.position(a, s)) &&
        (forall a: AccountId :: v.balance(a) == w.balance(a))
  }

  lemma EffectOfSame(v: View, w: View, t: Trade)
    requires SameView(v, w)
    ensures SameView(Effect(v, t), Effect(w, t))
  {
    hide NextPosition, NextBalance;
    assert v.position(t.account, t.symbol) == w.position(t.account, t.symbol);
    assert v.balance(t.account) == w.balance(t.account);
  }

  lemma TradeEffectView(db: Db, t: Trade, now: Time)
    requires NotAfter(db, now) && t.id !in db.trades
    ensures SameView(ViewOf(ApplyTradeOf(db, t, now).0), Effect(ViewOf(db), t))
  {
    hide ApplyTradeOf, ViewOf, Effect;
    forall a: AccountId, s: Symbol
      ensures ViewOf(ApplyTradeOf(db, t, now).0).position(a, s) == Effect(ViewOf(db), t).position(a, s)
    {
      TradeEffect(db, t, now, a, s);
    }
    forall a: AccountId
      ensures ViewOf(ApplyTradeOf(db, t, now).0).balance(a) == Effect(ViewOf(db), t).balance(a)
    {
      TradeEffect(db, t, now, a, t.symbol);
    }
  }

  /** A new trade at the end of a run. */
  lemma NewTradeLast(db: Db, front: seq<Op>, t: Trade, now: Time, v: View)
    requires ClockForward(db, front + [ApplyTrade(t, now)]) && t.id !in RunOps(db, front).trades
    requires SameView(ViewOf(RunOps(db, front)), v)
    ensures SameView(ViewOf(ApplyTradeOf(RunOps(db, front), t, now).0), Effect(v, t))
  {
    var ops := front + [ApplyTrade(t, now)];
    assert ops[|front|] == ApplyTrade(t, now);
    assert forall i :: 0 <= i < |front| && front[i].ApplyTrade? ==> ops[i] == front[i] && front[i].now <= now;
    hide ViewOf, SameView, Effect, ApplyTradeOf, RunOps, NotAfter;
    var before := RunOps(db, front);
    assert NotAfter(db, now);
    RunTimes(db, front, now);
    TradeEffectView(before, t, now);
    EffectOfSame(ViewOf(before), v, t);
    SameViewChains(ViewOf(ApplyTradeOf(before, t, now).0), Effect(ViewOf(before), t), Effect(v, t));
  }

  lemma ClockOfFront(db: Db, ops: seq<Op>)
    requires ops != [] && ClockForward(db, ops)
    ensures ClockForward(db, ops[..|ops| - 1])
  {
    hide NotAfter;
  }

  lemma NoTradeNoChange(db: Db, op: Op, v: View)
    requires (op.ApplyTrade? ==> op.trade.id in db.trades) && SameView(ViewOf(db), v)
    ensures SameView(ViewOf(Apply(db, op).0), v)
  {
    OthersLeaveTrades(db, op);
  }

  /**
   However often trades are repeated and whatever other steps lie between, the latest positions and
   balances are those of applying the first occurrence of each new trade, once, in order.
   */
  lemma {:induction false} TradesApplyOnce(db: Db, ops: seq<Op>)
    requires ClockForward(db, ops)
    ensures SameView(ViewOf(RunOps(db, ops)), EffectAll(ViewOf(db), FirstTrades(db.trades.Keys, ops)))
  {
    hide Effect, ViewOf, SameView, Apply, ApplyTradeOf, ClockForward, Ids;
    if ops == [] {
      SameViewSelf(ViewOf(db));
    } else {
      var front, last := ops[..|ops| - 1], ops[|ops| - 1];
      assert ops == front + [last];
      ClockOfFront(db, ops);
      TradesApplyOnce(db, front);
      TradesSeen(db, front);
      var before, v := RunOps(db, front), EffectAll(ViewOf(db), FirstTrades(db.trades.Keys, front));
      if last.ApplyTrade? && last.trade.id !in before.trades {
        NewTradeLast(db, front, last.trade, last.now, v);
        ApplyIsTrade(before, last);
        var found := FirstTrades(db.trades.Keys, front);
        assert (found + [last.trade])[..|found|] == found;
      } else {
        NoTradeNoChange(before, last, v);
      }
    }
  }

  lemma ApplyIsTrade(db: Db, op: Op)
    requires op.ApplyTrade?
    ensures Apply(db, op) == ApplyTradeOf(db, op.trade, op.now)
  {
  }

  lemma SameViewSelf(v: View)
    ensures SameView(v, v)
  {
  }

  lemma SameViewChains(u: View, v: View, w: View)
    requires SameView(u, v) && SameView(v, w)
    ensures SameView(u, w)
  {
  }

  // ---------------------------------------------------------------------------
  // 3. Market value

  function StocksOf(db: Db, account: AccountId): set<Symbol> {
    set k | k in db.positions && k.account == account :: k.symbol
  }

  /** Latest market value of each stock of an account. */
  ghost function Markets(db: Db, account: AccountId): map<Symbol, real> {
    map s | s in StocksOf(db, account) :: OldMarket(LatestPosition(db.positions, account, s)) as real
  }

  /** What the account's market value says beyond its positions. */
  ghost function Unexplained(db: Db, account: AccountId): real {
    var b := LatestBalance(db.accounts, account);
    (if b.Some? then b.value.market else 0) as real - Sum(Markets(db, account))
  }

  lemma MarketsAfterPut(db: Db, after: Db, k: PositionKey, p: Position)
    requires after.positions == db.positions[k := p] && forall x :: x in db.positions ==> x.time <= k.time
    ensures Markets(after, k.account) == Markets(db, k.account)[k.symbol := p.market as real]
  {
    hide LatestPosition;
    StocksAfterPut(db, after, k, p);
    forall s: Symbol
      ensures LatestPosition(after.positions, k.account, s) ==
                if s == k.symbol then Some(p) else LatestPosition(db.positions, k.account, s)
    {
      LatestAfterPut(db.positions, k, p, k.account, s);
    }
  }

  /** What a new trade writes for its account. */
  lemma TradeWrites(db: Db, t: Trade, now: Time)
    requires NotAfter(db, now) && t.id !in db.trades && LatestBalance(db.accounts, t.account).Some?
    ensures var after := ApplyTradeOf(db, t, now).0;
            var was := LatestPosition(db.positions, t.account, t.symbol);
            && after.positions == db.positions[PositionKey(t.account, t.symbol, now) := NextPosition(was, t)]
            && LatestBalance(after.accounts, t.account) ==
                 Some(NextBalance(LatestBalance(db.accounts, t.account).value, was, t))
  {
    hide NextPosition, NextBalance, LatestBalance, LatestPosition, FillOrder;
    var was := LatestPosition(db.positions, t.account, t.symbol);
    LatestAfterTrade(db.accounts, LatestBalance(db.accounts, t.account), was, t, now, t.account);
  }

  lemma MarketOfNext(b: Balance, was: Option<Position>, t: Trade)
    ensures NextBalance(b, was, t).market == b.market - OldMarket(was) + NextPosition(was, t).market
  {
  }

  /** A trade moves an account's market value by exactly what its positions move. */
  lemma TradeKeepsUnexplained(db: Db, t: Trade, now: Time)
    requires NotAfter(db, now) && LatestBalance(db.accounts, t.account).Some?
    ensures Unexplained(ApplyTradeOf(db, t, now).0, t.account) == Unexplained(db, t.account)
  {
    if t.id !in db.trades {
      TradeWrites(db, t, now);
      var after := ApplyTradeOf(db, t, now).0;
      var was := LatestPosition(db.positions, t.account, t.symbol);
      hide NextPosition, NextBalance, LatestBalance, LatestPosition, ApplyTradeOf;
      MarketOfNext(LatestBalance(db.accounts, t.account).value, was, t);
      MarketsAfterPut(db, after, PositionKey(t.account, t.symbol, now), NextPosition(was, t));
      NoStockNoMarket(db, t.account, t.symbol);
      SumUpdate(Markets(db, t.account), t.symbol, NextPosition(was, t).market as real);
    }
  }

  /** A trade of another account leaves this one alone. */
  lemma OtherTradeKeepsUnexplained(db: Db, t: Trade, now: Time, account: AccountId)
    requires NotAfter(db, now) && account != t.account
    ensures Unexplained(ApplyTradeOf(db, t, now).0, account) == Unexplained(db, account)
  {
    if t.id !in db.trades {
      var after := ApplyTradeOf(db, t, now).0;
      var was := LatestPosition(db.positions, t.account, t.symbol);
      var next := NextPosition(was, t);
      var balance := LatestBalance(db.accounts, t.account);
      var k := PositionKey(t.account, t.symbol, now);
      assert after.positions == db.positions[k := next];
      LatestAfterTrade(db.accounts, balance, was, t, now, account);
      assert after.accounts == db.accounts + NewRow(balance, was, t, now);
      hide NextPosition, NextBalance, LatestBalance, LatestPosition, ApplyTradeOf, FillOrder, NewRow;
      OtherStocksAfterPut(db, after, k, next, account);
      forall s: Symbol
        ensures LatestPosition(after.positions, account, s) == LatestPosition(db.positions, account, s)
      {
        LatestAfterPut(db.positions, k, next, account, s);
      }
      assert Markets(after, account) == Markets(db, account);
    }
  }

  lemma OtherStocksAfterPut(db: Db, after: Db, k: PositionKey, p: Position, account: AccountId)
    requires after.positions == db.positions[k := p] && account != k.account
    ensures StocksOf(after, account) == StocksOf(db, account)
  {
    forall s: Symbol
      ensures s in StocksOf(after, account) <==> s in StocksOf(db, account)
    {
      if s in StocksOf(db, account) {
        var x :| x in db.positions && x.account == account && x.symbol == s;
        assert x in after.positions;
      }
    }
  }

  lemma StepKeepsUnexplained(db: Db, op: Op, account: AccountId)
    requires op.ApplyTrade? ==> NotAfter(db, op.now)
    requires LatestBalance(db.accounts, account).Some?
    ensures LatestBalance(Apply(db, op).0.accounts, account).Some?
    ensures Unexplained(Apply(db, op).0, account) == Unexplained(db, account)
  {
    OthersLeaveTrades(db, op);
    if op.ApplyTrade? {
      BalanceStays(db, op.trade, op.now, account);
      hide ApplyTradeOf, LatestBalance, Unexplained;
      if op.trade.account == account {
        TradeKeepsUnexplained(db, op.trade, op.now);
      } else {
        OtherTradeKeepsUnexplained(db, op.trade, op.now, account);
      }
    }
  }

  lemma BalanceStays(db: Db, t: Trade, now: Time, account: AccountId)
    requires NotAfter(db, now) && LatestBalance(db.accounts, account).Some?
    ensures LatestBalance(ApplyTradeOf(db, t, now).0.accounts, account).Some?
  {
    var was := LatestPosition(db.positions, t.account, t.symbol);
    var balance := LatestBalance(db.accounts, t.account);
    LatestAfterTrade(db.accounts, balance, was, t, now, account);
    hide LatestPosition, NextPosition, NextBalance, LatestBalance, FillOrder, NewRow;
  }

  /** Over any run of steps with a forward clock, an account's market value keeps its distance from its positions'. */
  lemma {:induction false} RunKeepsUnexplained(db: Db, ops: seq<Op>, account: AccountId)
    requires ClockForward(db, ops) && LatestBalance(db.accounts, account).Some?
    ensures LatestBalance(RunOps(db, ops).accounts, account).Some?
    ensures Unexplained(RunOps(db, ops), account) == Unexplained(db, account)
  {
    hide Apply, NotAfter, LatestBalance, Unexplained;
    if ops != [] {
      var front, last := ops[..|ops| - 1], ops[|ops| - 1];
      ClockOfFront(db, ops);
      RunKeepsUnexplained(db, front, account);
      if last.ApplyTrade? {
        RunTimes(db, front, last.now);
      }
      StepKeepsUnexplained(RunOps(db, front), last, account);
    }
  }

  lemma StocksAfterPut(db: Db, after: Db, k: PositionKey, p: Position)
    requires after.positions == db.positions[k := p]
    ensures StocksOf(after, k.account) == StocksOf(db, k.account) + {k.symbol}
  {
    assert k in after.positions;
    forall s: Symbol
      ensures s in StocksOf(after, k.account) <==> s in StocksOf(db, k.account) || s == k.symbol
    {
      if s in StocksOf(db, k.account) {
        var x :| x in db.positions && x.account == k.account && x.symbol == s;
        assert x in after.positions;
      }
    }
  }

  lemma NoStockNoMarket(db: Db, account: AccountId, symbol: Symbol)
    ensures symbol !in StocksOf(db, account) ==> OldMarket(LatestPosition(db.positions, account, symbol)) == 0
  {
    if symbol !in StocksOf(db, account) {
      assert TimesOf(db.positions, account, symbol) == {};
    }
  }

  ghost predicate AddsUp(b: Balance) {
    b.total == b.cash + b.frozen + b.market
  }

  /** Account rows are only appended, and each appended row adds up. */
  lemma {:induction false} WrittenRowsAddUp(db: Db, ops: seq<Op>)
    ensures db.accounts <= RunOps(db, ops).accounts
    ensures forall i :: |db.accounts| <= i < |RunOps(db, ops).accounts| ==> AddsUp(RunOps(db, ops).accounts[i].balance)
  {
    if ops != [] {
      var front, last := ops[..|ops| - 1], ops[|ops| - 1];
      WrittenRowsAddUp(db, front);
      OthersLeaveTrades(RunOps(db, front), last);
      hide LatestPosition, LatestBalance, FillOrder, NextPosition;
    }
  }
}
