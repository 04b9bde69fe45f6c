/**
 What a run of the trading store adds up to: an account's cash and shares in terms of the trades it was sent, each
 counted once (trading_repository.py, upsert_trade_and_apply_effect).
 */
module TradingTotals {
  import opened Options
  import opened Rounding
  import opened TradingRuns
  import opened TradingStore

  function Moved(trades: seq<Trade>, f: Trade -> int): int {
    if trades == [] then 0 else Moved(trades[..|trades| - 1], f) + f(trades[|trades| - 1])
  }

  // ---------------------------------------------------------------------------
  // The trades that count

  /** The i-th step applies a trade that is neither stored already nor applied by an earlier step. */
  ghost predicate Counts(seen: set<TradeId>, ops: seq<Op>, i: nat)
    requires i < |ops|
  {
    && ops[i].ApplyTrade? && ops[i].trade.id !in seen
    && forall j :: 0 <= j < i && ops[j].ApplyTrade? ==> ops[j].trade.id != ops[i].trade.id
  }

  lemma CountsInFront(seen: set<TradeId>, ops: seq<Op>, i: nat)
    requires i < |ops| - 1
    ensures Counts(seen, ops, i) <==> Counts(seen, ops[..|ops| - 1], i)
  {
    var front := ops[..|ops| - 1];
    assert forall j :: 0 <= j <= i ==> front[j] == ops[j];
  }

  lemma CountsLast(seen: set<TradeId>, ops: seq<Op>)
    requires ops != []
    ensures var front, last := ops[..|ops| - 1], ops[|ops| - 1];
            Counts(seen, ops, |ops| - 1) <==> last.ApplyTrade? && last.trade.id !in seen + Ids(front)
  {
    var front, last := ops[..|ops| - 1], ops[|ops| - 1];
    assert forall j :: 0 <= j < |front| ==> front[j] == ops[j] && ops[j] in front;
  }

  /** `FirstTrades` lists exactly the trades that count, in order: the k-th is that of step `at[k]`. */
  lemma {:induction false} FirstTradesCount(seen: set<TradeId>, ops: seq<Op>) returns (at: seq<nat>)
    ensures |at| == |FirstTrades(seen, ops)|
    ensures forall k :: 0 <= k < |at| ==>
              at[k] < |ops| && Counts(seen, ops, at[k]) && FirstTrades(seen, ops)[k] == ops[at[k]].trade
    ensures forall k, l :: 0 <= k < l < |at| ==> at[k] < at[l]
    ensures forall i :: 0 <= i < |ops| && Counts(seen, ops, i) ==> i in at
  {
    if ops == [] {
      at := [];
    } else {
      var front := ops[..|ops| - 1];
      at := FirstTradesCount(seen, front);
      forall i: nat | i < |front|
        ensures Counts(seen, ops, i) <==> Counts(seen, front, i)
      {
        CountsInFront(seen, ops, i);
      }
      CountsLast(seen, ops);
      hide Counts;
      if Counts(seen, ops, |ops| - 1) {
        at := at + [|ops| - 1];
      }
    }
  }

  // ---------------------------------------------------------------------------
  // Cash

  function CashOf(account: AccountId): Trade -> int {
    (t: Trade) => if t.account != account then 0 else if t.buy then -(t.amount + t.fee) else t.amount - t.fee
  }

  ghost predicate BalanceMoved(was: Option<Balance>, b: Option<Balance>, cash: int) {
    was.Some? ==>
      b.Some? && b.value.cash == was.value.cash + cash && b.value.frozen == was.value.frozen &&
          b.value.todayPnl == was.value.todayPnl
  }

  lemma {:induction false} CashOfAll(v: View, trades: seq<Trade>, account: AccountId)
    ensures BalanceMoved(v.balance(account), EffectAll(v, trades).balance(account), Moved(trades, CashOf(account)))
  {
    hide NextPosition;
    if trades != [] {
      CashOfAll(v, trades[..|trades| - 1], account);
    }
  }

  /**
   Over any run with a forward clock a known account's latest cash is what it began with, less amount and fee of each
   purchase and plus amount less fee of each sale, counting each of its trades once; nothing else of it moves.
   */
  lemma RunMovesCash(db: Db, ops: seq<Op>, account: AccountId)
    requires ClockForward(db, ops)
    ensures BalanceMoved(LatestBalance(db.accounts, account), LatestBalance(RunOps(db, ops).accounts, account),
                         Moved(FirstTrades(db.trades.Keys, ops), CashOf(account)))
  {
    TradesApplyOnce(db, ops);
    hide ClockForward, RunOps, LatestBalance, LatestPosition, EffectAll, Moved, FirstTrades, CashOf, BalanceMoved;
    var trades := FirstTrades(db.trades.Keys, ops);
    CashOfAll(ViewOf(db), trades, account);
    assert ViewOf(RunOps(db, ops)).balance(account) == EffectAll(ViewOf(db), trades).balance(account);
  }

  // ---------------------------------------------------------------------------
  // Shares

  function SharesOf(account: AccountId, symbol: Symbol): Trade -> int {
    (t: Trade) =>
      if t.account != account || t.symbol != symbol then 0 else if t.buy then t.quantity else -t.quantity
  }

  /** Only sales touch the shares that may be sold. */
  function SoldOf(account: AccountId, symbol: Symbol): Trade -> int {
    (t: Trade) => if t.account != account || t.symbol != symbol || t.buy then 0 else -t.quantity
  }

  predicate SaleOf(t: Trade, account: AccountId, symbol: Symbol) {
    t.account == account && t.symbol == symbol && !t.buy
  }

  /** How far below zero the sum from a start falls, at its deepest sale; sales are cut off there. */
  function Oversold(start: int, trades: seq<Trade>, f: Trade -> int, account: AccountId, symbol: Symbol): int {
    if trades == [] then 0
    else
      var before := Oversold(start, trades[..|trades| - 1], f, account, symbol);
      if SaleOf(trades[|trades| - 1], account, symbol) then Max(before, -(start + Moved(trades, f))) else before
  }

  /** It is 0, or what some sale oversold, and at least what any sale did. */
  lemma {:induction false} OversoldIsDeepest(start: int, trades: seq<Trade>, f: Trade -> int, account: AccountId,
                                             symbol: Symbol)
    ensures Oversold(start, trades, f, account, symbol) >= 0
    ensures forall n :: 0 < n <= |trades| && SaleOf(trades[n - 1], account, symbol) ==>
              -(start + Moved(trades[..n], f)) <= Oversold(start, trades, f, account, symbol)
    ensures Oversold(start, trades, f, account, symbol) > 0 ==>
              exists n :: 0 < n <= |trades| && SaleOf(trades[n - 1], account, symbol) &&
                -(start + Moved(trades[..n], f)) == Oversold(start, trades, f, account, symbol)
  {
    hide SaleOf, Moved;
    if trades != [] {
      var front := trades[..|trades| - 1];
      OversoldIsDeepest(start, front, f, account, symbol);
      assert trades[..|trades|] == trades;
      assert forall n :: 0 < n <= |front| ==> front[..n] == trades[..n] && front[n - 1] == trades[n - 1];
      var deepest := Oversold(start, trades, f, account, symbol);
      if deepest > 0 && deepest == Oversold(start, front, f, account, symbol) {
        var n :| 0 < n <= |front| && SaleOf(front[n - 1], account, symbol) &&
          -(start + Moved(front[..n], f)) == deepest;
        assert trades[..n] == front[..n];
      }
    }
  }

  function Held(p: Option<Position>): int {
    if p.Some? then p.value.quantity else 0
  }

  function Sellable(p: Option<Position>): int {
    if p.Some? then p.value.available else 0
  }

  lemma NextShares(was: Option<Position>, t: Trade)
    ensures NextPosition(was, t).quantity ==
              if t.buy then Held(was) + t.quantity else Max(Held(was) - t.quantity, 0)
    ensures NextPosition(was, t).available == if t.buy then Sellable(was) else Max(Sellable(was) - t.quantity, 0)
  {
  }

  lemma {:induction false} SharesOfAll(v: View, trades: seq<Trade>, account: AccountId, symbol: Symbol)
    ensures var was, p := v.position(account, symbol), EffectAll(v, trades).position(account, symbol);
            var net, sold := SharesOf(account, symbol), SoldOf(account, symbol);
            && Held(p) == Held(was) + Moved(trades, net) + Oversold(Held(was), trades, net, account, symbol)
            && Sellable(p) ==
                 Sellable(was) + Moved(trades, sold) + Oversold(Sellable(was), trades, sold, account, symbol)
  {
    hide NextPosition, NextBalance;
    if trades != [] {
      var front, t := trades[..|trades| - 1], trades[|trades| - 1];
      SharesOfAll(v, front, account, symbol);
      NextShares(EffectAll(v, front).position(account, symbol), t);
    }
  }

  /**
   Over any run with a forward clock the shares held of a stock are those it began with and what its trades, each
   counted once, add up to, plus what the deepest sale oversold and the clamp at 0 forgave; the same for the shares
   that may be sold, which no purchase raises.
   */
  lemma RunMovesShares(db: Db, ops: seq<Op>, account: AccountId, symbol: Symbol)
    requires ClockForward(db, ops)
    ensures var was := LatestPosition(db.positions, account, symbol);
            var p := LatestPosition(RunOps(db, ops).positions, account, symbol);
            var trades := FirstTrades(db.trades.Keys, ops);
            var net, sold := SharesOf(account, symbol), SoldOf(account, symbol);
            && Held(p) == Held(was) + Moved(trades, net) + Oversold(Held(was), trades, net, account, symbol)
            && Sellable(p) ==
                 Sellable(was) + Moved(trades, sold) + Oversold(Sellable(was), trades, sold, account, symbol)
  {
    TradesApplyOnce(db, ops);
    hide ClockForward, RunOps, LatestBalance, LatestPosition, EffectAll, Moved, FirstTrades, SharesOf, SoldOf,
      Oversold, Held, Sellable;
    var trades := FirstTrades(db.trades.Keys, ops);
    SharesOfAll(ViewOf(db), trades, account, symbol);
    assert ViewOf(RunOps(db, ops)).position(account, symbol) ==
        EffectAll(ViewOf(db), trades).position(account, symbol);
  }

  // ---------------------------------------------------------------------------
  // Cost and value of a position

  /** What a position cost in all, in 0.0001 yuan: shares times average cost, plus what the purchase spent. */
  function CostAfter(was: Option<Position>, t: Trade): int {
    (if was.Some? then was.value.quantity * was.value.cost else 0) + (t.amount + t.fee) * 100
  }

  function CostBefore(was: Option<Position>, t: Trade): int {
    if was.Some? then was.value.cost else t.price
  }

  /** What shares are worth at a price in 0.0001 yuan, to the cent. */
  ghost predicate IsWorth(cents: int, shares: int, price: real) {
    Nearest(cents, price * shares as real / 100.0)
  }

  /** Market value and open profit of a position whose average cost per share is `unit`. */
  ghost predicate ValuedAt(p: Position, unit: real) {
    && Nearest(p.cost, unit)
    && IsWorth(p.market, p.quantity, p.last as real) && IsWorth(p.pnl, p.quantity, p.last as real - unit)
  }

  /**
   A purchase spreads the old cost and what it spent over all shares; a sale leaves the average cost as it is; a
   position that is empty afterwards takes the trade's price for its cost. The last price is the trade's, unless that
   is 0 and there was an earlier one.
   */
  lemma PositionAfterTrade(was: Option<Position>, t: Trade)
    ensures var p := NextPosition(was, t);
            && p.last == (if t.price == 0 && was.Some? then was.value.last else t.price)
            && (p.quantity == 0 ==> ValuedAt(p, t.price as real))
            && (t.buy && p.quantity != 0 ==>
                  exists unit :: ValuedAt(p, unit) && unit * p.quantity as real == CostAfter(was, t) as real)
            && (!t.buy && p.quantity != 0 ==> p.cost == CostBefore(was, t) && ValuedAt(p, p.cost as real))
  {
    var p := NextPosition(was, t);
    var unit := UnitCost(was, t, p.quantity);
    NextIsValued(was, t);
    UnitCostIs(was, t, p.quantity);
    hide NextPosition, ValuedAt, UnitCost;
    if !t.buy && p.quantity != 0 {
      CostIsUnit(p, unit, CostBefore(was, t));
    }
  }

  lemma UnitCostIs(was: Option<Position>, t: Trade, held: int)
    ensures t.buy && held != 0 ==> UnitCost(was, t, held) * held as real == CostAfter(was, t) as real
    ensures held == 0 ==> UnitCost(was, t, held) == t.price as real
    ensures !t.buy && held != 0 ==> UnitCost(was, t, held) == CostBefore(was, t) as real
  {
    if held != 0 {
      Blended(CostBefore(was, t), Held(was), t.amount + t.fee, held);
    }
  }

  lemma CostIsUnit(p: Position, unit: real, cost: int)
    requires ValuedAt(p, unit) && unit == cost as real
    ensures p.cost == cost
  {
  }

  lemma NextIsValued(was: Option<Position>, t: Trade)
    ensures var p := NextPosition(was, t);
            && p.last == (if t.price == 0 && was.Some? then was.value.last else t.price)
            && ValuedAt(p, UnitCost(was, t, p.quantity))
  {
    var p := NextPosition(was, t);
    hide UnitCost, BlendedCost, Round;
    var unit := UnitCost(was, t, p.quantity);
    Valued(p, unit);
  }

  lemma Valued(p: Position, unit: real)
    requires p.cost == Round(unit) && p.market == Value(p.quantity, p.last)
    requires p.pnl == Round(OpenProfit(p.last, unit, p.quantity))
    ensures ValuedAt(p, unit)
  {
    assert Nearest(p.cost, unit);
    hide Round, Nearest, IsWorth, Value, OpenProfit;
    ValueIsWorth(p.quantity, p.last);
    ProfitIsWorth(p.last, unit, p.quantity);
  }

  lemma ProfitIsWorth(last: int, unit: real, held: int)
    ensures IsWorth(Round(OpenProfit(last, unit, held)), held, last as real - unit)
  {
    var x := OpenProfit(last, unit, held);
    assert Nearest(Round(x), x);
    hide Round, Nearest;
  }

  lemma ValueIsWorth(quantity: int, price: int)
    ensures IsWorth(Value(quantity, price), quantity, price as real)
  {
    var x, y := (quantity * price) as real, price as real * quantity as real;
    assert x == y;
    assert Nearest(Round(x / 100.0), x / 100.0);
    hide Round, Nearest;
  }

  lemma Blended(cost: int, quantity: int, spent: int, total: int)
    requires total != 0
    ensures BlendedCost(cost, quantity, spent, total) * total as real == (quantity * cost + spent * 100) as real
  {
    var all, t := (cost * quantity + spent * 100) as real, total as real;
    assert cost * quantity == quantity * cost;
    Quotient(all, t);
  }

  lemma Quotient(x: real, y: real)
    requires y != 0.0
    ensures x / y * y == x
  {
  }
}
