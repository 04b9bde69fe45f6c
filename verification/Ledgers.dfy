/** The position ledger (backtest_engine.py, Portfolio): FIFO lots with the T+1 rule. */
module Ledgers {
  import opened Clock
  import opened Market
  import opened Rounding
  import opened Sums

  datatype Lot = Lot(day: Day, quantity: nat, cost: real)

  /** Cash in cents, positions in shares, costs in cents (a share of a lot's cost need not be a whole cent). */
  datatype Ledger = Ledger(cash: int, positions: map<Symbol, int>, costs: map<Symbol, real>,
                           lots: map<Symbol, seq<Lot>>)
  {
    function Position(symbol: Symbol): int {
      if symbol in positions then positions[symbol] else 0
    }

    function Cost(symbol: Symbol): real {
      if symbol in costs then costs[symbol] else 0.0
    }

    function Lots(symbol: Symbol): seq<Lot> {
      if symbol in lots then lots[symbol] else []
    }
  }

  function Opening(cash: int): Ledger {
    Ledger(cash, map[], map[], map[])
  }

  /** Price times quantity in cents; exact because quantities are whole board lots of 100 shares. */
  function Amount(price: int, quantity: nat): (cents: int)
    requires quantity % 100 == 0
    ensures cents * 100 == price * quantity
  {
    AmountExact(price, quantity / 100);
    price * (quantity / 100)
  }

  lemma AmountExact(price: int, hands: int)
    ensures price * hands * 100 == price * (hands * 100)
  {
  }

  function Quantity(lots: seq<Lot>): nat {
    if lots == [] then 0 else lots[0].quantity + Quantity(lots[1..])
  }

  function CostSum(lots: seq<Lot>): real {
    if lots == [] then 0.0 else lots[0].cost + CostSum(lots[1..])
  }

  /** Shares in lots bought strictly before a day: what T+1 lets go on that day. */
  function AvailableBefore(lots: seq<Lot>, day: int): nat {
    if lots == [] then 0 else (if lots[0].day < day then lots[0].quantity else 0) + AvailableBefore(lots[1..], day)
  }

  datatype Consumption = Consumption(lots: seq<Lot>, cost: real, remaining: int)

  function LeftOver(lot: Lot, used: nat): seq<Lot>
    requires used <= lot.quantity
  {
    var left := lot.quantity - used;
    if left > 0 then [lot.(quantity := left, cost := ShareOfCost(lot, left))] else []
  }

  function ShareOfCost(lot: Lot, part: nat): real
    requires lot.quantity > 0
  {
    lot.cost * part as real / lot.quantity as real
  }

  /** Take `remaining` shares from the front, skipping lots not yet sellable on `day`. */
  function Consume(lots: seq<Lot>, day: Day, remaining: int): Consumption {
    if lots == [] then Consumption([], 0.0, remaining)
    else
      var used := Used(lots[0], day, remaining);
      var rest := Consume(lots[1..], day, remaining - used);
      Consumption(LeftOver(lots[0], used) + rest.lots, UsedCost(lots[0], used) + rest.cost, rest.remaining)
  }

  /** Cost per share times the shares used. */
  function UsedCost(lot: Lot, used: nat): real {
    if lot.quantity == 0 then 0.0 else lot.cost / lot.quantity as real * used as real
  }

  lemma ConsumeNothing(day: Day, remaining: int)
    ensures Consume([], day, remaining) == Consumption([], 0.0, remaining)
  {
  }

  lemma UsedNothing(lot: Lot)
    ensures UsedCost(lot, 0) == 0.0
  {
  }

  function Bought(l: Ledger, symbol: Symbol, day: Day, price: int, quantity: nat, fee: int): Ledger
    requires quantity % 100 == 0
  {
    var total := Amount(price, quantity) + fee;
    Ledger(l.cash - total,
           l.positions[symbol := l.Position(symbol) + quantity],
           l.costs[symbol := l.Cost(symbol) + total as real],
           l.lots[symbol := l.Lots(symbol) + [Lot(day, quantity, total as real)]])
  }

  function Sold(l: Ledger, symbol: Symbol, day: Day, price: int, quantity: nat, fee: int, tax: int): Ledger
    requires quantity % 100 == 0
  {
    var taken := Consume(l.Lots(symbol), day, quantity);
    Ledger(l.cash + Amount(price, quantity) - fee - tax,
           l.positions[symbol := Max(l.Position(symbol) - quantity, 0)],
           l.costs[symbol := MaxReal(l.Cost(symbol) - taken.cost, 0.0)],
           l.lots[symbol := taken.lots])
  }

  /** Profit of a sale before it is rounded to cents. */
  function ExactPnl(l: Ledger, symbol: Symbol, day: Day, price: int, quantity: nat, fee: int, tax: int): real
    requires quantity % 100 == 0
  {
    Amount(price, quantity) as real - Consume(l.Lots(symbol), day, quantity).cost - fee as real - tax as real
  }

  lemma Associative<T>(a: seq<T>, b: seq<T>, c: seq<T>)
    ensures a + (b + c) == (a + b) + c
  {
  }

  lemma ConsumeOne(lots: seq<Lot>, i: nat, day: Day, remaining: int)
    requires i < |lots|
    ensures var used := Used(lots[i], day, remaining);
            var rest := Consume(lots[i + 1..], day, remaining - used);
            && Consume(lots[i..], day, remaining).lots == LeftOver(lots[i], used) + rest.lots
            && Consume(lots[i..], day, remaining).cost == UsedCost(lots[i], used) + rest.cost
  {
    assert lots[i..][0] == lots[i] && lots[i..][1..] == lots[i + 1..];
  }

  // ---------------------------------------------------------------------------
  // Effect of the FIFO walk

  ghost predicate GoodLots(lots: seq<Lot>) {
    forall lot :: lot in lots ==> lot.quantity > 0 && lot.quantity % 100 == 0 && lot.cost >= 0.0
  }

  lemma {:induction false} AppendLot(lots: seq<Lot>, lot: Lot, day: int)
    ensures Quantity(lots + [lot]) == Quantity(lots) + lot.quantity
    ensures CostSum(lots + [lot]) == CostSum(lots) + lot.cost
    ensures AvailableBefore(lots + [lot], day) ==
              AvailableBefore(lots, day) + (if lot.day < day then lot.quantity else 0)
  {
    if lots == [] {
      assert lots + [lot] == [lot];
    } else {
      AppendLot(lots[1..], lot, day);
      assert (lots + [lot])[1..] == lots[1..] + [lot];
    }
  }

  lemma SplitCost(lot: Lot, used: nat)
    requires lot.quantity > 0 && used <= lot.quantity && lot.cost >= 0.0
    ensures UsedCost(lot, used) + CostSum(LeftOver(lot, used)) == lot.cost
    ensures 0.0 <= UsedCost(lot, used) <= lot.cost
    ensures forall x :: x in LeftOver(lot, used) ==> x.cost >= 0.0 && x.quantity == lot.quantity - used
  {
    var q, u := lot.quantity as real, used as real;
    var unit := lot.cost / q;
    assert lot.cost == unit * q;
    assert lot.cost * (q - u) / q == unit * (q - u);
    assert unit * u + unit * (q - u) == unit * q;
    assert unit >= 0.0 && unit * u >= 0.0 && unit * (q - u) >= 0.0;
    if used < lot.quantity {
      assert (lot.quantity - used) as real == q - u;
      assert LeftOver(lot, used)[1..] == [];
    } else {
      assert u == q;
    }
  }

  /** Prepending what is left of a lot to what is left of the others. */
  lemma SumsOfConcat(a: seq<Lot>, b: seq<Lot>, day: int)
    requires |a| <= 1
    ensures Quantity(a + b) == Quantity(a) + Quantity(b)
    ensures CostSum(a + b) == CostSum(a) + CostSum(b)
    ensures AvailableBefore(a + b, day) == AvailableBefore(a, day) + AvailableBefore(b, day)
  {
    if a == [] {
      assert a + b == b;
    } else {
      assert (a + b)[1..] == b && a[1..] == [];
    }
  }

  lemma LeftOverSums(lot: Lot, used: nat, day: int)
    requires used <= lot.quantity
    ensures Quantity(LeftOver(lot, used)) == lot.quantity - used
    ensures AvailableBefore(LeftOver(lot, used), day) == if lot.day < day then lot.quantity - used else 0
  {
    if used < lot.quantity {
      assert LeftOver(lot, used)[1..] == [];
    }
  }

  /** The shares the walk takes from the first lot. */
  function Used(lot: Lot, day: Day, remaining: int): (u: nat)
    ensures u <= lot.quantity
  {
    if remaining > 0 && lot.day < day then Min(lot.quantity, remaining) else 0
  }

  /**
   A sale of no more than the available shares is served in full, from lots bought on strictly
   earlier days only: it lowers the availability of every day from the sale on by what was sold.
   */
  lemma {:induction false} ConsumeShares(lots: seq<Lot>, day: Day, quantity: nat, d: int)
    requires quantity <= AvailableBefore(lots, day)
    ensures var c := Consume(lots, day, quantity);
            && c.remaining == 0
            && Quantity(c.lots) == Quantity(lots) - quantity
            && (d >= day ==> AvailableBefore(c.lots, d) == AvailableBefore(lots, d) - quantity)
            && (d < day ==> AvailableBefore(c.lots, d) <= AvailableBefore(lots, d))
  {
    if lots != [] {
      var used := Used(lots[0], day, quantity);
      var rest := Consume(lots[1..], day, quantity - used);
      ConsumeShares(lots[1..], day, quantity - used, d);
      SumsOfConcat(LeftOver(lots[0], used), rest.lots, d);
      LeftOverSums(lots[0], used, d);
    }
  }

  /** Whatever is asked for, cost is conserved and lots stay whole board lots of non-negative cost. */
  lemma {:induction false} ConsumeCosts(lots: seq<Lot>, day: Day, quantity: int)
    requires GoodLots(lots) && quantity % 100 == 0
    ensures var c := Consume(lots, day, quantity);
            && GoodLots(c.lots) && CostSum(c.lots) + c.cost == CostSum(lots)
            && c.cost >= 0.0 && CostSum(c.lots) >= 0.0
  {
    if lots != [] {
      var lot := lots[0];
      FirstLot(lots);
      var used := Used(lot, day, quantity);
      UsedInBoardLots(lot, day, quantity);
      var rest := Consume(lots[1..], day, quantity - used);
      assert Consume(lots, day, quantity) ==
        Consumption(LeftOver(lot, used) + rest.lots, UsedCost(lot, used) + rest.cost, rest.remaining);
      assert CostSum(lots) == lot.cost + CostSum(lots[1..]);
      hide Consume, CostSum, GoodLots, Used, UsedCost, LeftOver;
      ConsumeCosts(lots[1..], day, quantity - used);
      ConsumeCostsStep(lot, used, rest);
    }
  }

  lemma FirstLot(lots: seq<Lot>)
    requires GoodLots(lots) && lots != []
    ensures lots[0].quantity > 0 && lots[0].quantity % 100 == 0 && lots[0].cost >= 0.0 && GoodLots(lots[1..])
  {
    assert lots[0] in lots;
  }

  lemma UsedInBoardLots(lot: Lot, day: Day, quantity: int)
    requires lot.quantity % 100 == 0 && quantity % 100 == 0
    ensures Used(lot, day, quantity) % 100 == 0 && (quantity - Used(lot, day, quantity)) % 100 == 0
  {
  }

  lemma ConsumeCostsStep(lot: Lot, used: nat, rest: Consumption)
    requires lot.quantity > 0 && used <= lot.quantity && lot.cost >= 0.0 && lot.quantity % 100 == 0 && used % 100 == 0
    requires GoodLots(rest.lots) && CostSum(rest.lots) >= 0.0 && rest.cost >= 0.0
    ensures GoodLots(LeftOver(lot, used) + rest.lots)
    ensures CostSum(LeftOver(lot, used) + rest.lots) + UsedCost(lot, used) + rest.cost ==
              lot.cost + CostSum(rest.lots) + rest.cost
    ensures UsedCost(lot, used) + rest.cost >= 0.0 && CostSum(LeftOver(lot, used) + rest.lots) >= 0.0
  {
    SplitCost(lot, used);
    SumsOfConcat(LeftOver(lot, used), rest.lots, 0);
  }

  // ---------------------------------------------------------------------------
  // What every trade keeps

  ghost function LotCosts(l: Ledger): map<Symbol, real> {
    map s | s in l.lots :: CostSum(l.lots[s])
  }

  /** Cash plus the cost of everything still held. */
  ghost function BookValue(l: Ledger): real {
    l.cash as real + Sum(LotCosts(l))
  }

  ghost predicate Sound(l: Ledger) {
    && (forall s: Symbol :: GoodLots(l.Lots(s)))
    && (forall s: Symbol :: l.Position(s) == Quantity(l.Lots(s)))
    && (forall s: Symbol :: l.Cost(s) == CostSum(l.Lots(s)))
  }

  lemma BoughtKeepsBook(l: Ledger, symbol: Symbol, day: Day, price: Price, quantity: nat, fee: nat)
    requires Sound(l) && quantity > 0 && quantity % 100 == 0
    ensures var after := Bought(l, symbol, day, price, quantity, fee);
            Sound(after) && BookValue(after) == BookValue(l)
  {
    var after := Bought(l, symbol, day, price, quantity, fee);
    var lot := Lot(day, quantity, (Amount(price, quantity) + fee) as real);
    AppendLot(l.Lots(symbol), lot, 0);
    AmountNonNegative(price, quantity);
    forall s: Symbol
      ensures GoodLots(after.Lots(s)) && after.Position(s) == Quantity(after.Lots(s)) &&
                after.Cost(s) == CostSum(after.Lots(s))
    {
      if s != symbol {
        assert after.Lots(s) == l.Lots(s) && after.Position(s) == l.Position(s) && after.Cost(s) == l.Cost(s);
      }
    }
    LotCostsUpdate(l, after, symbol);
  }

  lemma AmountNonNegative(price: Price, quantity: nat)
    requires quantity % 100 == 0
    ensures Amount(price, quantity) >= 0
  {
  }

  lemma LotCostsUpdate(l: Ledger, after: Ledger, symbol: Symbol)
    requires symbol in after.lots && after.lots == l.lots[symbol := after.lots[symbol]]
    ensures Sum(LotCosts(after)) == Sum(LotCosts(l)) - CostSum(l.Lots(symbol)) + CostSum(after.Lots(symbol))
  {
    assert LotCosts(after) == LotCosts(l)[symbol := CostSum(after.lots[symbol])];
    SumUpdate(LotCosts(l), symbol, CostSum(after.lots[symbol]));
  }

  /** Neither `max(..., 0)` clamp is ever reached, and the book changes by exactly the unrounded profit. */
  lemma SoldKeepsBook(l: Ledger, symbol: Symbol, day: Day, price: Price, quantity: nat, fee: nat, tax: nat)
    requires Sound(l) && quantity % 100 == 0 && quantity <= AvailableBefore(l.Lots(symbol), day)
    ensures var after := Sold(l, symbol, day, price, quantity, fee, tax);
            && Sound(after)
            && after.Position(symbol) == l.Position(symbol) - quantity
            && after.Cost(symbol) == l.Cost(symbol) - Consume(l.Lots(symbol), day, quantity).cost
            && BookValue(after) == BookValue(l) + ExactPnl(l, symbol, day, price, quantity, fee, tax)
  {
    var after := Sold(l, symbol, day, price, quantity, fee, tax);
    ConsumeShares(l.Lots(symbol), day, quantity, 0);
    ConsumeCosts(l.Lots(symbol), day, quantity);
    forall s: Symbol
      ensures GoodLots(after.Lots(s)) && after.Position(s) == Quantity(after.Lots(s)) &&
                after.Cost(s) == CostSum(after.Lots(s))
    {
      if s != symbol {
        assert after.Lots(s) == l.Lots(s) && after.Position(s) == l.Position(s) && after.Cost(s) == l.Cost(s);
      }
    }
    LotCostsUpdate(l, after, symbol);
  }

  // ---------------------------------------------------------------------------

  class Portfolio {
    var cash: int
    var positions: map<Symbol, int>
    var positionCost: map<Symbol, real>
    var lots: map<Symbol, seq<Lot>>

    function Book(): Ledger
      reads this
    {
      Ledger(cash, positions, positionCost, lots)
    }

    constructor (initialCash: int)
      ensures Book() == Opening(initialCash)
    {
      cash, positions, positionCost, lots := initialCash, map[], map[], map[];
    }

    method Buy(symbol: Symbol, day: Day, price: int, quantity: nat, fee: int)
      requires quantity % 100 == 0
      modifies this
      ensures Book() == Bought(old(Book()), symbol, day, price, quantity, fee)
    {
      var total := Amount(price, quantity) + fee;
      var before := Book();
      cash := cash - total;
      positions := positions[symbol := before.Position(symbol) + quantity];
      positionCost := positionCost[symbol := before.Cost(symbol) + total as real];
      lots := lots[symbol := before.Lots(symbol) + [Lot(day, quantity, total as real)]];
    }

    method Sell(symbol: Symbol, day: Day, price: int, quantity: nat, fee: int, tax: int) returns (pnl: int)
      requires quantity % 100 == 0
      modifies this
      ensures Book() == Sold(old(Book()), symbol, day, price, quantity, fee, tax)
      ensures pnl == Round(ExactPnl(old(Book()), symbol, day, price, quantity, fee, tax))
    {
      var before := Book();
      var consumed := ConsumeLots(symbol, day, quantity);
      cash := cash + (Amount(price, quantity) - fee - tax);
      positions := positions[symbol := Max(before.Position(symbol) - quantity, 0)];
      positionCost := positionCost[symbol := MaxReal(before.Cost(symbol) - consumed, 0.0)];
      pnl := Round(Amount(price, quantity) as real - consumed - fee as real - tax as real);
    }

    method ConsumeLots(symbol: Symbol, day: Day, quantity: nat) returns (consumed: real)
      modifies `lots
      ensures var taken := Consume(old(Book()).Lots(symbol), day, quantity);
              consumed == taken.cost && lots == old(lots)[symbol := taken.lots]
    {
      hide UsedCost, ShareOfCost, Consume;
      var mine := if symbol in lots then lots[symbol] else [];
      assert mine[0..] == mine;
      var remaining: int := quantity;
      var next: seq<Lot> := [];
      consumed := 0.0;
      for i := 0 to |mine|
        invariant lots == old(lots)
        invariant Consume(mine, day, quantity).lots == next + Consume(mine[i..], day, remaining).lots
        invariant Consume(mine, day, quantity).cost == consumed + Consume(mine[i..], day, remaining).cost
      {
        var lot := mine[i];
        var left := lot.quantity;
        ghost var (next0, consumed0, rest0) := (next, consumed, remaining);
        if remaining > 0 && lot.day < day {
          var used := Min(left, remaining);
          consumed := consumed + UsedCost(lot, used);
          left := left - used;
          remaining := remaining - used;
        }
        if left > 0 {
          next := next + [lot.(quantity := left, cost := ShareOfCost(lot, left))];
        }
        ConsumeOne(mine, i, day, rest0);
        UsedNothing(lot);
        ghost var later := Consume(mine[i + 1..], day, remaining);
        assert next == next0 + LeftOver(lot, Used(lot, day, rest0));
        Associative(next0, LeftOver(lot, Used(lot, day, rest0)), later.lots);
      }
      ConsumeNothing(day, remaining);
      assert mine[|mine|..] == [];
      assert next + [] == next;
      lots := lots[symbol := next];
    }
  }
}
