/** Totals over a trade list; everything the metrics read off a run is one of these. */
module TradeLog {
  import opened Broker
  import opened Market

  function Total(trades: seq<Trade>, f: Trade -> int): int {
    if trades == [] then 0 else Total(trades[..|trades| - 1], f) + f(trades[|trades| - 1])
  }

  lemma TotalAppend(trades: seq<Trade>, t: Trade, f: Trade -> int)
    ensures Total(trades + [t], f) == Total(trades, f) + f(t)
  {
    assert (trades + [t])[..|trades|] == trades;
  }

  lemma {:induction false} TotalConcat(a: seq<Trade>, b: seq<Trade>, f: Trade -> int)
    ensures Total(a + b, f) == Total(a, f) + Total(b, f)
  {
    if b == [] {
      assert a + b == a;
    } else {
      assert (a + b)[..|a + b| - 1] == a + b[..|b| - 1];
      TotalConcat(a, b[..|b| - 1], f);
    }
  }

  /** Change of cash in cents. */
  function CashEffect(t: Trade): int {
    if t.side.BuySide? then -(t.amount + t.fee) else t.amount - t.fee
  }

  /** Change of the position in one stock. */
  function HeldEffect(symbol: Symbol): Trade -> int {
    (t: Trade) => if t.symbol != symbol then 0 else if t.side.BuySide? then t.quantity as int else -(t.quantity as int)
  }

  function BoughtBefore(symbol: Symbol, day: int): Trade -> int {
    (t: Trade) => if t.symbol == symbol && t.side.BuySide? && t.day < day then t.quantity else 0
  }

  function SoldUpTo(symbol: Symbol, day: int): Trade -> int {
    (t: Trade) => if t.symbol == symbol && t.side.SellSide? && t.day <= day then t.quantity else 0
  }

  function Profit(t: Trade): int {
    if t.side.SellSide? then t.pnl else 0
  }

  function IsSale(t: Trade): int {
    if t.side.SellSide? then 1 else 0
  }

  function IsPurchase(t: Trade): int {
    if t.side.BuySide? then 1 else 0
  }

  function SoldShares(t: Trade): int {
    if t.side.SellSide? then t.quantity else 0
  }
}
