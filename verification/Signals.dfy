/** Strategy signals and the numbers read out of their optional fields (backtest_engine.py, 735-754 and 930-970). */
module Signals {
  import opened Clock
  import opened Market
  import opened Options
  import opened Rounding

  datatype Action = Buy | Sell | Watch

  /** An optional field: not given at all, given but empty or not a number, or a number. */
  datatype Field = Missing | Blank | Number(value: real)

  datatype Signal = Signal(symbol: Symbol, action: Action, time: Stamp, amount: Field, quantity: Field,
                           stopLoss: Field, takeProfit: Field, fallbackClock: Option<nat>,
                           exitAfter: Field, sellAfterTradingDays: Field, sellAfterDays: Field, auto: bool)

  function SideOf(action: Action): Side
    requires !action.Watch?
  {
    if action.Buy? then BuySide else SellSide
  }

  /** Cash a BUY may spend, in cents: never more than the per-order amount or the cash in hand. */
  function BuyBudget(task: Task, signal: Signal, cash: int): (b: real)
    ensures b <= task.singleOrder && b <= cash as real
    ensures signal.amount.Number? && signal.amount.value > 0.0 ==> b <= signal.amount.value
    ensures b == task.singleOrder || b == cash as real || (signal.amount.Number? && 0.0 < signal.amount.value == b)
  {
    if signal.amount.Number? && signal.amount.value > 0.0 then
      MinReal(MinReal(signal.amount.value, task.singleOrder), cash as real)
    else MinReal(task.singleOrder, cash as real)
  }

  /** A requested quantity counts only from one board lot up, in whole board lots. */
  function RequestedQuantity(signal: Signal): (q: Option<nat>)
    ensures q.Some? <==> signal.quantity.Number? && signal.quantity.value >= 100.0
    ensures q.Some? ==> q.value % 100 == 0 && q.value as real <= signal.quantity.value < q.value as real + 100.0
  {
    if signal.quantity.Number? && Truncate(signal.quantity.value) >= 100 then
      Some(Truncate(signal.quantity.value) / 100 * 100)
    else None
  }

  function Percent(field: Field): (p: real)
    ensures p >= 0.0 && (field.Number? && field.value >= 0.0 ==> p == field.value)
    ensures !field.Number? || field.value < 0.0 ==> p == 0.0
  {
    if field.Number? then MaxReal(field.value, 0.0) else 0.0
  }

  /** Trading days the stop/take scan may last: at least one. */
  function ExitAfter(signal: Signal): (n: nat)
    ensures n >= 1
    ensures var given := if signal.exitAfter.Missing? then signal.sellAfterTradingDays else signal.exitAfter;
            if given.Number? && given.value >= 1.0 then n as real <= given.value < n as real + 1.0 else n == 1
  {
    var field := if signal.exitAfter.Missing? then signal.sellAfterTradingDays else signal.exitAfter;
    if field.Number? then Max(Truncate(field.value), 1) else 1
  }

  /** Trading days after which a position is sold; 0 for never. */
  function SellAfter(signal: Signal): (n: nat)
    ensures var given := if !signal.sellAfterTradingDays.Missing? then signal.sellAfterTradingDays
                         else if !signal.sellAfterDays.Missing? then signal.sellAfterDays
                         else signal.exitAfter;
            if given.Number? && given.value >= 0.0 then n as real <= given.value < n as real + 1.0 else n == 0
  {
    var field := if !signal.sellAfterTradingDays.Missing? then signal.sellAfterTradingDays
                 else if !signal.sellAfterDays.Missing? then signal.sellAfterDays
                 else signal.exitAfter;
    if field.Number? then Max(Truncate(field.value), 0) else 0
  }
}
