/**
 The local broker (backtest_engine.py, BacktestBroker.execute_with_audit): a discrete-event loop over a
 list that grows while it is consumed, since a filled BUY may insert one exit SELL.
 */
module Broker {
  import opened AutoExit
  import opened Clock
  import opened Ledgers
  import opened Market
  import opened Options
  import opened Rounding
  import opened Signals
  import opened Sorting

  datatype Status =
    | Observed | NoBar | OutOfRange | NotTrading | LimitHit | NoCash | NoHolding | TPlusOne | OddLot | Filled

  datatype Trade = Trade(symbol: Symbol, side: Side, price: Price, quantity: nat, amount: int, fee: int,
                         day: Day, second: Option<Second>, pnl: int)

  datatype Audit = Audit(signal: Signal, status: Status)

  /** What the guards of one loop iteration decide. */
  datatype Verdict =
    | Skip(status: Status)
    | Fill(bar: Bar, price: Price, quantity: nat, fee: int, tax: int)
    | DivisionByZero

  /** The loop's state: events still to come, events processed, ledger and output so far. */
  datatype Run = Run(queue: seq<Event>, done: seq<Event>, book: Ledger, trades: seq<Trade>, audits: seq<Audit>,
                     nextSequence: nat, crashed: bool)

  // ---------------------------------------------------------------------------
  // Event order

  predicate KeyLess(a: Event, b: Event) {
    TextOrder(a.time) < TextOrder(b.time) || (a.time == b.time && a.sequence < b.sequence)
  }

  /** The stable sort by (time, sequence). */
  function SortEvents(events: seq<Event>): (r: seq<Event>)
    ensures |r| == |events|
  {
    Sort(KeyLess, events)
  }

  lemma SortedMembers(events: seq<Event>)
    ensures forall e :: e in SortEvents(events) <==> e in events
  {
    hide KeyLess;
    SortPermutes(KeyLess, events);
    forall e
      ensures e in SortEvents(events) <==> e in events
    {
      assert e in multiset(SortEvents(events)) <==> e in multiset(events);
    }
  }

  function InitialEvents(signals: seq<Signal>): (r: seq<Event>)
    ensures |r| == |signals|
    ensures forall i :: 0 <= i < |r| ==> r[i] == Event(signals[i], None, SortTime(signals[i].time), i, None)
  {
    seq(|signals|, i requires 0 <= i < |signals| => Event(signals[i], None, SortTime(signals[i].time), i, None))
  }

  // ---------------------------------------------------------------------------
  // One event

  function ExecutionBar(task: Task, feed: Feed, signal: Signal): Option<Bar> {
    var bars := MinuteBars(feed, signal.symbol);
    var minute := if task.minuteData then NextMinuteBar(bars, signal.time, task.end) else None;
    if minute.Some? then minute else NextBar(DailyBars(feed, signal.symbol), signal.time)
  }

  function EventBar(task: Task, feed: Feed, e: Event): Option<Bar> {
    if e.bar.Some? then e.bar else ExecutionBar(task, feed, e.signal)
  }

  function EventPrice(task: Task, e: Event, bar: Bar, side: Side): (p: Price)
    ensures side.SellSide? ==> p >= 100
  {
    if e.price.Some? && e.price.value > 0 then Slipped(e.price.value, side, task.slippage)
    else ExecutablePrice(task, bar, side)
  }

  /** Board lots of 100 a budget buys: price is per share in 1e-4 yuan, budget in cents, so the factors cancel. */
  function Hands(budget: real, price: Price): int
    requires price > 0
  {
    Truncate(budget / price as real)
  }

  function Rated(amount: int, rate: real): real {
    amount as real * rate
  }

  function Charge(amount: int, rate: real): int {
    Round(Rated(amount, rate))
  }

  function JudgeBuy(task: Task, signal: Signal, bar: Bar, price: Price, cash: int): Verdict {
    if price == 0 then DivisionByZero
    else
      var hands := Hands(BuyBudget(task, signal, cash), price);
      if hands < 1 then Skip(NoCash)
      else Fill(bar, price, hands * 100, Charge(price * hands, task.feeRate), 0)
  }

  function Sellable(signal: Signal, holding: int, available: int): int {
    var requested := RequestedQuantity(signal);
    Min(Min(holding, available), if requested.Some? then requested.value else available)
  }

  function JudgeSell(task: Task, signal: Signal, bar: Bar, price: Price, book: Ledger): Verdict {
    var holding := book.Position(signal.symbol);
    var available := AvailableBefore(book.Lots(signal.symbol), bar.day);
    if holding < 100 then Skip(NoHolding)
    else if available < 100 then Skip(TPlusOne)
    else
      var quantity := Sellable(signal, holding, available) / 100 * 100;
      if quantity < 100 then Skip(OddLot)
      else
        var amount := Amount(price, quantity);
        Fill(bar, price, quantity, Charge(amount, task.feeRate), Charge(amount, task.stampRate))
  }

  function Judge(task: Task, feed: Feed, e: Event, book: Ledger): Verdict {
    if e.signal.action.Watch? then Skip(Observed)
    else
      var bar := EventBar(task, feed, e);
      if bar.None? then Skip(NoBar)
      else if !(task.start <= bar.value.day <= task.end) then Skip(OutOfRange)
      else if bar.value.suspended || bar.value.volume <= 0 then Skip(NotTrading)
      else
        var side := SideOf(e.signal.action);
        if LimitBlocked(DailyBars(feed, e.signal.symbol), bar.value, side) then Skip(LimitHit)
        else
          var price := EventPrice(task, e, bar.value, side);
          if side.BuySide? then JudgeBuy(task, e.signal, bar.value, price, book.cash)
          else JudgeSell(task, e.signal, bar.value, price, book)
  }

  /** The guards as the loop runs them, one early exit after another. */
  method JudgeEvent(task: Task, feed: Feed, e: Event, portfolio: Portfolio) returns (v: Verdict)
    ensures v == Judge(task, feed, e, portfolio.Book())
  {
    hide LimitBlocked, EventPrice, JudgeBuy, JudgeSell, EventBar;
    if e.signal.action.Watch? {
      return Skip(Observed);
    }
    var bars := DailyBars(feed, e.signal.symbol);
    var found := EventBar(task, feed, e);
    if found.None? {
      return Skip(NoBar);
    }
    var bar := found.value;
    if !(task.start <= bar.day <= task.end) {
      return Skip(OutOfRange);
    }
    if bar.suspended || bar.volume <= 0 {
      return Skip(NotTrading);
    }
    var side := SideOf(e.signal.action);
    var blocked := IsLimitBlocked(bars, bar, side);
    if blocked {
      return Skip(LimitHit);
    }
    var price := EventPrice(task, e, bar, side);
    if side.BuySide? {
      v := JudgeBuy(task, e.signal, bar, price, portfolio.cash);
    } else {
      v := JudgeSell(task, e.signal, bar, price, portfolio.Book());
    }
  }

  lemma FilledInBoardLots(task: Task, feed: Feed, e: Event, book: Ledger)
    ensures var v := Judge(task, feed, e, book);
            && (v.Skip? ==> v.status != Filled)
            && (v.Fill? ==> v.quantity % 100 == 0 && v.quantity >= 100 && task.start <= v.bar.day <= task.end
                            && EventBar(task, feed, e) == Some(v.bar) && !e.signal.action.Watch?)
  {
    hide LimitBlocked, EventPrice, Charge, AvailableBefore, Hands, EventBar;
  }

  ghost predicate Fillable(e: Event, v: Verdict) {
    v.Fill? && v.quantity % 100 == 0 && !e.signal.action.Watch?
  }

  function SettledBook(book: Ledger, e: Event, v: Verdict): Ledger
    requires Fillable(e, v)
  {
    if e.signal.action.Buy? then Bought(book, e.signal.symbol, v.bar.day, v.price, v.quantity, v.fee)
    else Sold(book, e.signal.symbol, v.bar.day, v.price, v.quantity, v.fee, v.tax)
  }

  /** The stamp tax is booked with the fee; only a sale has a profit. */
  function SettledTrade(book: Ledger, e: Event, v: Verdict): Trade
    requires Fillable(e, v)
  {
    var symbol := e.signal.symbol;
    Trade(symbol, SideOf(e.signal.action), v.price, v.quantity, Amount(v.price, v.quantity), v.fee + v.tax,
          v.bar.day, v.bar.second,
          if e.signal.action.Buy? then 0
          else Round(ExactPnl(book, symbol, v.bar.day, v.price, v.quantity, v.fee, v.tax)))
  }

  function SettledExit(task: Task, feed: Feed, e: Event, v: Verdict, sequence: nat): (r: Option<Event>)
    requires v.Fill?
    ensures r.Some? ==> e.signal.action.Buy? && LaterSell(r.value, e.signal, v.bar, sequence)
  {
    if e.signal.action.Buy? then AutoExitEvent(task, feed, v.bar, v.price, v.quantity, e.signal, sequence) else None
  }

  function Start(task: Task, signals: seq<Signal>): Run {
    Run(SortEvents(InitialEvents(signals)), [], Opening(task.initialCash), [], [], |signals|, false)
  }

  function Step(task: Task, feed: Feed, s: Run): Run
    requires s.queue != [] && !s.crashed
  {
    var e, rest := s.queue[0], s.queue[1..];
    var v := Judge(task, feed, e, s.book);
    FilledInBoardLots(task, feed, e, s.book);
    match v
    case DivisionByZero => s.(crashed := true)
    case Skip(status) => s.(queue := rest, done := s.done + [e], audits := s.audits + [Audit(e.signal, status)])
    case Fill(_, _, _, _, _) =>
      var exit := SettledExit(task, feed, e, v, s.nextSequence);
      Run(if exit.Some? then SortEvents(rest + [exit.value]) else rest, s.done + [e], SettledBook(s.book, e, v),
          s.trades + [SettledTrade(s.book, e, v)], s.audits + [Audit(e.signal, Filled)],
          if exit.Some? then s.nextSequence + 1 else s.nextSequence, false)
  }

  // ---------------------------------------------------------------------------
  // Termination: a pending BUY weighs 2 (itself and the exit it may insert), any other event 1

  function Weight(queue: seq<Event>): nat {
    if queue == [] then 0 else (if queue[0].signal.action.Buy? then 2 else 1) + Weight(queue[1..])
  }

  lemma {:induction false} WeightOfConcat(a: seq<Event>, b: seq<Event>)
    ensures Weight(a + b) == Weight(a) + Weight(b)
  {
    if a == [] {
      assert a + b == b;
    } else {
      assert (a + b)[1..] == a[1..] + b;
      WeightOfConcat(a[1..], b);
    }
  }

  lemma {:induction false} WeightOfInsert(queue: seq<Event>, e: Event)
    ensures Weight(Insert(KeyLess, queue, e)) == Weight(queue) + Weight([e])
  {
    if queue != [] && KeyLess(e, queue[|queue| - 1]) {
      var front, last := queue[..|queue| - 1], queue[|queue| - 1];
      assert queue == front + [last];
      WeightOfInsert(front, e);
      WeightOfConcat(front, [last]);
      WeightOfConcat(Insert(KeyLess, front, e), [last]);
    } else {
      WeightOfConcat(queue, [e]);
    }
  }

  lemma {:induction false} WeightOfSort(events: seq<Event>)
    ensures Weight(SortEvents(events)) == Weight(events)
  {
    if events != [] {
      var front, last := events[..|events| - 1], events[|events| - 1];
      assert events == front + [last];
      WeightOfSort(front);
      WeightOfInsert(SortEvents(front), last);
      WeightOfConcat(front, [last]);
    }
  }

  lemma StepShrinks(task: Task, feed: Feed, s: Run)
    requires s.queue != [] && !s.crashed
    ensures Step(task, feed, s).crashed || Weight(Step(task, feed, s).queue) < Weight(s.queue)
  {
    var e, rest := s.queue[0], s.queue[1..];
    var v := Judge(task, feed, e, s.book);
    if v.Fill? {
      var exit := SettledExit(task, feed, e, v, s.nextSequence);
      if exit.Some? {
        WeightOfSort(rest + [exit.value]);
        WeightOfConcat(rest, [exit.value]);
      }
    }
  }

  /** The whole run from a state: until no event is left, or the division by a zero price aborts it. */
  function RunAll(task: Task, feed: Feed, s: Run): (r: Run)
    ensures r.crashed || r.queue == []
    decreases !s.crashed, Weight(s.queue)
  {
    if s.queue == [] || s.crashed then s
    else
      StepShrinks(task, feed, s);
      RunAll(task, feed, Step(task, feed, s))
  }

  // ---------------------------------------------------------------------------

  method ExecuteWithAudit(task: Task, feed: Feed, signals: seq<Signal>)
    returns (crashed: bool, portfolio: Portfolio, trades: seq<Trade>, audits: seq<Audit>)
    ensures fresh(portfolio)
    ensures var end := RunAll(task, feed, Start(task, signals));
            crashed == end.crashed && trades == end.trades && audits == end.audits && portfolio.Book() == end.book
  {
    hide Judge, SettledBook, SettledTrade, SettledExit, SortEvents;
    portfolio := new Portfolio(task.initialCash);
    trades, audits, crashed := [], [], false;
    var pending := SortEvents(InitialEvents(signals));
    var nextSequence: nat := |pending|;
    var index := 0;
    ghost var state := Start(task, signals);
    assert pending[0..] == pending;
    while index < |pending| && !crashed
      invariant fresh(portfolio)
      invariant 0 <= index <= |pending|
      invariant state == Run(pending[index..], pending[..index], portfolio.Book(), trades, audits, nextSequence,
          crashed)
      invariant RunAll(task, feed, Start(task, signals)) == RunAll(task, feed, state)
      decreases !crashed, Weight(pending[index..])
    {
      StepShrinks(task, feed, state);
      state := Step(task, feed, state);
      var event := pending[index];
      var v := JudgeEvent(task, feed, event, portfolio);
      FilledInBoardLots(task, feed, event, portfolio.Book());
      PopAt(pending, index);
      match v {
        case DivisionByZero =>
          crashed := true;
        case Skip(status) =>
          index := index + 1;
          audits := audits + [Audit(event.signal, status)];
        case Fill(_, _, _, _, _) =>
          index := index + 1;
          var trade, exit := Settle(task, feed, event, v, portfolio, nextSequence);
          trades := trades + [trade];
          audits := audits + [Audit(event.signal, Filled)];
          if exit.Some? {
            var tail := SortEvents(pending[index..] + [exit.value]);
            SplitAt(pending[..index], tail);
            pending := pending[..index] + tail;
            nextSequence := nextSequence + 1;
          }
      }
    }
  }

  lemma PopAt<T>(xs: seq<T>, i: nat)
    requires i < |xs|
    ensures xs[i..][0] == xs[i] && xs[i..][1..] == xs[i + 1..] && xs[..i] + [xs[i]] == xs[..i + 1]
  {
  }

  /** Book a fill in the portfolio and schedule the exit of a purchase. */
  method Settle(task: Task, feed: Feed, e: Event, v: Verdict, portfolio: Portfolio, sequence: nat)
    returns (trade: Trade, exit: Option<Event>)
    requires Fillable(e, v)
    modifies portfolio
    ensures portfolio.Book() == SettledBook(old(portfolio.Book()), e, v)
    ensures trade == SettledTrade(old(portfolio.Book()), e, v)
    ensures exit == SettledExit(task, feed, e, v, sequence)
  {
    var symbol := e.signal.symbol;
    var pnl := 0;
    exit := None;
    if e.signal.action.Buy? {
      portfolio.Buy(symbol, v.bar.day, v.price, v.quantity, v.fee);
      exit := ScheduleExit(task, feed, v.bar, v.price, v.quantity, e.signal, sequence);
    } else {
      pnl := portfolio.Sell(symbol, v.bar.day, v.price, v.quantity, v.fee, v.tax);
    }
    trade := Trade(symbol, SideOf(e.signal.action), v.price, v.quantity, Amount(v.price, v.quantity), v.fee + v.tax,
                   v.bar.day, v.bar.second, pnl);
  }

  lemma SplitAt<T>(a: seq<T>, b: seq<T>)
    ensures (a + b)[|a|..] == b && (a + b)[..|a|] == a
  {
  }

  method ScheduleExit(task: Task, feed: Feed, buyBar: Bar, buyPrice: Price, quantity: nat, signal: Signal,
                      sequence: nat)
    returns (exit: Option<Event>)
    ensures exit == AutoExitEvent(task, feed, buyBar, buyPrice, quantity, signal, sequence)
  {
    var controlled := ControlledExitEvent(task, feed, buyBar, buyPrice, quantity, signal, sequence);
    if controlled.Scheduled? {
      return Some(controlled.event);
    }
    if controlled.Refused? && task.minuteData {
      return None;
    }
    var days := SellAfter(signal);
    if days == 0 {
      return None;
    }
    var future := BarsAfter(DailyBars(feed, signal.symbol), buyBar.day);
    if |future| < days {
      return None;
    }
    var bar := future[days - 1];
    assert bar in future;
    var time := At(bar.day, OPENING);
    exit := Some(Event(ExitSignal(signal, time, quantity), Some(bar), time, sequence, None));
  }
}
