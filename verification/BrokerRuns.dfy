/** What holds in every state a backtest run can reach. */
module BrokerRuns {
  import opened AutoExit
  import opened Broker
  import opened Clock
  import opened Ledgers
  import opened Market
  import opened Options
  import opened Rounding
  import opened Signals
  import opened Sorting
  import opened TradeLog

  /** The state after `n` loop iterations (or fewer, when the loop has ended). */
  ghost function After(task: Task, feed: Feed, s: Run, n: nat): Run {
    if n == 0 then s
    else
      var before := After(task, feed, s, n - 1);
      if before.queue == [] || before.crashed then before else Step(task, feed, before)
  }

  lemma {:induction false} AfterShift(task: Task, feed: Feed, s: Run, n: nat)
    requires s.queue != [] && !s.crashed
    ensures After(task, feed, s, n + 1) == After(task, feed, Step(task, feed, s), n)
  {
    if n > 0 {
      AfterShift(task, feed, s, n - 1);
    } else {
      assert After(task, feed, s, 0) == s;
    }
  }

  /** The final state is one of the reachable ones. */
  lemma {:induction false} EndIsReached(task: Task, feed: Feed, s: Run) returns (n: nat)
    ensures RunAll(task, feed, s) == After(task, feed, s, n)
    decreases !s.crashed, Weight(s.queue)
  {
    hide Step;
    if s.queue == [] || s.crashed {
      return 0;
    }
    StepShrinks(task, feed, s);
    var m := EndIsReached(task, feed, Step(task, feed, s));
    AfterShift(task, feed, s, m);
    return m + 1;
  }

  // ---------------------------------------------------------------------------
  // 1. The event loop never schedules into the past

  ghost predicate Dated(signals: seq<Signal>) {
    forall g :: g in signals ==> !g.time.Unset?
  }

  /** An event is either a dated signal waiting for its bar, or an exit that carries its bar. */
  ghost predicate Proper(e: Event) {
    && e.time.At?
    && (e.bar.None? ==> !e.signal.time.Unset? && e.time == SortTime(e.signal.time) && e.price.None?)
    && (e.bar.Some? ==> e.signal.action.Sell? && e.signal.auto && e.bar.value.day == e.time.day)
  }

  ghost predicate Agenda(s: Run) {
    && Strict(KeyLess, s.done + s.queue)
    && (forall e :: e in s.done + s.queue ==> Proper(e) && e.sequence < s.nextSequence)
  }

  lemma KeyOrder()
    ensures Transitive(KeyLess)
    ensures forall a: Event, b: Event :: KeyLess(a, b) ==> !KeyLess(b, a)
  {
  }

  /** Text order tells apart any two clock times. */
  lemma Comparable(a: Event, b: Event)
    requires a.time.At? && b.time.At? && a.sequence != b.sequence
    ensures KeyLess(a, b) || KeyLess(b, a)
  {
  }

  /** Events numbered in list order come out strictly ordered. */
  lemma {:induction false} SortInitial(signals: seq<Signal>)
    ensures Strict(KeyLess, SortEvents(InitialEvents(signals)))
    ensures forall e :: e in SortEvents(InitialEvents(signals)) <==> e in InitialEvents(signals)
  {
    if signals != [] {
      var events := InitialEvents(signals);
      var front := signals[..|signals| - 1];
      var last := events[|events| - 1];
      assert events[..|events| - 1] == InitialEvents(front);
      assert events == InitialEvents(front) + [last];
      SortInitial(front);
      KeyOrder();
      forall y | y in SortEvents(InitialEvents(front))
        ensures KeyLess(last, y) || KeyLess(y, last)
      {
        Comparable(last, y);
      }
      InsertKeepsStrict(KeyLess, SortEvents(InitialEvents(front)), last);
    }
  }

  lemma StartAgenda(task: Task, signals: seq<Signal>)
    requires Dated(signals)
    ensures Agenda(Start(task, signals))
  {
    SortInitial(signals);
    var s := Start(task, signals);
    assert s.done + s.queue == s.queue;
  }

  /** A purchase fills at or after its signal's day, and its exit comes on a later day than the fill. */
  lemma ExitComesLater(task: Task, feed: Feed, e: Event, bar: Bar, exit: Event, sequence: nat)
    requires Proper(e) && e.signal.action.Buy? && EventBar(task, feed, e) == Some(bar)
    requires LaterSell(exit, e.signal, bar, sequence)
    ensures bar.day >= e.time.day && exit.time.day > e.time.day && KeyLess(e, exit)
  {
    assert e.bar.None?;
    assert bar.day >= e.signal.time.day;
  }

  lemma StepAgenda(task: Task, feed: Feed, s: Run)
    requires Agenda(s) && s.queue != [] && !s.crashed
    ensures Agenda(Step(task, feed, s))
  {
    hide Judge, SettledExit, SettledBook, SettledTrade, KeyLess;
    var e, rest := s.queue[0], s.queue[1..];
    var v := Judge(task, feed, e, s.book);
    var next := Step(task, feed, s);
    var all := s.done + s.queue;
    assert all == (s.done + [e]) + rest;
    assert e in all;
    FilledInBoardLots(task, feed, e, s.book);
    if v.Fill? {
      var exit := SettledExit(task, feed, e, v, s.nextSequence);
      if exit.Some? {
        ExitComesLater(task, feed, e, v.bar, exit.value, s.nextSequence);
        AgendaInsert(s.done + [e], rest, exit.value, s.nextSequence);
      }
    }
  }

  lemma AgendaInsert(done: seq<Event>, rest: seq<Event>, exit: Event, sequence: nat)
    requires done != [] && Strict(KeyLess, done + rest)
    requires forall e :: e in done + rest ==> Proper(e) && e.sequence < sequence
    requires Proper(exit) && exit.sequence == sequence && KeyLess(done[|done| - 1], exit)
    ensures var queue := SortEvents(rest + [exit]);
            && Strict(KeyLess, done + queue)
            && forall e :: e in done + queue ==> Proper(e) && e.sequence <= sequence
  {
    KeyOrder();
    forall y | y in rest
      ensures KeyLess(exit, y) || KeyLess(y, exit)
    {
      assert y in done + rest;
      Comparable(exit, y);
    }
    InsertBehind(KeyLess, done, rest, exit);
  }

  lemma {:induction false} AgendaAlways(task: Task, feed: Feed, signals: seq<Signal>, n: nat)
    requires Dated(signals)
    ensures Agenda(After(task, feed, Start(task, signals), n))
  {
    hide Step, KeyLess, Proper, Agenda;
    if n == 0 {
      StartAgenda(task, signals);
    } else {
      AgendaAlways(task, feed, signals, n - 1);
      var before := After(task, feed, Start(task, signals), n - 1);
      if before.queue != [] && !before.crashed {
        StepAgenda(task, feed, before);
      }
    }
  }

  /**
   In every reachable state the processed events are strictly ordered by (time, sequence), and every
   event still to come, inserted exits included, lies after all of them.
   */
  lemma NeverIntoThePast(task: Task, feed: Feed, signals: seq<Signal>, n: nat)
    requires Dated(signals)
    ensures var s := After(task, feed, Start(task, signals), n);
            && Strict(KeyLess, s.done)
            && forall a, b :: a in s.done && b in s.queue ==> KeyLess(a, b)
  {
    hide Step, KeyLess, Proper, After;
    AgendaAlways(task, feed, signals, n);
    var s := After(task, feed, Start(task, signals), n);
    var all := s.done + s.queue;
    assert forall i :: 0 <= i < |s.done| ==> all[i] == s.done[i];
    forall a, b | a in s.done && b in s.queue
      ensures KeyLess(a, b)
    {
      var i :| 0 <= i < |s.done| && s.done[i] == a;
      var j :| 0 <= j < |s.queue| && s.queue[j] == b;
      assert all[i] == a && all[|s.done| + j] == b;
    }
  }

  /**
   Without a time a purchase is processed at the end of time: its exit follows it only if it falls on that
   very second.
   */
  lemma UndatedExit(task: Task, feed: Feed, e: Event, bar: Bar, exit: Event)
    requires e.signal.time.Unset? && e.time == SortTime(e.signal.time)
    requires LaterSell(exit, e.signal, bar, exit.sequence) && e.sequence < exit.sequence
    ensures KeyLess(e, exit) <==> exit.time == At(LAST_DAY, DAY_SECONDS - 1)
  {
  }

  // ---------------------------------------------------------------------------
  // 2. One audit row per event, one filled row per trade

  function FilledCount(audits: seq<Audit>): nat {
    if audits == [] then 0
    else FilledCount(audits[..|audits| - 1]) + (if audits[|audits| - 1].status.Filled? then 1 else 0)
  }

  /** Events ever queued are numbered without gaps: the signals, then one exit per purchase at most. */
  ghost predicate Counted(s: Run, signals: nat) {
    && |s.audits| == |s.done|
    && (forall i :: 0 <= i < |s.done| ==> s.audits[i].signal == s.done[i].signal)
    && FilledCount(s.audits) == |s.trades|
    && |s.done| + |s.queue| == s.nextSequence
    && signals <= s.nextSequence <= signals + Total(s.trades, IsPurchase)
  }

  lemma StepCounted(task: Task, feed: Feed, s: Run, signals: nat)
    requires Counted(s, signals) && s.queue != [] && !s.crashed
    ensures Counted(Step(task, feed, s), signals)
  {
    hide Judge, SettledBook, SettledExit, KeyLess, ExactPnl;
    var e, rest := s.queue[0], s.queue[1..];
    var v := Judge(task, feed, e, s.book);
    var next := Step(task, feed, s);
    FilledInBoardLots(task, feed, e, s.book);
    if !v.DivisionByZero? {
      assert next.audits[..|s.audits|] == s.audits;
    }
    if v.Fill? {
      TotalAppend(s.trades, SettledTrade(s.book, e, v), IsPurchase);
    }
  }

  // ---------------------------------------------------------------------------
  // 3. Cash, positions and T+1

  /** What a rate takes of an amount, to the nearest cent. */
  ghost predicate Levied(charge: int, amount: int, rate: real) {
    charge >= 0 && Nearest(charge, amount as real * rate)
  }

  /** A purchase pays the fee; a sale pays the fee and the stamp tax, each rounded by itself. */
  ghost predicate ChargedFor(task: Task, t: Trade) {
    match t.side
    case BuySide => Levied(t.fee, t.amount, task.feeRate)
    case SellSide =>
      exists fee, tax ::
        Levied(fee, t.amount, task.feeRate) && Levied(tax, t.amount, task.stampRate) && t.fee == fee + tax
  }

  ghost predicate GoodTrade(task: Task, t: Trade) {
    && task.start <= t.day <= task.end && t.quantity >= 100 && t.quantity % 100 == 0
    && t.amount * 100 == t.price * t.quantity && t.amount >= 0 && t.fee >= 0 && ChargedFor(task, t)
  }

  /** Shares sold up to a day were bought before it, and so were the shares still available on it. */
  ghost predicate TPlusOneBalance(book: Ledger, trades: seq<Trade>) {
    forall symbol: Symbol, day: int ::
      Total(trades, BoughtBefore(symbol, day)) >= AvailableBefore(book.Lots(symbol), day) +
          Total(trades, SoldUpTo(symbol, day))
  }

  ghost predicate Books(task: Task, book: Ledger, trades: seq<Trade>) {
    && Sound(book)
    && (forall t :: t in trades ==> GoodTrade(task, t))
    && book.cash == task.initialCash + Total(trades, CashEffect)
    && (forall symbol: Symbol :: book.Position(symbol) == Total(trades, HeldEffect(symbol)))
    && TPlusOneBalance(book, trades)
  }

  lemma RatedMonotone(a: real, b: real, rate: real)
    requires 0.0 <= a <= b && rate >= 0.0
    ensures 0.0 <= a * rate <= b * rate
  {
    assert 0.0 <= (b - a) * rate;
  }

  lemma ChargedMonotone(a: real, b: real, rate: real)
    requires 0.0 <= a <= b && rate >= 0.0
    ensures Charged(a, rate) <= Charged(b, rate)
  {
    RatedMonotone(a, b, rate);
    RoundMonotone(a * rate, b * rate);
  }

  lemma ChargeMonotone(a: int, b: real, rate: real)
    requires 0 <= a && a as real <= b && rate >= 0.0
    ensures 0 <= Charge(a, rate) <= Charged(b, rate)
  {
    ChargedMonotone(a as real, b, rate);
    assert Charge(a, rate) == Charged(a as real, rate);
  }

  lemma ChargeIsLevied(amount: int, rate: real)
    requires amount >= 0 && rate >= 0.0
    ensures Levied(Charge(amount, rate), amount, rate)
  {
    ChargeMonotone(amount, amount as real, rate);
    hide Round;
    var x := Rated(amount, rate);
    assert Nearest(Round(x), x);
  }

  lemma JudgedSale(task: Task, signal: Signal, bar: Bar, price: Price, book: Ledger)
    ensures var v := JudgeSell(task, signal, bar, price, book);
            v.Fill? ==>
              && v.bar == bar && v.price == price && v.quantity % 100 == 0
              && v.quantity <= AvailableBefore(book.Lots(signal.symbol), bar.day)
              && v.fee == Charge(Amount(price, v.quantity), task.feeRate)
              && v.tax == Charge(Amount(price, v.quantity), task.stampRate)
              && Levied(v.fee, Amount(price, v.quantity), task.feeRate)
              && Levied(v.tax, Amount(price, v.quantity), task.stampRate)
  {
    hide AvailableBefore, Charge, Levied;
    var v := JudgeSell(task, signal, bar, price, book);
    if v.Fill? {
      var amount := Amount(price, v.quantity);
      AmountNonNegative(price, v.quantity);
      ChargeIsLevied(amount, task.feeRate);
      ChargeIsLevied(amount, task.stampRate);
    }
  }

  /** A sale takes no more than what T+1 makes available on its day. */
  lemma SaleIsCovered(task: Task, feed: Feed, e: Event, book: Ledger)
    ensures var v := Judge(task, feed, e, book);
            v.Fill? && e.signal.action.Sell? ==>
              && v.quantity % 100 == 0 && v.price >= 100
              && v.quantity <= AvailableBefore(book.Lots(e.signal.symbol), v.bar.day)
              && v.fee == Charge(Amount(v.price, v.quantity), task.feeRate)
              && v.tax == Charge(Amount(v.price, v.quantity), task.stampRate)
              && Levied(v.fee, Amount(v.price, v.quantity), task.feeRate)
              && Levied(v.tax, Amount(v.price, v.quantity), task.stampRate)
  {
    hide AvailableBefore, Charge, Levied, JudgeSell, JudgeBuy, LimitBlocked, EventPrice, EventBar;
    var v := Judge(task, feed, e, book);
    if v.Fill? && e.signal.action.Sell? {
      var bar := EventBar(task, feed, e).value;
      JudgedSale(task, e.signal, bar, EventPrice(task, e, bar, SellSide), book);
    }
  }

  /** The fee of a full per-order amount. */
  function FeeCap(task: Task): (cents: int)
    ensures cents >= 0
  {
    Charged(task.singleOrder, task.feeRate)
  }

  function Charged(order: real, rate: real): (cents: int)
    requires order >= 0.0 && rate >= 0.0
    ensures cents >= 0
  {
    RoundWhole(0);
    RoundMonotone(0.0, order * rate);
    Round(order * rate)
  }

  lemma FeeWithinCap(task: Task, amount: int)
    requires 0 <= amount && amount as real <= task.singleOrder
    ensures 0 <= Charge(amount, task.feeRate) <= FeeCap(task)
  {
    ChargeMonotone(amount, task.singleOrder, task.feeRate);
  }

  lemma JudgedPurchase(task: Task, signal: Signal, bar: Bar, price: Price, cash: int)
    ensures var v := JudgeBuy(task, signal, bar, price, cash);
            v.Fill? ==>
              && v.price == price && v.quantity % 100 == 0 && v.tax == 0
              && 0 < Amount(price, v.quantity) <= cash && Amount(price, v.quantity) as real <= task.singleOrder
              && v.fee <= FeeCap(task) && Levied(v.fee, Amount(price, v.quantity), task.feeRate)
  {
    var v := JudgeBuy(task, signal, bar, price, cash);
    if v.Fill? {
      var budget := BuyBudget(task, signal, cash);
      var hands := Hands(budget, price);
      HandsFitBudget(budget, price);
      assert Amount(price, hands * 100) == price * hands by {
        assert hands * 100 / 100 == hands;
      }
      FeeWithinCap(task, price * hands);
      ChargeIsLevied(price * hands, task.feeRate);
    }
  }

  /** A purchase costs, before its fee, no more than the cash in hand and the per-order amount. */
  lemma PurchaseIsWithinBudget(task: Task, feed: Feed, e: Event, book: Ledger)
    ensures var v := Judge(task, feed, e, book);
            v.Fill? && e.signal.action.Buy? ==>
              && v.quantity % 100 == 0 && v.tax == 0
              && 0 < Amount(v.price, v.quantity) <= book.cash && Amount(v.price, v.quantity) as real <= task.singleOrder
              && v.fee <= FeeCap(task) && Levied(v.fee, Amount(v.price, v.quantity), task.feeRate)
  {
    hide JudgeSell, JudgeBuy, LimitBlocked, EventPrice, EventBar, Levied;
    var v := Judge(task, feed, e, book);
    if v.Fill? && e.signal.action.Buy? {
      var bar := EventBar(task, feed, e).value;
      JudgedPurchase(task, e.signal, bar, EventPrice(task, e, bar, BuySide), book.cash);
    }
  }

  lemma HandsFitBudget(budget: real, price: Price)
    requires price > 0 && Hands(budget, price) >= 1
    ensures 0 < price * Hands(budget, price) && (price * Hands(budget, price)) as real <= budget
  {
    var p, h := price as real, Hands(budget, price);
    assert h as real <= budget / p;
    assert p * h as real <= p * (budget / p);
    assert p * (budget / p) == budget;
    assert (price * h) as real == p * h as real;
    assert price * h >= price;
  }

  ghost predicate SaneFill(task: Task, book: Ledger, e: Event, v: Verdict) {
    && Fillable(e, v) && v.quantity >= 100 && task.start <= v.bar.day <= task.end
    && Levied(v.fee, Amount(v.price, v.quantity), task.feeRate)
    && (if e.signal.action.Buy? then v.tax == 0 else Levied(v.tax, Amount(v.price, v.quantity), task.stampRate))
    && (e.signal.action.Sell? ==> v.quantity <= AvailableBefore(book.Lots(e.signal.symbol), v.bar.day))
  }

  lemma FillIsSane(task: Task, feed: Feed, e: Event, book: Ledger)
    ensures Judge(task, feed, e, book).Fill? ==> SaneFill(task, book, e, Judge(task, feed, e, book))
  {
    hide Judge, AvailableBefore, Charge, Levied;
    FilledInBoardLots(task, feed, e, book);
    SaleIsCovered(task, feed, e, book);
    PurchaseIsWithinBudget(task, feed, e, book);
  }

  lemma SettleSound(task: Task, book: Ledger, e: Event, v: Verdict)
    requires Sound(book) && SaneFill(task, book, e, v)
    ensures Sound(SettledBook(book, e, v))
    ensures SettledBook(book, e, v).cash == book.cash + CashEffect(SettledTrade(book, e, v))
    ensures forall x: Symbol ::
              SettledBook(book, e, v).Position(x) == book.Position(x) + HeldEffect(x)(SettledTrade(book, e, v))
  {
    assert v.fee >= 0 && v.tax >= 0;
    hide Levied;
    AmountNonNegative(v.price, v.quantity);
    if e.signal.action.Buy? {
      BoughtKeepsBook(book, e.signal.symbol, v.bar.day, v.price, v.quantity, v.fee);
    } else {
      SoldKeepsBook(book, e.signal.symbol, v.bar.day, v.price, v.quantity, v.fee, v.tax);
    }
    hide Sound, ExactPnl, Consume, AvailableBefore, Amount, BookValue;
  }

  lemma SettleBooks(task: Task, book: Ledger, trades: seq<Trade>, e: Event, v: Verdict)
    requires Books(task, book, trades) && SaneFill(task, book, e, v)
    ensures Books(task, SettledBook(book, e, v), trades + [SettledTrade(book, e, v)])
  {
    var t, after := SettledTrade(book, e, v), SettledBook(book, e, v);
    SettleSound(task, book, e, v);
    TotalAppend(trades, t, CashEffect);
    AmountNonNegative(v.price, v.quantity);
    assert GoodTrade(task, t);
    hide Sound, SettledBook, SettledTrade, SaneFill, GoodTrade, CashEffect, HeldEffect, BoughtBefore, SoldUpTo;
    forall x: Symbol
      ensures after.Position(x) == Total(trades + [t], HeldEffect(x))
    {
      TotalAppend(trades, t, HeldEffect(x));
    }
    forall x: Symbol, day: int
      ensures Total(trades + [t], BoughtBefore(x, day)) >=
                AvailableBefore(after.Lots(x), day) + Total(trades + [t], SoldUpTo(x, day))
    {
      SettleTPlusOne(task, book, trades, e, v, x, day);
    }
  }

  lemma SettleTPlusOne(task: Task, book: Ledger, trades: seq<Trade>, e: Event, v: Verdict, x: Symbol, day: int)
    requires TPlusOneBalance(book, trades) && SaneFill(task, book, e, v)
    ensures var after := trades + [SettledTrade(book, e, v)];
            Total(after, BoughtBefore(x, day)) >=
              AvailableBefore(SettledBook(book, e, v).Lots(x), day) + Total(after, SoldUpTo(x, day))
  {
    var t, after := SettledTrade(book, e, v), SettledBook(book, e, v);
    TotalAppend(trades, t, BoughtBefore(x, day));
    TotalAppend(trades, t, SoldUpTo(x, day));
    assert Total(trades, BoughtBefore(x, day)) >= AvailableBefore(book.Lots(x), day) + Total(trades, SoldUpTo(x, day));
    if x != e.signal.symbol {
      assert after.Lots(x) == book.Lots(x);
    } else if e.signal.action.Buy? {
      AppendLot(book.Lots(x), Lot(v.bar.day, v.quantity, (Amount(v.price, v.quantity) + v.fee) as real), day);
    } else {
      ConsumeShares(book.Lots(x), v.bar.day, v.quantity, day);
    }
  }

  // ---------------------------------------------------------------------------
  // 4. Conservation of value

  /** Cash plus cost of holdings is what was put in plus the recorded profit, up to half a cent per sale. */
  ghost predicate Conserved(task: Task, book: Ledger, trades: seq<Trade>) {
    var drift := BookValue(book) - task.initialCash as real - Total(trades, Profit) as real;
    var allowance := 0.5 * Total(trades, IsSale) as real;
    -allowance <= drift <= allowance
  }

  lemma SettleConserved(task: Task, book: Ledger, trades: seq<Trade>, e: Event, v: Verdict)
    requires Sound(book) && Conserved(task, book, trades) && SaneFill(task, book, e, v)
    ensures Conserved(task, SettledBook(book, e, v), trades + [SettledTrade(book, e, v)])
  {
    hide BookValue, Sound, ExactPnl;
    var t := SettledTrade(book, e, v);
    TotalAppend(trades, t, Profit);
    TotalAppend(trades, t, IsSale);
    if e.signal.action.Buy? {
      BoughtKeepsBook(book, e.signal.symbol, v.bar.day, v.price, v.quantity, v.fee);
    } else {
      SoldKeepsBook(book, e.signal.symbol, v.bar.day, v.price, v.quantity, v.fee, v.tax);
    }
  }

  lemma BooksAreSound(task: Task, book: Ledger, trades: seq<Trade>)
    requires Books(task, book, trades)
    ensures Sound(book)
  {
  }

  /** What one iteration does to ledger and trades. */
  lemma StepBooks(task: Task, feed: Feed, s: Run)
    requires s.queue != [] && !s.crashed
    ensures var e, next := s.queue[0], Step(task, feed, s);
            var v := Judge(task, feed, e, s.book);
            && (v.Fill? ==> Fillable(e, v))
            && next.book == (if v.Fill? then SettledBook(s.book, e, v) else s.book)
            && next.trades == if v.Fill? then s.trades + [SettledTrade(s.book, e, v)] else s.trades
  {
    hide Judge, SettledTrade, SettledBook, SettledExit, SortEvents;
    FilledInBoardLots(task, feed, s.queue[0], s.book);
  }

  // ---------------------------------------------------------------------------
  // 5. Every reachable state

  ghost predicate Kept(task: Task, s: Run, signals: nat) {
    Books(task, s.book, s.trades) && Conserved(task, s.book, s.trades) && Counted(s, signals)
  }

  lemma StartKept(task: Task, signals: seq<Signal>)
    ensures var s := Start(task, signals); Kept(task, s, |signals|)
  {
    var s := Start(task, signals);
    assert LotCosts(s.book) == map[];
  }

  lemma {:induction false} AlwaysKept(task: Task, feed: Feed, signals: seq<Signal>, n: nat)
    ensures var s := After(task, feed, Start(task, signals), n);
            Kept(task, s, |signals|)
  {
    hide Step, Books, Conserved, Counted, Sound, TPlusOneBalance, Judge, SettledBook, SettledTrade, SaneFill;
    if n == 0 {
      StartKept(task, signals);
    } else {
      AlwaysKept(task, feed, signals, n - 1);
      var before := After(task, feed, Start(task, signals), n - 1);
      if before.queue != [] && !before.crashed {
        var e := before.queue[0];
        var v := Judge(task, feed, e, before.book);
        StepBooks(task, feed, before);
        if v.Fill? {
          FillIsSane(task, feed, e, before.book);
          BooksAreSound(task, before.book, before.trades);
          SettleBooks(task, before.book, before.trades, e, v);
          SettleConserved(task, before.book, before.trades, e, v);
        }
        StepCounted(task, feed, before, |signals|);
      }
    }
  }

  // ---------------------------------------------------------------------------
  // 6. Overdraft

  /** At no amount a sale can have do fee and tax, each rounded to cents, exceed it. */
  ghost predicate RatesPay(task: Task) {
    forall amount :: amount >= 100 ==> Charge(amount, task.feeRate) + Charge(amount, task.stampRate) <= amount
  }

  /** The fee is added after the order is sized, so cash may go below zero, but by no more than one order's fee. */
  ghost predicate WithinOverdraft(task: Task, s: Run) {
    s.book.cash >= -FeeCap(task)
  }

  lemma ProceedsNonNegative(amount: int, feeRate: real, stampRate: real)
    requires amount >= 100 && feeRate >= 0.0 && stampRate >= 0.0 && feeRate + stampRate <= 0.99
    ensures amount - Charge(amount, feeRate) - Charge(amount, stampRate) >= 0
  {
    ScaledRates(amount, feeRate, stampRate);
    hide Rated, Round;
    RoundedSum(Rated(amount, feeRate), Rated(amount, stampRate), amount);
  }

  /** Rates of at most 0.99 together always do; rates of more than 1 together never do. */
  lemma RatesThatPay(task: Task)
    ensures task.feeRate + task.stampRate <= 0.99 ==> RatesPay(task)
    ensures RatesPay(task) ==> task.feeRate + task.stampRate <= 1.0
  {
    var f, t := task.feeRate, task.stampRate;
    if f + t <= 0.99 {
      forall amount | amount >= 100
        ensures Charge(amount, f) + Charge(amount, t) <= amount
      {
        ProceedsNonNegative(amount, f, t);
      }
    } else if f + t > 1.0 {
      var amount := LargeAmountLoses(f, t);
    }
  }

  lemma Reciprocal(x: real)
    requires x > 0.0
    ensures 1.0 / x * x == 1.0
  {
  }

  lemma ProductAbove(q: real, a: real, excess: real, bound: real)
    requires excess > 0.0 && q * excess == bound && a > q
    ensures a * excess > bound
  {
    TimesPositive(q, a, excess);
  }

  lemma Above(q: real) returns (amount: int)
    ensures amount >= 100 && amount as real > q
  {
    amount := if q.Floor + 1 >= 100 then q.Floor + 1 else 100;
  }

  lemma RatedTogether(amount: int, f: real, t: real, bound: real)
    requires amount as real * (f + t - 1.0) > bound
    ensures Rated(amount, f) + Rated(amount, t) > amount as real + bound
  {
    var a := amount as real;
    assert a * f + a * t == a * (f + t);
    assert a * (f + t) == a + a * (f + t - 1.0);
  }

  lemma LargeAmountLoses(f: real, t: real) returns (amount: int)
    requires f + t > 1.0
    ensures amount >= 100 && Charge(amount, f) + Charge(amount, t) > amount
  {
    hide Rated, Round;
    var q := 1.0 / (f + t - 1.0);
    amount := Above(q);
    Reciprocal(f + t - 1.0);
    ProductAbove(q, amount as real, f + t - 1.0, 1.0);
    RatedTogether(amount, f, t, 1.0);
    RoundedAbove(Rated(amount, f), Rated(amount, t), amount);
  }

  lemma RoundedAbove(x: real, y: real, amount: int)
    requires x + y > amount as real + 1.0
    ensures Round(x) + Round(y) > amount
  {
    var fee, tax := Round(x), Round(y);
    assert fee as real >= x - 0.5 && tax as real >= y - 0.5;
    assert (fee + tax) as real == fee as real + tax as real;
  }

  /** Exactly at such rates does every sale that the broker can judge pay for its own fee and tax. */
  lemma RatesPayIff(task: Task)
    ensures RatesPay(task) <==> forall signal, bar, price: Price, book ::
              price >= 100 && JudgeSell(task, signal, bar, price, book).Fill? ==>
                  Pays(JudgeSell(task, signal, bar, price, book))
  {
    if RatesPay(task) {
      forall signal, bar, price: Price, book | price >= 100 && JudgeSell(task, signal, bar, price, book).Fill?
        ensures Pays(JudgeSell(task, signal, bar, price, book))
      {
        SalePaysAt(task, signal, bar, price, book);
      }
    } else {
      var amount :| amount >= 100 && Charge(amount, task.feeRate) + Charge(amount, task.stampRate) > amount;
      LosingSale(task, amount);
    }
  }

  predicate Pays(v: Verdict) {
    v.Fill? && v.quantity % 100 == 0 && v.fee + v.tax <= Amount(v.price, v.quantity)
  }

  lemma SalePaysAt(task: Task, signal: Signal, bar: Bar, price: Price, book: Ledger)
    requires RatesPay(task) && price >= 100 && JudgeSell(task, signal, bar, price, book).Fill?
    ensures Pays(JudgeSell(task, signal, bar, price, book))
  {
    JudgedSale(task, signal, bar, price, book);
    var v := JudgeSell(task, signal, bar, price, book);
    assert v.quantity >= 100;
    hide JudgeSell, Charge;
    SaleAmount(price, v.quantity);
  }

  /** One board lot at a price of `amount` sells for that many cents. */
  lemma LosingSale(task: Task, amount: Price)
    requires amount >= 100 && Charge(amount, task.feeRate) + Charge(amount, task.stampRate) > amount
    ensures exists signal, bar, price: Price, book :: price >= 100 && JudgeSell(task, signal, bar, price, book).Fill? &&
              !Pays(JudgeSell(task, signal, bar, price, book))
  {
    var signal := Signal("", Sell, OnDay(1), Missing, Missing, Missing, Missing, None, Missing, Missing, Missing,
        false);
    var bar := Bar(1, amount, amount, amount, amount, 1, false, None);
    var lots := [Lot(0, 100, 0.0)];
    var book := Ledger(0, map["" := 100], map["" := 0.0], map["" := lots]);
    assert lots[1..] == [];
    assert AvailableBefore(lots, 1) == 100;
    assert Amount(amount, 100) == amount;
    hide Charge;
    var v := JudgeSell(task, signal, bar, amount, book);
    assert v == Fill(bar, amount, 100, Charge(amount, task.feeRate), Charge(amount, task.stampRate));
    assert !Pays(v);
  }

  lemma ScaledRates(amount: int, f: real, t: real)
    requires amount >= 0 && f + t <= 0.99
    ensures Rated(amount, f) + Rated(amount, t) <= 0.99 * amount as real
  {
    var a := amount as real;
    assert a * f + a * t == a * (f + t);
  }

  lemma RoundedSum(x: real, y: real, amount: int)
    requires amount >= 100 && x + y <= 0.99 * amount as real
    ensures Round(x) + Round(y) <= amount
  {
    var fee, tax := Round(x), Round(y);
    assert fee as real <= x + 0.5 && tax as real <= y + 0.5;
    assert fee as real + tax as real <= 0.99 * amount as real + 1.0 <= amount as real;
    assert (fee + tax) as real == fee as real + tax as real;
  }

  /** No sale of the list cost more in fee and tax than it brought in. */
  ghost predicate SalesPay(trades: seq<Trade>) {
    forall t :: t in trades && t.side.SellSide? ==> t.amount >= t.fee
  }

  lemma StepOverdraft(task: Task, feed: Feed, s: Run)
    requires WithinOverdraft(task, s) && s.queue != [] && !s.crashed && SalesPay(Step(task, feed, s).trades)
    ensures WithinOverdraft(task, Step(task, feed, s))
  {
    hide Judge, ExactPnl, SettledExit, SortEvents, FeeCap;
    var e := s.queue[0];
    var v := Judge(task, feed, e, s.book);
    var next := Step(task, feed, s);
    FilledInBoardLots(task, feed, e, s.book);
    PurchaseIsWithinBudget(task, feed, e, s.book);
    if v.Fill? && e.signal.action.Sell? {
      assert SettledTrade(s.book, e, v) in next.trades;
    }
  }

  /** At such rates every sale pays. */
  lemma StepSalesPay(task: Task, feed: Feed, s: Run)
    requires RatesPay(task) && SalesPay(s.trades) && s.queue != [] && !s.crashed
    ensures SalesPay(Step(task, feed, s).trades)
  {
    var e := s.queue[0];
    var v := Judge(task, feed, e, s.book);
    FilledInBoardLots(task, feed, e, s.book);
    SaleIsCovered(task, feed, e, s.book);
    if v.Fill? && e.signal.action.Sell? {
      SaleAmount(v.price, v.quantity);
    }
    hide Judge, ExactPnl, SettledExit, SortEvents, SettledBook;
  }

  lemma SaleAmount(price: Price, quantity: nat)
    requires price >= 100 && quantity >= 100 && quantity % 100 == 0
    ensures Amount(price, quantity) >= 100
  {
    var hands := quantity / 100;
    assert price * hands >= price;
  }

  /** As long as no sale has cost more than it brought in. */
  lemma {:induction false} OverdraftBound(task: Task, feed: Feed, signals: seq<Signal>, n: nat)
    requires SalesPay(After(task, feed, Start(task, signals), n).trades)
    ensures WithinOverdraft(task, After(task, feed, Start(task, signals), n))
  {
    hide Step, SalesPay;
    if n == 0 {
      RoundWhole(0);
      RoundMonotone(0.0, task.singleOrder * task.feeRate);
    } else {
      var before := After(task, feed, Start(task, signals), n - 1);
      if before.queue != [] && !before.crashed {
        EarlierSalesPay(task, feed, before);
        OverdraftBound(task, feed, signals, n - 1);
        StepOverdraft(task, feed, before);
      } else {
        OverdraftBound(task, feed, signals, n - 1);
      }
    }
  }

  lemma EarlierSalesPay(task: Task, feed: Feed, s: Run)
    requires s.queue != [] && !s.crashed && SalesPay(Step(task, feed, s).trades)
    ensures SalesPay(s.trades)
  {
    hide Judge, ExactPnl, SettledExit, SortEvents, SettledBook;
    assert forall t :: t in s.trades ==> t in Step(task, feed, s).trades;
  }

  lemma {:induction false} RunSalesPay(task: Task, feed: Feed, signals: seq<Signal>, n: nat)
    requires RatesPay(task)
    ensures SalesPay(After(task, feed, Start(task, signals), n).trades)
  {
    hide Step;
    if n > 0 {
      RunSalesPay(task, feed, signals, n - 1);
      var before := After(task, feed, Start(task, signals), n - 1);
      if before.queue != [] && !before.crashed {
        StepSalesPay(task, feed, before);
      }
    }
  }

  /** With no cash left nothing is bought. */
  lemma NoCashNoPurchase(task: Task, feed: Feed, e: Event, book: Ledger)
    requires book.cash <= 0
    ensures Judge(task, feed, e, book).Fill? ==> e.signal.action.Sell?
  {
    PurchaseIsWithinBudget(task, feed, e, book);
    FilledInBoardLots(task, feed, e, book);
  }
}
