/**
 The ledger kept while trading and the account rebuilt from the trade list by date are the same account,
 although trades are not appended in date order.
 */
module MetricsAgreement {
  import opened Broker
  import opened BrokerRuns
  import opened Clock
  import opened Ledgers
  import opened Market
  import opened Metrics
  import opened Rounding
  import opened Signals
  import opened TradeLog

  // ---------------------------------------------------------------------------
  // Grouping by date loses and adds nothing

  /** The trades on the listed days, in list order. */
  function Keep(trades: seq<Trade>, days: set<Day>): seq<Trade> {
    if trades == [] then []
    else if trades[|trades| - 1].day in days then Keep(trades[..|trades| - 1], days) + [trades[|trades| - 1]]
    else Keep(trades[..|trades| - 1], days)
  }

  lemma {:induction false} KeepOneMoreDay(trades: seq<Trade>, days: set<Day>, day: Day, f: Trade -> int)
    requires day !in days
    ensures Total(Keep(trades, days + {day}), f) == Total(Keep(trades, days), f) + Total(DayTrades(trades, day), f)
  {
    if trades != [] {
      var front, t := trades[..|trades| - 1], trades[|trades| - 1];
      KeepOneMoreDay(front, days, day, f);
      TotalAppend(Keep(front, days + {day}), t, f);
      TotalAppend(Keep(front, days), t, f);
      TotalAppend(DayTrades(front, day), t, f);
    }
  }

  function Days(dates: seq<Day>): set<Day> {
    set d | d in dates
  }

  lemma {:induction false} ByDateTotal(trades: seq<Trade>, dates: seq<Day>, f: Trade -> int)
    requires Ascending(dates)
    ensures Total(ByDate(trades, dates), f) == Total(Keep(trades, Days(dates)), f)
  {
    if dates == [] {
      assert Days(dates) == {};
      KeepNothing(trades);
    } else {
      var front, last := dates[..|dates| - 1], dates[|dates| - 1];
      ByDateTotal(trades, front, f);
      TotalConcat(ByDate(trades, front), DayTrades(trades, last), f);
      assert Days(dates) == Days(front) + {last};
      KeepOneMoreDay(trades, Days(front), last, f);
    }
  }

  lemma {:induction false} KeepNothing(trades: seq<Trade>)
    ensures Keep(trades, {}) == []
  {
    if trades != [] {
      KeepNothing(trades[..|trades| - 1]);
    }
  }

  lemma {:induction false} KeepEverything(trades: seq<Trade>, days: set<Day>)
    requires forall t :: t in trades ==> t.day in days
    ensures Keep(trades, days) == trades
  {
    if trades != [] {
      assert trades[|trades| - 1] in trades;
      KeepEverything(trades[..|trades| - 1], days);
    }
  }

  /** Comparing totals over kept trades with totals over all of them. */
  lemma {:induction false} KeepTotal(trades: seq<Trade>, days: set<Day>, f: Trade -> int, g: Trade -> int)
    requires forall t :: t in trades ==> (if t.day in days then f(t) else 0) <= g(t)
    ensures Total(Keep(trades, days), f) <= Total(trades, g)
  {
    if trades != [] {
      var front, t := trades[..|trades| - 1], trades[|trades| - 1];
      assert t in trades;
      KeepTotal(front, days, f, g);
      TotalAppend(Keep(front, days), t, f);
    }
  }

  lemma {:induction false} KeepTotalBelow(trades: seq<Trade>, days: set<Day>, f: Trade -> int, g: Trade -> int)
    requires forall t :: t in trades ==> (if t.day in days then f(t) else 0) >= g(t)
    ensures Total(Keep(trades, days), f) >= Total(trades, g)
  {
    if trades != [] {
      var front, t := trades[..|trades| - 1], trades[|trades| - 1];
      assert t in trades;
      KeepTotalBelow(front, days, f, g);
      TotalAppend(Keep(front, days), t, f);
    }
  }

  // ---------------------------------------------------------------------------
  // A replay whose prefixes never oversell is exact

  function Shares(symbol: Symbol): Trade -> int {
    (t: Trade) => if t.symbol == symbol && t.side.BuySide? then t.quantity as int else 0
  }

  function Sales(symbol: Symbol): Trade -> int {
    (t: Trade) => if t.symbol == symbol && t.side.SellSide? then t.quantity as int else 0
  }

  /** No prefix of the log sells more of a stock than it bought. */
  ghost predicate NeverOversold(log: seq<Trade>) {
    forall k: nat, symbol: Symbol :: k <= |log| ==> Total(log[..k], HeldEffect(symbol)) >= 0
  }

  lemma {:induction false} ExactReplay(cash: int, log: seq<Trade>, symbol: Symbol)
    requires NeverOversold(log)
    ensures var r := ReplayAll(Replay(cash, map[]), log);
            r.cash == cash + Total(log, CashEffect) && r.Position(symbol) == Total(log, HeldEffect(symbol))
  {
    if log != [] {
      var front, t := log[..|log| - 1], log[|log| - 1];
      forall k: nat, s: Symbol | k <= |front|
        ensures Total(front[..k], HeldEffect(s)) >= 0
      {
        assert front[..k] == log[..k];
      }
      ExactReplay(cash, front, symbol);
      assert log[..|log|] == log;
      assert Total(log, HeldEffect(symbol)) >= 0;
    }
  }

  /** Cash needs no condition: it is always what the listed days' trades add up to. */
  lemma {:induction false} ReplayCash(cash: int, log: seq<Trade>)
    ensures ReplayAll(Replay(cash, map[]), log).cash == cash + Total(log, CashEffect)
  {
    if log != [] {
      ReplayCash(cash, log[..|log| - 1]);
    }
  }

  // ---------------------------------------------------------------------------
  // T+1 keeps the date-ordered replay from overselling

  ghost predicate Covered(trades: seq<Trade>, dates: seq<Day>) {
    forall t :: t in trades ==> t.day in dates
  }

  /** Every sold share was bought on a strictly earlier day, counted per stock and day. */
  ghost predicate SoldAfterBought(trades: seq<Trade>) {
    forall symbol: Symbol, day: int :: Total(trades, BoughtBefore(symbol, day)) >= Total(trades, SoldUpTo(symbol, day))
  }

  lemma {:induction false} HeldSplits(log: seq<Trade>, symbol: Symbol)
    ensures Total(log, HeldEffect(symbol)) == Total(log, Shares(symbol)) - Total(log, Sales(symbol))
  {
    if log != [] {
      HeldSplits(log[..|log| - 1], symbol);
    }
  }

  lemma {:induction false} TotalNonNegative(log: seq<Trade>, f: Trade -> int)
    requires forall t: Trade :: f(t) >= 0
    ensures Total(log, f) >= 0
  {
    if log != [] {
      TotalNonNegative(log[..|log| - 1], f);
    }
  }

  lemma PrefixTotal(log: seq<Trade>, k: nat, f: Trade -> int)
    requires k <= |log| && forall t: Trade :: f(t) >= 0
    ensures Total(log[..k], f) <= Total(log, f)
  {
    assert log == log[..k] + log[k..];
    TotalConcat(log[..k], log[k..], f);
    TotalNonNegative(log[k..], f);
  }

  /** All that was bought before a day is in once the earlier days are replayed. */
  lemma EarlierPurchases(trades: seq<Trade>, dates: seq<Day>, i: nat, symbol: Symbol)
    requires Ascending(dates) && Covered(trades, dates) && i < |dates|
    ensures Total(ByDate(trades, dates[..i]), Shares(symbol)) >= Total(trades, BoughtBefore(symbol, dates[i]))
  {
    ByDateTotal(trades, dates[..i], Shares(symbol));
    forall t | t in trades
      ensures (if t.day in Days(dates[..i]) then Shares(symbol)(t) else 0) >= BoughtBefore(symbol, dates[i])(t)
    {
      EarlierDay(dates, i, t.day);
    }
    KeepTotalBelow(trades, Days(dates[..i]), Shares(symbol), BoughtBefore(symbol, dates[i]));
  }

  /** Nothing sold after a day is in while that day is replayed. */
  lemma NoLaterSales(trades: seq<Trade>, dates: seq<Day>, i: nat, symbol: Symbol)
    requires Ascending(dates) && Covered(trades, dates) && i < |dates|
    ensures Total(ByDate(trades, dates[..i + 1]), Sales(symbol)) <= Total(trades, SoldUpTo(symbol, dates[i]))
  {
    ByDateTotal(trades, dates[..i + 1], Sales(symbol));
    forall t | t in trades
      ensures (if t.day in Days(dates[..i + 1]) then Sales(symbol)(t) else 0) <= SoldUpTo(symbol, dates[i])(t)
    {
      EarlierDay(dates, i + 1, t.day);
    }
    KeepTotal(trades, Days(dates[..i + 1]), Sales(symbol), SoldUpTo(symbol, dates[i]));
  }

  /** In the middle of day `i`: everything bought before it is in, nothing sold after it is. */
  lemma MidDay(trades: seq<Trade>, dates: seq<Day>, i: nat, k: nat, symbol: Symbol)
    requires Ascending(dates) && Covered(trades, dates) && SoldAfterBought(trades)
    requires i < |dates| && k <= |DayTrades(trades, dates[i])|
    ensures Total(ByDate(trades, dates[..i]) + DayTrades(trades, dates[i])[..k], HeldEffect(symbol)) >= 0
  {
    var before, today := ByDate(trades, dates[..i]), DayTrades(trades, dates[i]);
    HeldSplits(before + today[..k], symbol);
    TotalConcat(before, today[..k], Shares(symbol));
    TotalNonNegative(today[..k], Shares(symbol));
    EarlierPurchases(trades, dates, i, symbol);
    TotalConcat(before, today[..k], Sales(symbol));
    PrefixTotal(today, k, Sales(symbol));
    TotalConcat(before, today, Sales(symbol));
    assert dates[..i + 1][..i] == dates[..i];
    NoLaterSales(trades, dates, i, symbol);
    assert Total(trades, BoughtBefore(symbol, dates[i])) >= Total(trades, SoldUpTo(symbol, dates[i]));
  }

  lemma EarlierDay(dates: seq<Day>, i: nat, day: Day)
    requires Ascending(dates) && i <= |dates| && day in dates
    ensures i < |dates| ==> (day in Days(dates[..i]) <==> day < dates[i])
    ensures 0 < i ==> (day in Days(dates[..i]) <==> day <= dates[i - 1])
  {
    var j :| 0 <= j < |dates| && dates[j] == day;
    if j < i {
      assert dates[..i][j] == day;
    }
  }

  lemma PrefixOfConcat<T>(a: seq<T>, b: seq<T>, n: nat)
    requires n <= |a + b|
    ensures (a + b)[..n] == if n >= |a| then a + b[..n - |a|] else a[..n]
  {
  }

  /** Where a prefix of the date-ordered list ends. */
  lemma {:induction false} PrefixOfByDate(trades: seq<Trade>, dates: seq<Day>, n: nat) returns (i: nat, k: nat)
    requires dates != [] && n <= |ByDate(trades, dates)|
    ensures i < |dates| && k <= |DayTrades(trades, dates[i])|
    ensures ByDate(trades, dates)[..n] == ByDate(trades, dates[..i]) + DayTrades(trades, dates[i])[..k]
  {
    var front, last := dates[..|dates| - 1], dates[|dates| - 1];
    var before, today := ByDate(trades, front), DayTrades(trades, last);
    assert ByDate(trades, dates) == before + today;
    assert front == [] ==> before == [];
    hide ByDate, DayTrades;
    PrefixOfConcat(before, today, n);
    if n >= |before| {
      i, k := |dates| - 1, n - |before|;
    } else {
      i, k := PrefixOfByDate(trades, front, n);
      assert front[..i] == dates[..i] && front[i] == dates[i];
    }
  }

  lemma DateOrderNeverOversells(trades: seq<Trade>, dates: seq<Day>)
    requires Ascending(dates) && Covered(trades, dates) && SoldAfterBought(trades)
    ensures NeverOversold(ByDate(trades, dates))
  {
    var log := ByDate(trades, dates);
    forall n: nat, symbol: Symbol | n <= |log|
      ensures Total(log[..n], HeldEffect(symbol)) >= 0
    {
      if dates != [] {
        var i, k := PrefixOfByDate(trades, dates, n);
        MidDay(trades, dates, i, k, symbol);
      }
    }
  }

  // ---------------------------------------------------------------------------
  // The two accounts

  lemma RunSellsAfterBuying(task: Task, s: Run)
    requires Books(task, s.book, s.trades)
    ensures SoldAfterBought(s.trades)
  {
    forall symbol: Symbol, day: int
      ensures Total(s.trades, BoughtBefore(symbol, day)) >= Total(s.trades, SoldUpTo(symbol, day))
    {
      assert Total(s.trades, BoughtBefore(symbol, day))
          >= AvailableBefore(s.book.Lots(symbol), day) + Total(s.trades, SoldUpTo(symbol, day));
    }
  }

  /**
   In every reachable state, if each trade day is among the dates, the replay by date never reaches its
   clamp at any point and ends with exactly the ledger's cash and positions.
   */
  lemma AccountsAgree(task: Task, feed: Feed, signals: seq<Signal>, n: nat, symbol: Symbol)
    requires Covered(After(task, feed, Start(task, signals), n).trades, Dates(task, feed))
    ensures var s := After(task, feed, Start(task, signals), n);
            var dates := Dates(task, feed);
            var end := AccountAfter(task, s.trades, dates, |dates|);
            && NeverOversold(ByDate(s.trades, dates))
            && end.cash == s.book.cash
            && end.Position(symbol) == s.book.Position(symbol)
  {
    hide Step, After, Dates, Conserved, Counted, TPlusOneBalance, Sound;
    var s := After(task, feed, Start(task, signals), n);
    var dates := Dates(task, feed);
    AlwaysKept(task, feed, signals, n);
    RunSellsAfterBuying(task, s);
    DatesAscend(task, feed);
    DateOrderNeverOversells(s.trades, dates);
    assert dates[..|dates|] == dates;
    ExactReplay(task.initialCash, ByDate(s.trades, dates), symbol);
    ByDateTotal(s.trades, dates, CashEffect);
    ByDateTotal(s.trades, dates, HeldEffect(symbol));
    KeepEverything(s.trades, Days(dates));
  }

  lemma DatesAscend(task: Task, feed: Feed)
    ensures Ascending(Dates(task, feed))
  {
  }

  /** Whatever the coverage, the cash the metrics report misses exactly the trades on days without a daily bar. */
  lemma CashGap(task: Task, feed: Feed, signals: seq<Signal>, n: nat)
    ensures var s := After(task, feed, Start(task, signals), n);
            var dates := Dates(task, feed);
            s.book.cash - AccountAfter(task, s.trades, dates, |dates|).cash ==
              Total(s.trades, CashEffect) - Total(Keep(s.trades, Days(dates)), CashEffect)
  {
    hide Step, After, Dates, Conserved, Counted, TPlusOneBalance, Sound;
    var s := After(task, feed, Start(task, signals), n);
    var dates := Dates(task, feed);
    AlwaysKept(task, feed, signals, n);
    DatesAscend(task, feed);
    assert dates[..|dates|] == dates;
    ReplayCash(task.initialCash, ByDate(s.trades, dates));
    ByDateTotal(s.trades, dates, CashEffect);
  }

  // ---------------------------------------------------------------------------
  // Positions on days without a bar

  /** How far the deepest prefix of the log oversells a stock. */
  function Shortfall(log: seq<Trade>, symbol: Symbol): nat {
    if log == [] then 0 else Max(Shortfall(log[..|log| - 1], symbol), -Total(log, HeldEffect(symbol)))
  }

  /** It is the largest oversold amount over all prefixes. */
  lemma {:induction false} ShortfallIsDeepest(log: seq<Trade>, symbol: Symbol)
    ensures forall k :: 0 <= k <= |log| ==> -Total(log[..k], HeldEffect(symbol)) <= Shortfall(log, symbol)
    ensures exists k :: 0 <= k <= |log| && -Total(log[..k], HeldEffect(symbol)) == Shortfall(log, symbol)
  {
    assert log[..|log|] == log;
    if log == [] {
      assert Total(log[..0], HeldEffect(symbol)) == 0;
    } else {
      var front := log[..|log| - 1];
      ShortfallIsDeepest(front, symbol);
      assert forall k :: 0 <= k <= |front| ==> front[..k] == log[..k];
      if Shortfall(log, symbol) == Shortfall(front, symbol) {
        var k :| 0 <= k <= |front| && -Total(front[..k], HeldEffect(symbol)) == Shortfall(front, symbol);
        assert log[..k] == front[..k];
      } else {
        assert -Total(log[..|log|], HeldEffect(symbol)) == Shortfall(log, symbol);
      }
    }
  }

  /** Whatever the log, the clamped replay ends with what the log adds up to plus the shortfall it forgave. */
  lemma {:induction false} ClampedReplay(cash: int, log: seq<Trade>, symbol: Symbol)
    ensures ReplayAll(Replay(cash, map[]), log).Position(symbol) ==
              Total(log, HeldEffect(symbol)) + Shortfall(log, symbol)
  {
    if log != [] {
      var front, t := log[..|log| - 1], log[|log| - 1];
      ClampedReplay(cash, front, symbol);
      var r := ReplayAll(Replay(cash, map[]), front);
      assert ReplayAll(Replay(cash, map[]), log) == ReplayTrade(r, t);
      hide ReplayAll;
      ShortfallIsDeepest(front, symbol);
      assert front[..|front|] == front;
    }
  }

  /**
   Whatever the coverage, the position the metrics end with differs from the ledger's by exactly the shares of the
   trades on days without a bar, less the shortfall their absence made the replay forgive.
   */
  lemma PositionGap(task: Task, feed: Feed, signals: seq<Signal>, n: nat, symbol: Symbol)
    ensures var s := After(task, feed, Start(task, signals), n);
            var dates := Dates(task, feed);
            s.book.Position(symbol) - AccountAfter(task, s.trades, dates, |dates|).Position(symbol) ==
              Total(s.trades, HeldEffect(symbol)) - Total(Keep(s.trades, Days(dates)), HeldEffect(symbol))
              - Shortfall(ByDate(s.trades, dates), symbol)
  {
    hide Step, After, Dates, Conserved, Counted, TPlusOneBalance, Sound, Shortfall, ReplayAll;
    var s := After(task, feed, Start(task, signals), n);
    var dates := Dates(task, feed);
    AlwaysKept(task, feed, signals, n);
    DatesAscend(task, feed);
    assert dates[..|dates|] == dates;
    ClampedReplay(task.initialCash, ByDate(s.trades, dates), symbol);
    ByDateTotal(s.trades, dates, HeldEffect(symbol));
  }

  // ---------------------------------------------------------------------------
  // Each row is the account of its own day

  function CashUpTo(day: int): Trade -> int {
    (t: Trade) => if t.day <= day then CashEffect(t) else 0
  }

  function HeldUpTo(symbol: Symbol, day: int): Trade -> int {
    (t: Trade) => if t.day <= day then HeldEffect(symbol)(t) else 0
  }

  /** The trades of the first days, whatever their place in the list, are those dated up to the last of these days. */
  lemma FirstDaysTotal(trades: seq<Trade>, dates: seq<Day>, i: nat, f: Trade -> int, g: Trade -> int)
    requires Ascending(dates) && Covered(trades, dates) && i < |dates|
    requires forall t :: g(t) == if t.day <= dates[i] then f(t) else 0
    ensures Total(ByDate(trades, dates[..i + 1]), f) == Total(trades, g)
  {
    ByDateTotal(trades, dates[..i + 1], f);
    forall t | t in trades
      ensures (if t.day in Days(dates[..i + 1]) then f(t) else 0) == g(t)
    {
      EarlierDay(dates, i + 1, t.day);
    }
    KeepTotal(trades, Days(dates[..i + 1]), f, g);
    KeepTotalBelow(trades, Days(dates[..i + 1]), f, g);
  }

  lemma {:induction false} ByDatePrefix(trades: seq<Trade>, dates: seq<Day>, i: nat)
    requires i <= |dates|
    ensures ByDate(trades, dates[..i]) <= ByDate(trades, dates)
  {
    if i == |dates| {
      assert dates[..i] == dates;
    } else {
      var front := dates[..|dates| - 1];
      assert front[..i] == dates[..i];
      ByDatePrefix(trades, front, i);
    }
  }

  lemma PrefixNeverOversold(log: seq<Trade>, few: seq<Trade>)
    requires NeverOversold(log) && few <= log
    ensures NeverOversold(few)
  {
    forall k: nat, symbol: Symbol | k <= |few|
      ensures Total(few[..k], HeldEffect(symbol)) >= 0
    {
      assert few[..k] == log[..k];
    }
  }

  /**
   In every reachable state whose trade days are all covered, each row of the metrics is the account of its own day:
   its cash and positions are what the trades dated up to that day add up to.
   */
  lemma RowsAgree(task: Task, feed: Feed, signals: seq<Signal>, n: nat, symbol: Symbol, i: nat)
    requires Covered(After(task, feed, Start(task, signals), n).trades, Dates(task, feed)) && i < |Dates(task, feed)|
    ensures var s := After(task, feed, Start(task, signals), n);
            var dates := Dates(task, feed);
            var r := AccountAfter(task, s.trades, dates, i + 1);
            && r.cash == task.initialCash + Total(s.trades, CashUpTo(dates[i]))
            && r.Position(symbol) == Total(s.trades, HeldUpTo(symbol, dates[i]))
            && RowAt(task, feed, s.trades, dates, i).cash == r.cash
  {
    hide Step, After, Dates, Conserved, Counted, TPlusOneBalance, Sound, MarketValue, ByDate, ReplayAll, Peak,
      HeldEffect;
    var s := After(task, feed, Start(task, signals), n);
    var dates := Dates(task, feed);
    AlwaysKept(task, feed, signals, n);
    RunSellsAfterBuying(task, s);
    DatesAscend(task, feed);
    DateOrderNeverOversells(s.trades, dates);
    ByDatePrefix(s.trades, dates, i + 1);
    hide Books, SoldAfterBought, Covered, NeverOversold, Ascending;
    PrefixNeverOversold(ByDate(s.trades, dates), ByDate(s.trades, dates[..i + 1]));
    ExactReplay(task.initialCash, ByDate(s.trades, dates[..i + 1]), symbol);
    FirstDaysTotal(s.trades, dates, i, CashEffect, CashUpTo(dates[i]));
    FirstDaysTotal(s.trades, dates, i, HeldEffect(symbol), HeldUpTo(symbol, dates[i]));
  }
}
