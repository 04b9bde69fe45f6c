/**
 The accounts of a run agree whenever its data leave no minute bar on a day without a daily bar: a condition on the
 inputs, from which every trade of every run falls on a day the metrics replay.
 */
module TradeDays {
  import opened AutoExit
  import opened Broker
  import opened BrokerRuns
  import opened Ledgers
  import opened Market
  import opened Metrics
  import opened MetricsAgreement
  import opened Options
  import opened Signals

  /** Every minute bar inside the backtest falls on a day with some daily bar; daily backtests use no minute bars. */
  ghost predicate MinutesOnBarDays(task: Task, feed: Feed) {
    task.minuteData ==> forall s, b :: s in feed.minutes && b in feed.minutes[s] && task.start <= b.day <= task.end ==>
                          b.day in BarDays(task, feed)
  }

  predicate KnownBar(task: Task, feed: Feed, symbol: Symbol, b: Bar) {
    b in DailyBars(feed, symbol) || (task.minuteData && b in MinuteBars(feed, symbol))
  }

  ghost predicate OnKnownDays(task: Task, feed: Feed, s: Run) {
    && (forall t :: t in s.trades ==> t.day in BarDays(task, feed))
    && (forall e :: e in s.queue && e.bar.Some? ==> KnownBar(task, feed, e.signal.symbol, e.bar.value))
  }

  lemma KnownDay(task: Task, feed: Feed, symbol: Symbol, b: Bar)
    requires MinutesOnBarDays(task, feed) && KnownBar(task, feed, symbol, b) && task.start <= b.day <= task.end
    ensures b.day in BarDays(task, feed)
  {
  }

  lemma EventBarIsKnown(task: Task, feed: Feed, e: Event, b: Bar)
    requires EventBar(task, feed, e) == Some(b)
    requires e.bar.Some? ==> KnownBar(task, feed, e.signal.symbol, e.bar.value)
    ensures KnownBar(task, feed, e.signal.symbol, b)
  {
  }

  lemma ExitBarIsKnown(task: Task, feed: Feed, e: Event, v: Verdict, sequence: nat)
    requires v.Fill?
    ensures var exit := SettledExit(task, feed, e, v, sequence);
            exit.Some? ==> exit.value.bar.Some? && KnownBar(task, feed, exit.value.signal.symbol, exit.value.bar.value)
  {
    hide SelectExit, ScanDays, Percent, SellAfter;
  }

  lemma StepOnKnownDays(task: Task, feed: Feed, s: Run)
    requires MinutesOnBarDays(task, feed) && OnKnownDays(task, feed, s) && s.queue != [] && !s.crashed
    ensures OnKnownDays(task, feed, Step(task, feed, s))
  {
    hide Judge, SettledExit, SettledBook, SortEvents, KnownBar, EventBar, ExactPnl, MinutesOnBarDays, BarDays;
    var e, rest := s.queue[0], s.queue[1..];
    var v := Judge(task, feed, e, s.book);
    FilledInBoardLots(task, feed, e, s.book);
    if v.Fill? {
      EventBarIsKnown(task, feed, e, v.bar);
      KnownDay(task, feed, e.signal.symbol, v.bar);
      var exit := SettledExit(task, feed, e, v, s.nextSequence);
      ExitBarIsKnown(task, feed, e, v, s.nextSequence);
      if exit.Some? {
        SortedMembers(rest + [exit.value]);
      }
    }
  }

  lemma StartOnKnownDays(task: Task, feed: Feed, signals: seq<Signal>)
    ensures OnKnownDays(task, feed, Start(task, signals))
  {
    hide SortEvents;
    SortedMembers(InitialEvents(signals));
  }

  lemma {:induction false} AlwaysOnKnownDays(task: Task, feed: Feed, signals: seq<Signal>, n: nat)
    requires MinutesOnBarDays(task, feed)
    ensures OnKnownDays(task, feed, After(task, feed, Start(task, signals), n))
  {
    hide Step, OnKnownDays, Start, MinutesOnBarDays;
    if n == 0 {
      StartOnKnownDays(task, feed, signals);
    } else {
      AlwaysOnKnownDays(task, feed, signals, n - 1);
      var before := After(task, feed, Start(task, signals), n - 1);
      if before.queue != [] && !before.crashed {
        StepOnKnownDays(task, feed, before);
      }
    }
  }

  /** Then every trade of every reachable state falls on a replayed day ... */
  lemma TradesAreCovered(task: Task, feed: Feed, signals: seq<Signal>, n: nat)
    requires MinutesOnBarDays(task, feed)
    ensures Covered(After(task, feed, Start(task, signals), n).trades, Dates(task, feed))
  {
    hide Step, Start, After, BarDays, MinutesOnBarDays;
    AlwaysOnKnownDays(task, feed, signals, n);
  }

  /**
   ... and the replay by date ends with exactly the ledger's cash and positions. Daily backtests need no condition.
   */
  lemma AccountsAgreeOnData(task: Task, feed: Feed, signals: seq<Signal>, n: nat, symbol: Symbol)
    requires MinutesOnBarDays(task, feed)
    ensures var s := After(task, feed, Start(task, signals), n);
            var dates := Dates(task, feed);
            var end := AccountAfter(task, s.trades, dates, |dates|);
            && NeverOversold(ByDate(s.trades, dates))
            && end.cash == s.book.cash && end.Position(symbol) == s.book.Position(symbol)
  {
    hide Step, Start, After, Dates, MinutesOnBarDays, ByDate, AccountAfter, Covered, NeverOversold;
    TradesAreCovered(task, feed, signals, n);
    AccountsAgree(task, feed, signals, n, symbol);
  }
}
