/**
 What a filled purchase adds to the pending events (backtest_engine.py, execute_with_audit and _auto_exit_event):
 the exit under its stop/take rule, the sale after its holding days, or nothing.
 */
module ScheduledExits {
  import opened AutoExit
  import opened Broker
  import opened Clock
  import opened ExitScan
  import opened Market
  import opened Options
  import opened OrderSizing
  import opened Signals
  import opened Sorting

  /** A SELL of the whole purchase at a bar's own time, numbered next. */
  ghost predicate SellsAll(e: Event, v: Verdict, exit: Event, sequence: nat)
    requires v.Fill?
  {
    && exit.signal.symbol == e.signal.symbol && exit.signal.action.Sell? && exit.signal.auto
    && exit.signal.quantity == Number(v.quantity as real)
    && exit.signal.time == exit.time && exit.bar.Some? && exit.sequence == sequence
  }

  /**
   The exit a stop/take rule asks for: at the earliest watched minute touching either price, at the last watched
   minute if none does.
   */
  ghost predicate RuledExit(feed: Feed, e: Event, v: Verdict, exit: Event)
    requires v.Fill? && exit.bar.Some?
  {
    var row, stop, take := exit.bar.value, StopOf(v.price, e.signal), TakeOf(v.price, e.signal);
    && InScan(feed, v.bar, e.signal, row)
    && exit.time == At(row.day, row.second.value)
    && exit.price == Some(ExitPrice(row, stop, take))
    && (forall b :: InScan(feed, v.bar, e.signal, b) && Hits(b, stop, take) ==>
          Hits(row, stop, take) && NoLaterThan(row, b))
    && (!Hits(row, stop, take) ==> forall b :: InScan(feed, v.bar, e.signal, b) ==> NoLaterThan(b, row))
  }

  /** The sale on the n-th trading day after the purchase, at the opening and the bar's own price. */
  ghost predicate HeldExit(feed: Feed, e: Event, v: Verdict, exit: Event)
    requires v.Fill? && exit.bar.Some?
  {
    var bars, bar := DailyBars(feed, e.signal.symbol), exit.bar.value;
    && bar in bars && bar.day > v.bar.day && exit.time == At(bar.day, OPENING) && exit.price.None?
    && |DaysBetween(bars, v.bar.day, bar.day)| == SellAfter(e.signal)
  }

  /** Feeds as the queries return them: ascending by key, each bar's prices in market order. */
  ghost predicate OrderedFeed(feed: Feed, symbol: Symbol) {
    && InDayOrder(DailyBars(feed, symbol)) && InTextOrder(MinuteBars(feed, symbol))
    && forall x :: x in MinuteBars(feed, symbol) ==> Ordered(x)
  }

  lemma BarsAfterCount(bars: seq<Bar>, after: Day)
    requires InDayOrder(bars)
    ensures |BarsAfter(bars, after)| == |Days(bars, after)|
  {
    BarsAfterAscend(bars, after);
    AscendingDaysCount(BarsAfter(bars, after));
    assert DaysOf(BarsAfter(bars, after)) == Days(bars, after);
  }

  /** Under a rule in minute data there is an exit iff some minute is watched; no holding days take its place. */
  lemma RuledExitIff(task: Task, feed: Feed, e: Event, v: Verdict, sequence: nat)
    requires v.Fill? && e.signal.action.Buy? && OrderedFeed(feed, e.signal.symbol)
    requires task.minuteData && Requested(e.signal)
    ensures var exit := SettledExit(task, feed, e, v, sequence);
            && (exit.Some? <==> exists b :: InScan(feed, v.bar, e.signal, b))
            && (exit.Some? ==> SellsAll(e, v, exit.value, sequence) && RuledExit(feed, e, v, exit.value))
  {
    hide InScan, Hits, NoLaterThan, InTextOrder, ControlledRows, Percent, StopOf, TakeOf, ExitPrice, SelectExit,
      Requested;
    var exit := SettledExit(task, feed, e, v, sequence);
    forall b
      ensures InScan(feed, v.bar, e.signal, b) ==> exit.Some?
      ensures exit.Some? && exit.value.bar.Some? && InScan(feed, v.bar, e.signal, b) ==>
                var row, stop, take := exit.value.bar.value, StopOf(v.price, e.signal), TakeOf(v.price, e.signal);
                && (Hits(b, stop, take) ==> Hits(row, stop, take) && NoLaterThan(row, b))
                && (!Hits(row, stop, take) ==> NoLaterThan(b, row))
    {
      StopTakeExit(task, feed, v.bar, v.price, v.quantity, e.signal, sequence, b);
    }
    StopTakeExit(task, feed, v.bar, v.price, v.quantity, e.signal, sequence, v.bar);
  }

  /** Without one, or outside minute data, the exit follows the holding days. */
  lemma HeldExitIff(task: Task, feed: Feed, e: Event, v: Verdict, sequence: nat)
    requires v.Fill? && e.signal.action.Buy? && OrderedFeed(feed, e.signal.symbol)
    requires !task.minuteData || !Requested(e.signal)
    ensures var exit := SettledExit(task, feed, e, v, sequence);
            && (exit.Some? <==>
                  1 <= SellAfter(e.signal) <= |Days(DailyBars(feed, e.signal.symbol), v.bar.day)|)
            && (exit.Some? ==> SellsAll(e, v, exit.value, sequence) && HeldExit(feed, e, v, exit.value))
  {
    hide SellAfter, Percent, ControlledRows, SelectExit, DaysBetween;
    HeldExactly(task, feed, v.bar, v.price, v.quantity, e.signal, sequence);
    BarsAfterCount(DailyBars(feed, e.signal.symbol), v.bar.day);
    hide Days, BarsAfter;
  }

  /** What an iteration does to the pending events: the first goes, and a purchase's exit, if there is one, comes. */
  lemma QueueAfter(task: Task, feed: Feed, s: Run)
    requires s.queue != [] && !s.crashed
    ensures var e, next := s.queue[0], Step(task, feed, s);
            var v := Judge(task, feed, e, s.book);
            && (v.Skip? ==> next.queue == s.queue[1..])
            && (v.Fill? ==>
                  var exit := SettledExit(task, feed, e, v, s.nextSequence);
                  if exit.None? then next.queue == s.queue[1..]
                  else multiset(next.queue) == multiset(s.queue[1..]) + multiset{exit.value})
  {
    hide Judge, SettledExit, SettledBook, SettledTrade, SortEvents;
    var e, rest := s.queue[0], s.queue[1..];
    var v := Judge(task, feed, e, s.book);
    FilledInBoardLots(task, feed, e, s.book);
    if v.Fill? {
      var exit := SettledExit(task, feed, e, v, s.nextSequence);
      if exit.Some? {
        SortedMultiset(rest + [exit.value]);
      }
    }
  }

  lemma SortedMultiset(events: seq<Event>)
    ensures multiset(SortEvents(events)) == multiset(events)
  {
    hide KeyLess;
    SortPermutes(KeyLess, events);
  }

  /** `x` is what the pending events gained over those behind the first. */
  ghost predicate Queued(s: Run, next: Run, x: Event)
    requires s.queue != []
  {
    multiset(next.queue) == multiset(s.queue[1..]) + multiset{x}
  }

  ghost predicate Watches(feed: Feed, e: Event, v: Verdict)
    requires v.Fill?
  {
    exists b :: InScan(feed, v.bar, e.signal, b)
  }

  /**
   From any state: a purchase under a stop/take rule in a minute backtest queues exactly its exit on the earliest
   touching minute, or on the last one watched, and nothing if no minute is watched.
   */
  lemma PurchaseQueuesRuledExit(task: Task, feed: Feed, s: Run)
    requires s.queue != [] && !s.crashed && OrderedFeed(feed, s.queue[0].signal.symbol)
    requires task.minuteData && Requested(s.queue[0].signal)
    requires s.queue[0].signal.action.Buy? && Judge(task, feed, s.queue[0], s.book).Fill?
    ensures var e, next := s.queue[0], Step(task, feed, s);
            var v := Judge(task, feed, e, s.book);
            if Watches(feed, e, v) then
              exists x :: SellsAll(e, v, x, s.nextSequence) && RuledExit(feed, e, v, x) && Queued(s, next, x)
            else next.queue == s.queue[1..]
  {
    hide Step, Judge, SettledExit, OrderedFeed, Requested, InScan, RuledExit;
    var e := s.queue[0];
    var v := Judge(task, feed, e, s.book);
    QueueAfter(task, feed, s);
    RuledExitIff(task, feed, e, v, s.nextSequence);
    var exit := SettledExit(task, feed, e, v, s.nextSequence);
    if exit.Some? {
      assert Queued(s, Step(task, feed, s), exit.value);
    }
  }

  /** Any other purchase queues exactly the sale on the n-th trading day, and nothing if n is 0 or fewer days follow. */
  lemma PurchaseQueuesHeldExit(task: Task, feed: Feed, s: Run)
    requires s.queue != [] && !s.crashed && OrderedFeed(feed, s.queue[0].signal.symbol)
    requires !task.minuteData || !Requested(s.queue[0].signal)
    requires s.queue[0].signal.action.Buy? && Judge(task, feed, s.queue[0], s.book).Fill?
    ensures var e, next := s.queue[0], Step(task, feed, s);
            var v := Judge(task, feed, e, s.book);
            if 1 <= SellAfter(e.signal) <= |Days(DailyBars(feed, e.signal.symbol), v.bar.day)| then
              exists x :: SellsAll(e, v, x, s.nextSequence) && HeldExit(feed, e, v, x) && Queued(s, next, x)
            else next.queue == s.queue[1..]
  {
    hide Step, Judge, SettledExit, OrderedFeed, Requested, HeldExit, Days, SellAfter;
    var e := s.queue[0];
    var v := Judge(task, feed, e, s.book);
    QueueAfter(task, feed, s);
    HeldExitIff(task, feed, e, v, s.nextSequence);
    var exit := SettledExit(task, feed, e, v, s.nextSequence);
    if exit.Some? {
      assert Queued(s, Step(task, feed, s), exit.value);
    }
  }

  /** Nothing else queues anything. */
  lemma OthersQueueNothing(task: Task, feed: Feed, s: Run)
    requires s.queue != [] && !s.crashed
    requires !s.queue[0].signal.action.Buy? || !Judge(task, feed, s.queue[0], s.book).Fill?
    ensures !Step(task, feed, s).crashed ==> Step(task, feed, s).queue == s.queue[1..]
  {
    hide Judge, SortEvents;
    FilledInBoardLots(task, feed, s.queue[0], s.book);
  }

  // ---------------------------------------------------------------------------
  // Every signal is processed

  lemma SignalsQueued(task: Task, signals: seq<Signal>, i: nat)
    requires i < |signals|
    ensures InitialEvents(signals)[i] in Start(task, signals).queue
  {
    hide SortEvents;
    SortedMembers(InitialEvents(signals));
  }

  lemma NothingLost(task: Task, feed: Feed, s: Run, e: Event)
    requires s.queue != [] && !s.crashed && e in s.done + s.queue && !Step(task, feed, s).crashed
    ensures e in Step(task, feed, s).done + Step(task, feed, s).queue
  {
    hide Judge, SettledExit, SettledBook, SettledTrade, SortEvents;
    var first, rest := s.queue[0], s.queue[1..];
    assert s.queue == [first] + rest;
    var v := Judge(task, feed, first, s.book);
    FilledInBoardLots(task, feed, first, s.book);
    if v.Fill? && SettledExit(task, feed, first, v, s.nextSequence).Some? {
      SortedMembers(rest + [SettledExit(task, feed, first, v, s.nextSequence).value]);
    }
  }

  lemma {:induction false} EventsStay(task: Task, feed: Feed, s: Run, e: Event)
    requires e in s.done + s.queue
    ensures var end := RunAll(task, feed, s); !end.crashed ==> e in end.done
    decreases !s.crashed, Weight(s.queue)
  {
    hide Step;
    if s.queue != [] && !s.crashed {
      StepShrinks(task, feed, s);
      if !Step(task, feed, s).crashed {
        NothingLost(task, feed, s, e);
        EventsStay(task, feed, Step(task, feed, s), e);
      }
    }
  }

  /** A run that is not aborted has processed every signal it was given, at the time and in the order it was given. */
  lemma SignalsAreProcessed(task: Task, feed: Feed, signals: seq<Signal>, i: nat)
    requires i < |signals|
    ensures var end := RunAll(task, feed, Start(task, signals));
            !end.crashed ==> Event(signals[i], None, SortTime(signals[i].time), i, None) in end.done
  {
    hide RunAll, Start;
    SignalsQueued(task, signals, i);
    var s := Start(task, signals);
    var e := InitialEvents(signals)[i];
    EventsStay(task, feed, s, e);
  }

  lemma InQueueIsProcessed(task: Task, feed: Feed, s: Run, x: Event)
    requires s.queue != [] && !s.crashed && Queued(s, Step(task, feed, s), x)
    ensures var end := RunAll(task, feed, s); !end.crashed ==> x in end.done
  {
    hide Step;
    var next := Step(task, feed, s);
    assert x in next.queue by {
      assert x in multiset(next.queue);
    }
    StepShrinks(task, feed, s);
    EventsStay(task, feed, next, x);
  }

  /**
   From any state to the end of the run: a purchase under a stop/take rule that watches any minute is followed, unless
   the run is aborted, by its exit on the minute and at the price the rule asks for.
   */
  lemma RuledExitIsProcessed(task: Task, feed: Feed, s: Run)
    requires s.queue != [] && !s.crashed && OrderedFeed(feed, s.queue[0].signal.symbol)
    requires task.minuteData && Requested(s.queue[0].signal)
    requires s.queue[0].signal.action.Buy? && Judge(task, feed, s.queue[0], s.book).Fill?
    requires Watches(feed, s.queue[0], Judge(task, feed, s.queue[0], s.book))
    ensures var e, end := s.queue[0], RunAll(task, feed, s);
            var v := Judge(task, feed, e, s.book);
            end.crashed ||
            exists x :: x in end.done && SellsAll(e, v, x, s.nextSequence) && RuledExit(feed, e, v, x)
  {
    hide Step, Judge, OrderedFeed, Requested, Watches, RuledExit, RunAll, Queued;
    PurchaseQueuesRuledExit(task, feed, s);
    var e := s.queue[0];
    var v := Judge(task, feed, e, s.book);
    var x :| SellsAll(e, v, x, s.nextSequence) && RuledExit(feed, e, v, x) && Queued(s, Step(task, feed, s), x);
    InQueueIsProcessed(task, feed, s, x);
  }
}
