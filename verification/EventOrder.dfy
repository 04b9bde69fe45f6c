/**
 When the event loop of any run, with signals that may lack a time, stays in order: exactly as long as no purchase
 without a time has scheduled an exit before the end of time (backtest_engine.py, execute_with_audit).
 */
module EventOrder {
  import opened AutoExit
  import opened Broker
  import opened BrokerRuns
  import opened Clock
  import opened Market
  import opened Options
  import opened Signals
  import opened Sorting

  /** An event is either a signal waiting for its bar, dated or not, or an exit that carries its bar. */
  ghost predicate Well(e: Event) {
    && e.time.At?
    && (e.bar.None? ==> e.time == SortTime(e.signal.time))
    && (e.bar.Some? ==> e.signal.action.Sell? && e.bar.value.day == e.time.day)
  }

  ghost predicate InOrder(s: Run) {
    Strict(KeyLess, s.done + s.queue)
  }

  ghost predicate AllWell(s: Run) {
    forall e :: e in s.done + s.queue ==> Well(e) && e.sequence < s.nextSequence
  }

  /** The next iteration fills a purchase without a time, and its exit falls before the last second of the last day. */
  predicate GoesBack(task: Task, feed: Feed, s: Run) {
    && s.queue != [] && !s.crashed && s.queue[0].signal.time.Unset?
    && Judge(task, feed, s.queue[0], s.book).Fill?
    && var exit := SettledExit(task, feed, s.queue[0], Judge(task, feed, s.queue[0], s.book), s.nextSequence);
       exit.Some? && exit.value.time != At(LAST_DAY, DAY_SECONDS - 1)
  }

  lemma ExitOrder(task: Task, feed: Feed, e: Event, bar: Bar, exit: Event, sequence: nat)
    requires Well(e) && e.signal.action.Buy? && EventBar(task, feed, e) == Some(bar) && e.sequence < sequence
    requires LaterSell(exit, e.signal, bar, sequence)
    ensures Well(exit) && exit.sequence == sequence
    ensures KeyLess(e, exit) <==> !e.signal.time.Unset? || exit.time == At(LAST_DAY, DAY_SECONDS - 1)
    ensures KeyLess(e, exit) || KeyLess(exit, e)
  {
    assert e.bar.None?;
    if !e.signal.time.Unset? {
      assert bar.day >= e.signal.time.day;
    }
  }

  /** What one iteration does to the agenda. */
  lemma StepShape(task: Task, feed: Feed, s: Run)
    requires s.queue != [] && !s.crashed
    ensures var next := Step(task, feed, s);
            var e, rest := s.queue[0], s.queue[1..];
            var v := Judge(task, feed, e, s.book);
            && (next.crashed ==> next.done == s.done && next.queue == s.queue && next.nextSequence == s.nextSequence)
            && (!next.crashed ==> next.done == s.done + [e])
            && (!next.crashed && (!v.Fill? || SettledExit(task, feed, e, v, s.nextSequence).None?) ==>
                  next.queue == rest && next.nextSequence == s.nextSequence)
            && (v.Fill? && SettledExit(task, feed, e, v, s.nextSequence).Some? ==>
                  && next.nextSequence == s.nextSequence + 1
                  && next.queue == SortEvents(rest + [SettledExit(task, feed, e, v, s.nextSequence).value]))
            && (v.Fill? ==> !next.crashed && EventBar(task, feed, e) == Some(v.bar))
  {
    hide Judge, SettledExit, SettledBook, SettledTrade, SortEvents, EventBar;
    FilledInBoardLots(task, feed, s.queue[0], s.book);
  }

  lemma SplitHead(s: Run)
    requires s.queue != []
    ensures s.done + s.queue == (s.done + [s.queue[0]]) + s.queue[1..] && s.queue[0] in s.done + s.queue
  {
  }

  lemma InsertInOrder(done: seq<Event>, rest: seq<Event>, exit: Event, sequence: nat)
    requires done != [] && Strict(KeyLess, done + rest) && exit.time.At? && exit.sequence == sequence
    requires forall e :: e in done + rest ==> e.time.At? && e.sequence < sequence
    requires KeyLess(done[|done| - 1], exit)
    ensures Strict(KeyLess, done + SortEvents(rest + [exit]))
  {
    KeyOrder();
    forall y | y in rest
      ensures KeyLess(exit, y) || KeyLess(y, exit)
    {
      assert y in done + rest;
      Comparable(exit, y);
    }
    InsertBehind(KeyLess, done, rest, exit);
  }

  lemma StepWell(task: Task, feed: Feed, s: Run)
    requires AllWell(s) && s.queue != [] && !s.crashed
    ensures AllWell(Step(task, feed, s))
  {
    hide Judge, SettledExit, SortEvents, EventBar, Step, KeyLess;
    var e, rest := s.queue[0], s.queue[1..];
    var v := Judge(task, feed, e, s.book);
    StepShape(task, feed, s);
    SplitHead(s);
    if v.Fill? {
      var exit := SettledExit(task, feed, e, v, s.nextSequence);
      if exit.Some? {
        ExitOrder(task, feed, e, v.bar, exit.value, s.nextSequence);
        SortedMembers(rest + [exit.value]);
      }
    }
  }

  /** An iteration that does not go back keeps the order. */
  lemma StepInOrder(task: Task, feed: Feed, s: Run)
    requires AllWell(s) && InOrder(s) && s.queue != [] && !s.crashed && !GoesBack(task, feed, s)
    ensures InOrder(Step(task, feed, s))
  {
    hide Judge, SettledExit, SortEvents, EventBar, Step, KeyLess;
    var e, rest := s.queue[0], s.queue[1..];
    var v := Judge(task, feed, e, s.book);
    StepShape(task, feed, s);
    SplitHead(s);
    if v.Fill? {
      var exit := SettledExit(task, feed, e, v, s.nextSequence);
      if exit.Some? {
        ExitOrder(task, feed, e, v.bar, exit.value, s.nextSequence);
        InsertInOrder(s.done + [e], rest, exit.value, s.nextSequence);
      }
    }
  }

  /** A processed event that a later one, processed or pending, should have preceded. */
  ghost predicate Overtaken(s: Run, i: nat, x: Event) {
    i < |s.done| && x in s.done[i + 1..] + s.queue && KeyLess(x, s.done[i])
  }

  lemma OvertakenIsDisorder(s: Run, i: nat, x: Event)
    requires Overtaken(s, i, x)
    ensures !InOrder(s)
  {
    var all := s.done + s.queue;
    var later := s.done[i + 1..] + s.queue;
    var j :| 0 <= j < |later| && later[j] == x;
    assert all[i] == s.done[i] && all[i + 1 + j] == x;
    KeyOrder();
    hide KeyLess;
    assert KeyLess(all[i + 1 + j], all[i]);
    assert !KeyLess(all[i], all[i + 1 + j]);
  }

  /** Processed events stay where they are, so it stays overtaken. */
  lemma StepOvertaken(task: Task, feed: Feed, s: Run, i: nat, x: Event)
    requires Overtaken(s, i, x) && s.queue != [] && !s.crashed
    ensures Overtaken(Step(task, feed, s), i, x)
  {
    hide Judge, SettledExit, SortEvents, EventBar, Step, KeyLess;
    var e, rest, next := s.queue[0], s.queue[1..], Step(task, feed, s);
    var v := Judge(task, feed, e, s.book);
    StepShape(task, feed, s);
    if !next.crashed {
      assert next.done[i] == s.done[i] && next.done[i + 1..] == s.done[i + 1..] + [e];
      assert s.queue == [e] + rest;
      if v.Fill? {
        var exit := SettledExit(task, feed, e, v, s.nextSequence);
        if exit.Some? {
          SortedMembers(rest + [exit.value]);
        }
      }
      assert x in rest ==> x in next.queue;
    }
  }

  /** An iteration that goes back overtakes the event it processes. */
  lemma BackOvertakes(task: Task, feed: Feed, s: Run) returns (x: Event)
    requires AllWell(s) && GoesBack(task, feed, s)
    ensures Overtaken(Step(task, feed, s), |s.done|, x)
  {
    hide Judge, SettledExit, SortEvents, EventBar, Step, KeyLess;
    var e, rest, next := s.queue[0], s.queue[1..], Step(task, feed, s);
    var v := Judge(task, feed, e, s.book);
    StepShape(task, feed, s);
    SplitHead(s);
    x := SettledExit(task, feed, e, v, s.nextSequence).value;
    ExitOrder(task, feed, e, v.bar, x, s.nextSequence);
    SortedMembers(rest + [x]);
    assert next.done[|s.done|] == e && next.done[|s.done| + 1..] == [];
  }

  lemma StartInOrder(task: Task, signals: seq<Signal>)
    ensures InOrder(Start(task, signals)) && AllWell(Start(task, signals))
  {
    SortInitial(signals);
    hide KeyLess, SortEvents;
    var s := Start(task, signals);
    assert s.done + s.queue == s.queue;
  }

  /** No iteration of the first `n` goes back. */
  ghost predicate NeverBack(task: Task, feed: Feed, signals: seq<Signal>, n: nat) {
    forall m: nat :: m < n ==> !GoesBack(task, feed, After(task, feed, Start(task, signals), m))
  }

  lemma {:induction false} AlwaysWell(task: Task, feed: Feed, signals: seq<Signal>, n: nat)
    ensures AllWell(After(task, feed, Start(task, signals), n))
  {
    hide Step, AllWell, Start;
    if n == 0 {
      StartInOrder(task, signals);
    } else {
      AlwaysWell(task, feed, signals, n - 1);
      var before := After(task, feed, Start(task, signals), n - 1);
      if before.queue != [] && !before.crashed {
        StepWell(task, feed, before);
      }
    }
  }

  /** Once a run went back, some processed event stays overtaken. */
  lemma {:induction false} StaysOvertaken(task: Task, feed: Feed, signals: seq<Signal>, n: nat)
    returns (i: nat, x: Event)
    requires !NeverBack(task, feed, signals, n)
    ensures Overtaken(After(task, feed, Start(task, signals), n), i, x)
  {
    hide Step, AllWell, Start, Overtaken, GoesBack;
    var before := After(task, feed, Start(task, signals), n - 1);
    if NeverBack(task, feed, signals, n - 1) {
      assert GoesBack(task, feed, before);
      AlwaysWell(task, feed, signals, n - 1);
      x := BackOvertakes(task, feed, before);
      i := |before.done|;
      BackSteps(task, feed, before);
    } else {
      i, x := StaysOvertaken(task, feed, signals, n - 1);
      if before.queue != [] && !before.crashed {
        StepOvertaken(task, feed, before, i, x);
      }
    }
  }

  lemma BackSteps(task: Task, feed: Feed, s: Run)
    requires GoesBack(task, feed, s)
    ensures s.queue != [] && !s.crashed
  {
  }

  /**
   For any signals, with or without a time: processed and pending events of a reachable state are strictly ordered iff
   no purchase without a time processed so far scheduled an exit before the last second of the last day.
   */
  lemma {:induction false} InOrderIff(task: Task, feed: Feed, signals: seq<Signal>, n: nat)
    ensures InOrder(After(task, feed, Start(task, signals), n)) <==> NeverBack(task, feed, signals, n)
  {
    hide Step, AllWell, Start, InOrder, GoesBack;
    if !NeverBack(task, feed, signals, n) {
      var i, x := StaysOvertaken(task, feed, signals, n);
      OvertakenIsDisorder(After(task, feed, Start(task, signals), n), i, x);
    } else if n == 0 {
      StartInOrder(task, signals);
    } else {
      assert NeverBack(task, feed, signals, n - 1);
      InOrderIff(task, feed, signals, n - 1);
      AlwaysWell(task, feed, signals, n - 1);
      var before := After(task, feed, Start(task, signals), n - 1);
      if before.queue != [] && !before.crashed {
        StepInOrder(task, feed, before);
      }
    }
  }
}
