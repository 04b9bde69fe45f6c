/** The minute sync as planned: the greedy windows of the trading days, run to the end (data_center_service.py). */
module SyncPlan {
  import opened Clock
  import opened MinuteSync
  import opened MinuteWindows

  function Plan(days: seq<Day>, requested: int): seq<Window> {
    Ends(Greedy(days, WindowSize(requested)))
  }

  ghost predicate WithinRange(req: Request, days: seq<Day>) {
    forall d :: d in days ==> req.start <= d <= req.end
  }

  lemma {:induction false} FlattenMembers(groups: seq<seq<Day>>, d: Day)
    ensures d in Flatten(groups) <==> exists g :: g in groups && d in g
  {
    if groups != [] {
      FlattenMembers(groups[1..], d);
      assert forall g :: g in groups <==> g == groups[0] || g in groups[1..];
    }
  }

  lemma GroupInRange(req: Request, g: seq<Day>)
    requires g != [] && WithinRange(req, g)
    ensures InRange(req, EndsOf(g))
  {
    assert g[0] in g && g[|g| - 1] in g;
  }

  lemma DayInGroup(g: seq<Day>, d: Day)
    requires Ascending(g) && d in g
    ensures EndsOf(g).first <= d <= EndsOf(g).last
  {
  }

  /** Every trading day lies in a window of the plan, and the plan stays within the request. */
  lemma PlanCovers(req: Request, days: seq<Day>, requested: int, d: Day)
    requires Ascending(days) && WithinRange(req, days)
    ensures forall w :: w in Plan(days, requested) ==> InRange(req, w)
    ensures d in days ==> exists w :: w in Plan(days, requested) && w.first <= d <= w.last
  {
    hide Greedy, Flatten, WindowSize, InRange, EndsOf, Ascending;
    var groups := Greedy(days, WindowSize(requested));
    GreedyPartitions(days, WindowSize(requested));
    GreedyAscends(days, WindowSize(requested));
    forall g | g in groups
      ensures InRange(req, EndsOf(g))
    {
      forall x | x in g
        ensures x in days
      {
        FlattenMembers(groups, x);
      }
      GroupInRange(req, g);
    }
    if d in days {
      FlattenMembers(groups, d);
      var g :| g in groups && d in g;
      DayInGroup(g, d);
      var k :| 0 <= k < |groups| && groups[k] == g;
      assert Plan(days, requested)[k] == EndsOf(g);
    }
  }

  // ---------------------------------------------------------------------------
  // Requests keep to the plan

  ghost predicate KeepsTo(log: seq<Fetch>, windows: seq<Window>) {
    forall f :: f in log ==> f.window in windows
  }

  lemma {:induction false} RetriesKeepTo(adapter: Adapter, st: Sync, w: Window, symbols: seq<Symbol>,
                                         windows: seq<Window>)
    requires KeepsTo(st.log, windows) && w in windows
    ensures KeepsTo(FetchEach(adapter, st, w, symbols).log, windows)
  {
    if symbols != [] {
      RetriesKeepTo(adapter, st, w, symbols[..|symbols| - 1], windows);
    }
  }

  lemma BatchKeepsTo(adapter: Adapter, req: Request, st: Sync, w: Window, batch: seq<Symbol>, windows: seq<Window>)
    requires KeepsTo(st.log, windows) && w in windows
    ensures KeepsTo(RunBatch(adapter, req, st, w, batch).log, windows)
  {
    hide FetchEach, Pending;
    var pending := Pending(req, st.days, w, batch);
    var counted := st.(skipped := st.skipped + |batch| - |pending|);
    RetriesKeepTo(adapter, counted.(log := st.log + [Fetch(pending, w)]), w, pending, windows);
  }

  lemma {:induction false} WindowKeepsTo(adapter: Adapter, req: Request, st: Sync, w: Window, from: nat,
                                         windows: seq<Window>)
    requires KeepsTo(st.log, windows) && w in windows
    ensures KeepsTo(RunWindow(adapter, req, st, w, from).log, windows)
    decreases |req.symbols| - from
  {
    hide RunBatch, KeepsTo;
    if from < |req.symbols| {
      BatchKeepsTo(adapter, req, st, w, Batch(req, from), windows);
      WindowKeepsTo(adapter, req, RunBatch(adapter, req, st, w, Batch(req, from)), w, from + BatchSize(req), windows);
    }
  }

  lemma {:induction false} RunKeepsTo(adapter: Adapter, req: Request, st: Sync, left: seq<Window>, windows: seq<Window>)
    requires KeepsTo(st.log, windows) && forall w :: w in left ==> w in windows
    ensures KeepsTo(RunWindows(adapter, req, st, left).log, windows)
    decreases |left|
  {
    hide RunWindow, KeepsTo;
    if left != [] {
      WindowKeepsTo(adapter, req, st, left[0], 0, windows);
      RunKeepsTo(adapter, req, RunWindow(adapter, req, st, left[0], 0), left[1..], windows);
    }
  }

  // ---------------------------------------------------------------------------

  /** Whatever the adapter answers, no request of a planned run, batch or retry, fails the range check. */
  lemma PlannedRequestsPass(adapter: Adapter, req: Request, table: set<Key>, days: seq<Day>, requested: int)
    requires Ascending(days)
    ensures forall f :: f in RunWindows(adapter, req, Start(table, req), Plan(days, requested)).log ==>
              ValidateMinuteRange(f.window.first, OPENING, f.window.last, CLOSING).RangeOk?
  {
    hide RunWindows, ValidateMinuteRange, Greedy, Ends, WindowSize;
    var windows := Plan(days, requested);
    RunKeepsTo(adapter, req, Start(table, req), windows, windows);
    forall w | w in windows
      ensures ValidateMinuteRange(w.first, OPENING, w.last, CLOSING).RangeOk?
    {
      GreedyWindowsPass(days, WindowSize(requested), w);
    }
  }

  /** A planned run over a reliable adapter leaves no expected trading day unstored. */
  lemma PlannedRunStoresAll(adapter: Adapter, req: Request, table: set<Key>, days: seq<Day>, requested: int,
                            s: Symbol, d: Day)
    requires Honest(adapter, req) && Reliable(adapter, req) && Distinct(req.symbols)
    requires Ascending(days) && WithinRange(req, days)
    requires s in req.symbols && s in req.expected && d in req.expected[s] && d in days
    ensures d in StoredDays(RunWindows(adapter, req, Start(table, req), Plan(days, requested)).table, s, req)
  {
    hide RunWindows, Honest, Reliable, StoredDays, Plan, InRange;
    PlanCovers(req, days, requested, d);
    var w :| w in Plan(days, requested) && w.first <= d <= w.last;
    StartAgrees(table, req);
    RunFills(adapter, req, Start(table, req), Plan(days, requested), w, s);
  }
}
