/**
 The resumable minute sync (data_center_service.py, _run_2026_minute_batches; data_center_coverage.py,
 has_symbol_day_coverage and merge_minute_rows_into_coverage): windows by batches, with a retry stock by
 stock when a batch fails, steered by a cache of the days already stored.
 */
module MinuteSync {
  import opened Clock
  import opened MinuteWindows
  import opened Rounding

  type Symbol = string
  type Period = string

  /** The unique key of a stored minute bar; prices and volumes are overwritten in place and do not matter here. */
  datatype Key = Key(symbol: Symbol, period: Period, day: Day, second: Second)

  datatype Reply = Failed | Delivered(rows: seq<Key>)
  datatype Fetch = Fetch(symbols: seq<Symbol>, window: Window)

  /** The market data adapter: its reply to the n-th request, which may fail. */
  type Adapter = (nat, Fetch) -> Reply

  datatype Request = Request(symbols: seq<Symbol>, start: Day, end: Day, period: Period, minuteBatchSize: int,
                             overwrite: bool, expected: map<Symbol, seq<Day>>)

  /** Table, cache of stored days, requests made, and the counters. */
  datatype Sync = Sync(table: set<Key>, days: map<Symbol, set<Day>>, log: seq<Fetch>,
                       success: nat, failed: nat, skipped: nat, noData: nat)

  function BatchSize(req: Request): (n: nat)
    ensures 1 <= n <= 100 && Clamped(n, req.minuteBatchSize, 1, 100)
  {
    Max(1, Min(req.minuteBatchSize, 100))
  }

  function StoredDays(table: set<Key>, symbol: Symbol, req: Request): set<Day> {
    set k | k in table && k.symbol == symbol && k.period == req.period && req.start <= k.day <= req.end :: k.day
  }

  /** minute_symbol_coverage_stats: the cache as read from the table before the run. */
  function Start(table: set<Key>, req: Request): Sync {
    Sync(table, map s | s in req.symbols :: StoredDays(table, s, req), [], 0, 0, 0, 0)
  }

  function Expected(req: Request, symbol: Symbol): seq<Day> {
    if symbol in req.expected then req.expected[symbol] else []
  }

  /** Does the cache lack an expected day of this window? */
  predicate Lacks(req: Request, days: map<Symbol, set<Day>>, symbol: Symbol, w: Window) {
    exists d :: d in Expected(req, symbol) && w.first <= d <= w.last && !(symbol in days && d in days[symbol])
  }

  function Pending(req: Request, days: map<Symbol, set<Day>>, w: Window, batch: seq<Symbol>): (p: seq<Symbol>)
    ensures |p| <= |batch|
    ensures forall s :: s in p <==> s in batch && (req.overwrite || Lacks(req, days, s, w))
  {
    if batch == [] then []
    else
      var s := batch[|batch| - 1];
      var front := Pending(req, days, w, batch[..|batch| - 1]);
      if req.overwrite || Lacks(req, days, s, w) then front + [s] else front
  }

  /** Rows of unknown stocks are ignored. */
  function Merge(days: map<Symbol, set<Day>>, rows: seq<Key>): map<Symbol, set<Day>> {
    if rows == [] then days
    else
      var before, r := Merge(days, rows[..|rows| - 1]), rows[|rows| - 1];
      if r.symbol in before then before[r.symbol := before[r.symbol] + {r.day}] else before
  }

  method MergeMinuteRowsIntoCoverage(coverage: map<Symbol, set<Day>>, rows: seq<Key>)
    returns (days: map<Symbol, set<Day>>)
    ensures days == Merge(coverage, rows)
  {
    days := coverage;
    for i := 0 to |rows|
      invariant days == Merge(coverage, rows[..i])
    {
      assert rows[..i + 1][..i] == rows[..i];
      var r := rows[i];
      if r.symbol !in days {
        continue;
      }
      days := days[r.symbol := days[r.symbol] + {r.day}];
    }
    assert rows[..|rows|] == rows;
  }

  function Upsert(table: set<Key>, rows: seq<Key>): set<Key> {
    table + set r | r in rows
  }

  function SymbolsWithRows(rows: seq<Key>): set<Symbol> {
    set r | r in rows :: r.symbol
  }

  function Members(symbols: seq<Symbol>): set<Symbol> {
    set s | s in symbols
  }

  /** Store a delivery and note its days. */
  function Store(st: Sync, rows: seq<Key>): Sync {
    st.(table := Upsert(st.table, rows), days := Merge(st.days, rows))
  }

  function FetchOne(adapter: Adapter, st: Sync, w: Window, symbol: Symbol): Sync {
    var fetch := Fetch([symbol], w);
    var reply := adapter(|st.log|, fetch);
    var asked := st.(log := st.log + [fetch]);
    match reply
    case Failed => asked.(failed := st.failed + 1)
    case Delivered(rows) =>
      if symbol in SymbolsWithRows(rows) then Store(asked, rows).(success := st.success + 1)
      else Store(asked, rows).(noData := st.noData + 1)
  }

  function FetchEach(adapter: Adapter, st: Sync, w: Window, symbols: seq<Symbol>): Sync {
    if symbols == [] then st
    else FetchOne(adapter, FetchEach(adapter, st, w, symbols[..|symbols| - 1]), w, symbols[|symbols| - 1])
  }

  function FetchPending(adapter: Adapter, st: Sync, w: Window, pending: seq<Symbol>): Sync {
    var fetch := Fetch(pending, w);
    var asked := st.(log := st.log + [fetch]);
    match adapter(|st.log|, fetch)
    case Failed => FetchEach(adapter, asked, w, pending)
    case Delivered(rows) =>
      var got := SymbolsWithRows(rows);
      Store(asked, rows).(success := st.success + |got|, noData := st.noData + |Members(pending) - got|)
  }

  function RunBatch(adapter: Adapter, req: Request, st: Sync, w: Window, batch: seq<Symbol>): Sync {
    var pending := Pending(req, st.days, w, batch);
    var counted := st.(skipped := st.skipped + |batch| - |pending|);
    if pending == [] then counted else FetchPending(adapter, counted, w, pending)
  }

  function Batch(req: Request, from: nat): seq<Symbol>
    requires from < |req.symbols|
  {
    req.symbols[from..Min(from + BatchSize(req), |req.symbols|)]
  }

  function RunWindow(adapter: Adapter, req: Request, st: Sync, w: Window, from: nat): Sync
    decreases |req.symbols| - from
  {
    if from >= |req.symbols| then st
    else RunWindow(adapter, req, RunBatch(adapter, req, st, w, Batch(req, from)), w, from + BatchSize(req))
  }

  function RunWindows(adapter: Adapter, req: Request, st: Sync, windows: seq<Window>): Sync
    decreases |windows|
  {
    if windows == [] then st else RunWindows(adapter, req, RunWindow(adapter, req, st, windows[0], 0), windows[1..])
  }

  // ---------------------------------------------------------------------------
  // The loops

  method RetryEach(adapter: Adapter, st0: Sync, w: Window, pending: seq<Symbol>) returns (st: Sync)
    ensures st == FetchEach(adapter, st0, w, pending)
  {
    st := st0;
    for i := 0 to |pending|
      invariant st == FetchEach(adapter, st0, w, pending[..i])
    {
      assert pending[..i + 1][..i] == pending[..i];
      var fetch := Fetch([pending[i]], w);
      var reply := adapter(|st.log|, fetch);
      st := st.(log := st.log + [fetch]);
      if reply.Delivered? {
        var days := MergeMinuteRowsIntoCoverage(st.days, reply.rows);
        st := st.(table := Upsert(st.table, reply.rows), days := days);
        if pending[i] in SymbolsWithRows(reply.rows) {
          st := st.(success := st.success + 1);
        } else {
          st := st.(noData := st.noData + 1);
        }
      } else {
        st := st.(failed := st.failed + 1);
      }
    }
    assert pending[..|pending|] == pending;
  }

  /** One batch: skip what is covered, ask for the rest at once, fall back to stock by stock. */
  method SyncBatch(adapter: Adapter, req: Request, st0: Sync, w: Window, batch: seq<Symbol>) returns (st: Sync)
    ensures st == RunBatch(adapter, req, st0, w, batch)
  {
    hide FetchEach, Pending, Merge, Upsert, SymbolsWithRows, Members;
    var pending := Pending(req, st0.days, w, batch);
    st := st0.(skipped := st0.skipped + |batch| - |pending|);
    if pending == [] {
      return;
    }
    var fetch := Fetch(pending, w);
    var reply := adapter(|st.log|, fetch);
    st := st.(log := st.log + [fetch]);
    if reply.Delivered? {
      var days := MergeMinuteRowsIntoCoverage(st.days, reply.rows);
      var got := SymbolsWithRows(reply.rows);
      st := st.(table := Upsert(st.table, reply.rows), days := days, success := st.success + |got|,
                noData := st.noData + |Members(pending) - got|);
    } else {
      st := RetryEach(adapter, st, w, pending);
    }
  }

  method RunMinuteBatches(adapter: Adapter, req: Request, table: set<Key>, windows: seq<Window>) returns (st: Sync)
    ensures st == RunWindows(adapter, req, Start(table, req), windows)
  {
    hide RunBatch, Start, Batch, BatchSize;
    st := Start(table, req);
    for i := 0 to |windows|
      invariant RunWindows(adapter, req, Start(table, req), windows) == RunWindows(adapter, req, st, windows[i..])
    {
      var w := windows[i];
      assert windows[i..][0] == w && windows[i..][1..] == windows[i + 1..];
      ghost var before := st;
      var from := 0;
      while from < |req.symbols|
        invariant RunWindow(adapter, req, before, w, 0) == RunWindow(adapter, req, st, w, from)
        decreases |req.symbols| - from
      {
        st := SyncBatch(adapter, req, st, w, Batch(req, from));
        from := from + BatchSize(req);
      }
    }
  }

  // ---------------------------------------------------------------------------
  // The cache agrees with the table

  ghost predicate Agrees(req: Request, st: Sync) {
    && st.days.Keys == Members(req.symbols)
    && forall s :: s in st.days ==> st.days[s] == StoredDays(st.table, s, req)
  }

  /** A row as asked for: requested stock, period and days. */
  ghost predicate AsAsked(req: Request, f: Fetch, r: Key) {
    r.symbol in f.symbols && r.period == req.period && f.window.first <= r.day <= f.window.last
  }

  /** The adapter delivers only what was asked for. */
  ghost predicate Honest(adapter: Adapter, req: Request) {
    forall n: nat, f: Fetch :: adapter(n, f).Delivered? ==> forall r :: r in adapter(n, f).rows ==> AsAsked(req, f, r)
  }

  ghost predicate InRange(req: Request, w: Window) {
    req.start <= w.first && w.last <= req.end
  }

  lemma {:induction false} MergeAdds(days: map<Symbol, set<Day>>, rows: seq<Key>, symbol: Symbol)
    ensures Merge(days, rows).Keys == days.Keys
    ensures symbol in days ==>
              Merge(days, rows)[symbol] == days[symbol] + set r | r in rows && r.symbol == symbol :: r.day
  {
    if rows != [] {
      var front, r := rows[..|rows| - 1], rows[|rows| - 1];
      MergeAdds(days, front, symbol);
      assert forall x :: x in rows <==> x in front || x == r;
      if symbol in days {
        var a, b := (set x | x in front && x.symbol == symbol :: x.day),
            (set x | x in rows && x.symbol == symbol :: x.day);
        assert r.symbol == symbol ==> b == a + {r.day};
        assert r.symbol != symbol ==> b == a;
      }
    }
  }

  /** Storing rows that lie in the period and range keeps cache and table in step. */
  lemma StoreAgrees(req: Request, st: Sync, rows: seq<Key>)
    requires Agrees(req, st)
    requires forall r :: r in rows ==> r.period == req.period && req.start <= r.day <= req.end
    ensures Agrees(req, Store(st, rows))
  {
    hide Merge, Members;
    var after := Store(st, rows);
    MergeAdds(st.days, rows, "");
    forall s | s in after.days
      ensures after.days[s] == StoredDays(after.table, s, req)
    {
      MergeAdds(st.days, rows, s);
      var added := set r | r in rows && r.symbol == s :: r.day;
      assert StoredDays(after.table, s, req) == StoredDays(st.table, s, req) + added by {
        forall d: Day
          ensures d in StoredDays(after.table, s, req) <==> d in StoredDays(st.table, s, req) || d in added
        {
          StoredAfter(req, st.table, rows, s, d);
        }
      }
    }
  }

  lemma StoredAfter(req: Request, table: set<Key>, rows: seq<Key>, s: Symbol, d: Day)
    requires forall r :: r in rows ==> r.period == req.period && req.start <= r.day <= req.end
    ensures d in StoredDays(Upsert(table, rows), s, req) <==>
              d in StoredDays(table, s, req) || exists r :: r in rows && r.symbol == s && r.day == d
  {
    if d in StoredDays(Upsert(table, rows), s, req) {
      var k :| k in Upsert(table, rows) && k.symbol == s && k.period == req.period && k.day == d;
      if k !in table {
        assert k in rows;
      }
    }
    if exists r :: r in rows && r.symbol == s && r.day == d {
      var r :| r in rows && r.symbol == s && r.day == d;
      assert r in Upsert(table, rows);
    }
  }

  /** Without that, they may part: a stored row outside the asked range enters the cache but not the day statistics. */
  lemma StrayRowBreaksAgreement(req: Request, st: Sync, r: Key)
    requires Agrees(req, st) && r.symbol in st.days && r.day !in st.days[r.symbol]
    requires r.period != req.period || r.day < req.start || r.day > req.end
    ensures !Agrees(req, Store(st, [r]))
  {
    MergeAdds(st.days, [r], r.symbol);
    var after := Store(st, [r]);
    assert r in [r];
    assert r.day in after.days[r.symbol];
    assert StoredDays(after.table, r.symbol, req) <= StoredDays(st.table, r.symbol, req);
  }

  /** A stray row of another stock, or of a day that is stored already, changes neither side. */
  lemma HarmlessRow(req: Request, st: Sync, r: Key)
    requires Agrees(req, st) && (r.symbol !in st.days || r.day in st.days[r.symbol])
    ensures Agrees(req, Store(st, [r]))
  {
    var after := Store(st, [r]);
    MergeAdds(st.days, [r], "");
    forall s | s in after.days
      ensures after.days[s] == StoredDays(after.table, s, req)
    {
      MergeAdds(st.days, [r], s);
      assert forall x :: x in [r] <==> x == r;
      assert st.days[s] == StoredDays(st.table, s, req);
      assert r.symbol == s ==> r.day in st.days[s];
      assert after.table == st.table + {r};
    }
  }

  /** A row of the period and range of the request. */
  predicate WasAsked(req: Request, r: Key) {
    r.period == req.period && req.start <= r.day <= req.end
  }

  /** One row keeps cache and table in step iff its stock is not watched, its day is known, or it was asked for. */
  lemma RowKeepsAgreementIff(req: Request, st: Sync, r: Key)
    requires Agrees(req, st)
    ensures Agrees(req, Store(st, [r])) <==> r.symbol !in st.days || r.day in st.days[r.symbol] || WasAsked(req, r)
  {
    hide Agrees;
    if r.symbol !in st.days || r.day in st.days[r.symbol] {
      HarmlessRow(req, st, r);
    } else if WasAsked(req, r) {
      StoreAgrees(req, st, [r]);
    } else {
      StrayRowBreaksAgreement(req, st, r);
    }
  }

  // ---------------------------------------------------------------------------
  // What a stretch of the run does

  /** An expected day of the window is not in the table. */
  ghost predicate Misses(req: Request, table: set<Key>, symbol: Symbol, w: Window) {
    exists d :: d in Expected(req, symbol) && w.first <= d <= w.last && d !in StoredDays(table, symbol, req)
  }

  lemma MissesShrinks(req: Request, a: set<Key>, b: set<Key>, symbol: Symbol, w: Window)
    requires a <= b && Misses(req, b, symbol, w)
    ensures Misses(req, a, symbol, w)
  {
    assert StoredDays(a, symbol, req) <= StoredDays(b, symbol, req);
  }

  /** A request that was worth making when the table was `table`. */
  ghost predicate Needed(req: Request, table: set<Key>, f: Fetch) {
    forall s :: s in f.symbols ==> req.overwrite || Misses(req, table, s, f.window)
  }

  /** From `a` to `b`: cache and table in step, nothing lost, only needed requests made. */
  ghost predicate Progressed(req: Request, a: Sync, b: Sync) {
    && Agrees(req, b) && a.table <= b.table && a.log <= b.log
    && forall i :: |a.log| <= i < |b.log| ==> Needed(req, a.table, b.log[i])
  }

  lemma ProgressChains(req: Request, a: Sync, b: Sync, c: Sync)
    requires Progressed(req, a, b) && Progressed(req, b, c)
    ensures Progressed(req, a, c)
  {
    hide Misses, Agrees;
    forall i | |a.log| <= i < |c.log|
      ensures Needed(req, a.table, c.log[i])
    {
      if i < |b.log| {
        assert c.log[i] == b.log[i];
      } else {
        forall s | s in c.log[i].symbols && !req.overwrite
          ensures Misses(req, a.table, s, c.log[i].window)
        {
          MissesShrinks(req, a.table, b.table, s, c.log[i].window);
        }
      }
    }
  }

  /** If a day of the window is still missing at the end, the stock was asked for. */
  ghost predicate Asked(req: Request, a: Sync, b: Sync, w: Window, s: Symbol) {
    Misses(req, b.table, s, w) ==> exists i :: |a.log| <= i < |b.log| && b.log[i].window == w && s in b.log[i].symbols
  }

  lemma AskedLater(req: Request, a: Sync, b: Sync, c: Sync, w: Window, s: Symbol)
    requires Asked(req, a, b, w, s) && Progressed(req, b, c) && a.log <= b.log
    ensures Asked(req, a, c, w, s)
  {
    hide Misses, Agrees;
    if Misses(req, c.table, s, w) {
      MissesShrinks(req, b.table, c.table, s, w);
      var i :| |a.log| <= i < |b.log| && b.log[i].window == w && s in b.log[i].symbols;
      assert c.log[i] == b.log[i];
    }
  }

  lemma AskedBefore(req: Request, a: Sync, b: Sync, c: Sync, w: Window, s: Symbol)
    requires Asked(req, b, c, w, s) && a.log <= b.log
    ensures Asked(req, a, c, w, s)
  {
  }

  function Handled(st: Sync): nat {
    st.success + st.failed + st.skipped + st.noData
  }

  /** Stock-windows a run has to deal with. */
  function Units(windows: nat, symbols: nat): nat {
    windows * symbols
  }

  lemma OneMore(windows: nat, symbols: nat)
    ensures Units(windows + 1, symbols) == symbols + Units(windows, symbols)
  {
  }

  // ---------------------------------------------------------------------------
  // One request, one batch

  lemma LogGrows(req: Request, st: Sync, f: Fetch, after: Sync)
    requires Agrees(req, after) && st.table <= after.table && after.log == st.log + [f] && Needed(req, st.table, f)
    ensures Progressed(req, st, after)
  {
  }

  lemma FetchOneProgress(adapter: Adapter, req: Request, st: Sync, w: Window, s: Symbol)
    requires Honest(adapter, req) && InRange(req, w) && Agrees(req, st)
    requires req.overwrite || Misses(req, st.table, s, w)
    ensures Progressed(req, st, FetchOne(adapter, st, w, s))
    ensures Handled(FetchOne(adapter, st, w, s)) == Handled(st) + 1
  {
    hide Misses, StoredDays, Merge;
    var f := Fetch([s], w);
    var reply := adapter(|st.log|, f);
    var asked := st.(log := st.log + [f]);
    if reply.Delivered? {
      assert forall r :: r in reply.rows ==> AsAsked(req, f, r);
      StoreAgrees(req, asked, reply.rows);
    }
    LogGrows(req, st, f, FetchOne(adapter, st, w, s));
  }

  /** A stock's own days change only through its own requests. */
  lemma FetchOneLeavesOthers(adapter: Adapter, req: Request, st: Sync, w: Window, s: Symbol, other: Symbol)
    requires Honest(adapter, req) && other != s
    ensures StoredDays(FetchOne(adapter, st, w, s).table, other, req) == StoredDays(st.table, other, req)
  {
    var f := Fetch([s], w);
    var reply := adapter(|st.log|, f);
    if reply.Delivered? {
      assert forall r :: r in reply.rows ==> AsAsked(req, f, r);
    }
  }

  ghost predicate Distinct(symbols: seq<Symbol>) {
    forall i, j :: 0 <= i < j < |symbols| ==> symbols[i] != symbols[j]
  }

  lemma {:induction false} FetchEachProgress(adapter: Adapter, req: Request, st: Sync, w: Window, symbols: seq<Symbol>)
    requires Honest(adapter, req) && InRange(req, w) && Agrees(req, st) && Distinct(symbols)
    requires forall s :: s in symbols ==> req.overwrite || Misses(req, st.table, s, w)
    ensures Progressed(req, st, FetchEach(adapter, st, w, symbols))
    ensures Handled(FetchEach(adapter, st, w, symbols)) == Handled(st) + |symbols|
    ensures forall s :: s !in symbols ==>
              StoredDays(FetchEach(adapter, st, w, symbols).table, s, req) == StoredDays(st.table, s, req)
  {
    if symbols != [] {
      var front, last := symbols[..|symbols| - 1], symbols[|symbols| - 1];
      hide StoredDays, FetchOne, Honest, Agrees;
      FetchEachProgress(adapter, req, st, w, front);
      var middle := FetchEach(adapter, st, w, front);
      assert last in symbols && last !in front;
      assert req.overwrite || Misses(req, middle.table, last, w);
      hide Misses, Needed;
      FetchOneProgress(adapter, req, middle, w, last);
      ProgressChains(req, st, middle, FetchOne(adapter, middle, w, last));
      forall s | s !in symbols
        ensures StoredDays(FetchEach(adapter, st, w, symbols).table, s, req) == StoredDays(st.table, s, req)
      {
        assert s !in front && s != last;
        FetchOneLeavesOthers(adapter, req, middle, w, last, s);
      }
    }
  }

  lemma {:induction false} MembersSize(symbols: seq<Symbol>)
    requires Distinct(symbols)
    ensures |Members(symbols)| == |symbols|
  {
    if symbols != [] {
      var front, last := symbols[..|symbols| - 1], symbols[|symbols| - 1];
      MembersSize(front);
      assert Members(symbols) == Members(front) + {last};
    }
  }

  lemma {:induction false} PendingDistinct(req: Request, days: map<Symbol, set<Day>>, w: Window, batch: seq<Symbol>)
    requires Distinct(batch)
    ensures Distinct(Pending(req, days, w, batch))
  {
    hide Lacks;
    if batch != [] {
      var front, last := batch[..|batch| - 1], batch[|batch| - 1];
      PendingDistinct(req, days, w, front);
      var p := Pending(req, days, w, front);
      assert forall i :: 0 <= i < |p| ==> p[i] in front;
      assert last !in front;
    }
  }

  lemma FetchPendingProgress(adapter: Adapter, req: Request, st: Sync, w: Window, pending: seq<Symbol>)
    requires Honest(adapter, req) && InRange(req, w) && Agrees(req, st) && Distinct(pending)
    requires forall s :: s in pending ==> req.overwrite || Misses(req, st.table, s, w)
    ensures var after := FetchPending(adapter, st, w, pending);
            && Progressed(req, st, after)
            && Handled(after) == Handled(st) + |pending|
            && |st.log| < |after.log| && after.log[|st.log|] == Fetch(pending, w)
  {
    hide Misses, StoredDays, Merge, FetchEach;
    var f := Fetch(pending, w);
    var reply := adapter(|st.log|, f);
    var asked := st.(log := st.log + [f]);
    LogGrows(req, st, f, asked);
    match reply {
      case Failed =>
        FetchEachProgress(adapter, req, asked, w, pending);
        ProgressChains(req, st, asked, FetchEach(adapter, asked, w, pending));
      case Delivered(rows) =>
        assert forall r :: r in rows ==> AsAsked(req, f, r);
        StoreAgrees(req, asked, rows);
        LogGrows(req, st, f, FetchPending(adapter, st, w, pending));
        DeliveredCount(pending, rows);
    }
  }

  /** Every requested stock is counted once, as delivered or as without data. */
  lemma DeliveredCount(pending: seq<Symbol>, rows: seq<Key>)
    requires Distinct(pending) && forall r :: r in rows ==> r.symbol in pending
    ensures |SymbolsWithRows(rows)| + |Members(pending) - SymbolsWithRows(rows)| == |pending|
  {
    var got, all := SymbolsWithRows(rows), Members(pending);
    MembersSize(pending);
    assert got <= all;
    assert all == got + (all - got);
  }

  /** What a batch skips, asks for and leaves, measured against the table rather than the cache. */
  lemma BatchProgress(adapter: Adapter, req: Request, st: Sync, w: Window, batch: seq<Symbol>)
    requires Honest(adapter, req) && InRange(req, w) && Agrees(req, st) && Distinct(batch)
    requires forall s :: s in batch ==> s in req.symbols
    ensures var after := RunBatch(adapter, req, st, w, batch);
            && Progressed(req, st, after)
            && Handled(after) == Handled(st) + |batch|
            && forall s :: s in batch ==> Asked(req, st, after, w, s)
  {
    var pending := Pending(req, st.days, w, batch);
    var counted := st.(skipped := st.skipped + |batch| - |pending|);
    var after := RunBatch(adapter, req, st, w, batch);
    PendingDistinct(req, st.days, w, batch);
    forall s | s in batch
      ensures Lacks(req, st.days, s, w) <==> Misses(req, st.table, s, w)
    {
      LacksIsMisses(req, st, s, w);
    }
    hide Lacks, Misses, FetchPending, StoredDays, Agrees, Honest, Pending;
    if pending != [] {
      FetchPendingProgress(adapter, req, counted, w, pending);
    }
    assert Progressed(req, st, after);
    forall s | s in batch
      ensures Asked(req, st, after, w, s)
    {
      if Misses(req, after.table, s, w) {
        MissesShrinks(req, st.table, after.table, s, w);
        assert s in pending;
        assert after.log[|st.log|] == Fetch(pending, w);
      }
    }
  }

  lemma LacksIsMisses(req: Request, st: Sync, s: Symbol, w: Window)
    requires Agrees(req, st) && s in req.symbols
    ensures Lacks(req, st.days, s, w) <==> Misses(req, st.table, s, w)
  {
    assert s in st.days;
  }

  // ---------------------------------------------------------------------------
  // The whole run

  lemma ProgressStays(req: Request, st: Sync)
    requires Agrees(req, st)
    ensures Progressed(req, st, st)
  {
  }

  lemma BatchIsPart(req: Request, from: nat)
    requires from < |req.symbols| && Distinct(req.symbols)
    ensures Distinct(Batch(req, from)) && forall s :: s in Batch(req, from) ==> s in req.symbols
    ensures var next := Min(from + BatchSize(req), |req.symbols|);
            |Batch(req, from)| == next - from && req.symbols[from..] == Batch(req, from) + req.symbols[next..]
  {
  }

  lemma {:induction false} WindowProgress(adapter: Adapter, req: Request, st: Sync, w: Window, from: nat)
    requires Honest(adapter, req) && InRange(req, w) && Agrees(req, st) && Distinct(req.symbols)
    ensures var after := RunWindow(adapter, req, st, w, from);
            && Progressed(req, st, after)
            && Handled(after) == Handled(st) + (if from < |req.symbols| then |req.symbols| - from else 0)
            && (from < |req.symbols| ==> forall s :: s in req.symbols[from..] ==> Asked(req, st, after, w, s))
    decreases |req.symbols| - from
  {
    hide RunBatch, Asked, Honest, InRange;
    if from >= |req.symbols| {
      ProgressStays(req, st);
    } else {
      var batch := Batch(req, from);
      var next := RunBatch(adapter, req, st, w, batch);
      var after := RunWindow(adapter, req, st, w, from);
      BatchIsPart(req, from);
      BatchProgress(adapter, req, st, w, batch);
      assert Agrees(req, next) && st.log <= next.log;
      hide Agrees, Progressed, Batch;
      WindowProgress(adapter, req, next, w, from + BatchSize(req));
      ProgressChains(req, st, next, after);
      var later := Min(from + BatchSize(req), |req.symbols|);
      forall s | s in req.symbols[from..]
        ensures Asked(req, st, after, w, s)
      {
        if s in batch {
          AskedLater(req, st, next, after, w, s);
        } else {
          assert s in req.symbols[later..];
          AskedBefore(req, st, next, after, w, s);
        }
      }
    }
  }

  /**
   Over the whole run, failures and retries included: cache and table stay in step and nothing stored is lost;
   every request was for a stock that lacked an expected day of the window when the run began (unless
   overwriting); every stock still lacking a day of some window was asked for; and each stock is counted
   exactly once per window.
   */
  lemma {:induction false} RunProgress(adapter: Adapter, req: Request, st: Sync, windows: seq<Window>)
    requires Honest(adapter, req) && (forall w :: w in windows ==> InRange(req, w)) && Agrees(req, st) &&
               Distinct(req.symbols)
    ensures var after := RunWindows(adapter, req, st, windows);
            && Progressed(req, st, after)
            && Handled(after) == Handled(st) + Units(|windows|, |req.symbols|)
            && forall w, s :: w in windows && s in req.symbols ==> Asked(req, st, after, w, s)
    decreases |windows|
  {
    hide RunWindow, Asked, Honest, InRange;
    assert Units(0, |req.symbols|) == 0;
    if windows == [] {
      ProgressStays(req, st);
    } else {
      var first := windows[0];
      var next := RunWindow(adapter, req, st, first, 0);
      var after := RunWindows(adapter, req, st, windows);
      assert first in windows;
      WindowProgress(adapter, req, st, first, 0);
      assert req.symbols[0..] == req.symbols;
      assert Agrees(req, next) && st.log <= next.log;
      OneMore(|windows[1..]|, |req.symbols|);
      hide Agrees, Progressed;
      RunProgress(adapter, req, next, windows[1..]);
      ProgressChains(req, st, next, after);
      forall w, s | w in windows && s in req.symbols
        ensures Asked(req, st, after, w, s)
      {
        if w in windows[1..] {
          AskedBefore(req, st, next, after, w, s);
        } else {
          assert w == first;
          AskedLater(req, st, next, after, w, s);
        }
      }
    }
  }

  lemma StartAgrees(table: set<Key>, req: Request)
    ensures Agrees(req, Start(table, req)) && Handled(Start(table, req)) == 0
  {
  }

  /** The run as started from a table. */
  lemma SyncKeepsPromises(adapter: Adapter, req: Request, table: set<Key>, windows: seq<Window>)
    requires Honest(adapter, req) && (forall w :: w in windows ==> InRange(req, w)) && Distinct(req.symbols)
    ensures var end := RunWindows(adapter, req, Start(table, req), windows);
            && Agrees(req, end) && table <= end.table
            && end.skipped + end.success + end.noData + end.failed == Units(|windows|, |req.symbols|)
            && (forall f, s :: f in end.log && s in f.symbols && !req.overwrite ==> Misses(req, table, s, f.window))
            && (forall w, s :: w in windows && s in req.symbols && Misses(req, end.table, s, w) ==>
                  exists f :: f in end.log && f.window == w && s in f.symbols)
  {
    hide Misses, RunWindows, Honest, InRange, Expected, StoredDays;
    var st := Start(table, req);
    StartAgrees(table, req);
    RunProgress(adapter, req, st, windows);
    var end := RunWindows(adapter, req, st, windows);
    forall f, s | f in end.log && s in f.symbols && !req.overwrite
      ensures Misses(req, table, s, f.window)
    {
      var i :| 0 <= i < |end.log| && end.log[i] == f;
      assert Needed(req, st.table, end.log[i]);
    }
    forall w, s | w in windows && s in req.symbols && Misses(req, end.table, s, w)
      ensures exists f :: f in end.log && f.window == w && s in f.symbols
    {
      assert Asked(req, st, end, w, s);
      var i :| 0 <= i < |end.log| && end.log[i].window == w && s in end.log[i].symbols;
      assert end.log[i] in end.log;
    }
  }

  // ---------------------------------------------------------------------------
  // Resuming

  /** The adapter never fails and has every expected day. */
  ghost predicate Reliable(adapter: Adapter, req: Request) {
    forall n: nat, f: Fetch :: adapter(n, f).Delivered?
      && forall s, d :: s in f.symbols && d in Expected(req, s) && f.window.first <= d <= f.window.last ==>
           exists r :: r in adapter(n, f).rows && r.symbol == s && r.day == d
  }

  lemma DeliveryFills(adapter: Adapter, req: Request, st: Sync, w: Window, pending: seq<Symbol>, s: Symbol)
    requires Honest(adapter, req) && Reliable(adapter, req) && InRange(req, w) && s in pending
    ensures !Misses(req, FetchPending(adapter, st, w, pending).table, s, w)
  {
    var f := Fetch(pending, w);
    var reply := adapter(|st.log|, f);
    assert reply.Delivered?;
    assert forall r :: r in reply.rows ==> AsAsked(req, f, r);
    var after := FetchPending(adapter, st, w, pending).table;
    assert after == Upsert(st.table, reply.rows);
    forall d | d in Expected(req, s) && w.first <= d <= w.last
      ensures d in StoredDays(after, s, req)
    {
      var r :| r in reply.rows && r.symbol == s && r.day == d;
      assert AsAsked(req, f, r);
      assert r in after;
    }
  }

  lemma BatchFills(adapter: Adapter, req: Request, st: Sync, w: Window, batch: seq<Symbol>, s: Symbol)
    requires Honest(adapter, req) && Reliable(adapter, req) && InRange(req, w) && Agrees(req, st)
    requires s in batch && s in req.symbols
    ensures !Misses(req, RunBatch(adapter, req, st, w, batch).table, s, w)
  {
    LacksIsMisses(req, st, s, w);
    hide Lacks, Misses, Honest, Reliable, Agrees, FetchPending;
    var pending := Pending(req, st.days, w, batch);
    var counted := st.(skipped := st.skipped + |batch| - |pending|);
    if s in pending {
      DeliveryFills(adapter, req, counted, w, pending, s);
    } else if pending != [] {
      FetchPendingGrows(adapter, req, counted, w, pending);
      if Misses(req, RunBatch(adapter, req, st, w, batch).table, s, w) {
        MissesShrinks(req, st.table, RunBatch(adapter, req, st, w, batch).table, s, w);
      }
    }
  }

  lemma FetchPendingGrows(adapter: Adapter, req: Request, st: Sync, w: Window, pending: seq<Symbol>)
    requires Reliable(adapter, req)
    ensures st.table <= FetchPending(adapter, st, w, pending).table
  {
  }

  lemma StaysFilled(req: Request, a: set<Key>, b: set<Key>, s: Symbol, w: Window)
    requires a <= b && !Misses(req, a, s, w)
    ensures !Misses(req, b, s, w)
  {
    hide Misses;
    if Misses(req, b, s, w) {
      MissesShrinks(req, a, b, s, w);
    }
  }

  lemma NextBatch(adapter: Adapter, req: Request, st: Sync, w: Window, from: nat)
    requires from < |req.symbols|
    ensures var next := RunBatch(adapter, req, st, w, Batch(req, from));
            RunWindow(adapter, req, st, w, from) == RunWindow(adapter, req, next, w, from + BatchSize(req))
  {
  }

  lemma InBatchOrLater(req: Request, from: nat, s: Symbol)
    requires from < |req.symbols| && s in req.symbols[from..]
    ensures s in Batch(req, from) ||
            (from + BatchSize(req) < |req.symbols| && s in req.symbols[from + BatchSize(req)..])
  {
    var next := Min(from + BatchSize(req), |req.symbols|);
    assert req.symbols[from..] == Batch(req, from) + req.symbols[next..];
  }

  lemma {:induction false} WindowFills(adapter: Adapter, req: Request, st: Sync, w: Window, from: nat, s: Symbol)
    requires Honest(adapter, req) && Reliable(adapter, req) && InRange(req, w) && Agrees(req, st)
    requires Distinct(req.symbols) && from < |req.symbols| && s in req.symbols[from..]
    ensures !Misses(req, RunWindow(adapter, req, st, w, from).table, s, w)
    decreases |req.symbols| - from
  {
    hide RunBatch, RunWindow, Misses, Honest, InRange, Reliable, Agrees, Batch, Distinct, Needed;
    var batch := Batch(req, from);
    var next := RunBatch(adapter, req, st, w, batch);
    NextBatch(adapter, req, st, w, from);
    BatchIsPart(req, from);
    BatchProgress(adapter, req, st, w, batch);
    InBatchOrLater(req, from, s);
    if s in batch {
      WindowProgress(adapter, req, next, w, from + BatchSize(req));
      BatchFills(adapter, req, st, w, batch, s);
      StaysFilled(req, next.table, RunWindow(adapter, req, next, w, from + BatchSize(req)).table, s, w);
    } else {
      WindowFills(adapter, req, next, w, from + BatchSize(req), s);
    }
  }

  /** With a reliable adapter, one run stores every expected day of its windows. */
  lemma {:induction false} RunFills(adapter: Adapter, req: Request, st: Sync, windows: seq<Window>, w: Window,
                                    s: Symbol)
    requires Honest(adapter, req) && Reliable(adapter, req) && (forall x :: x in windows ==> InRange(req, x))
    requires Agrees(req, st) && Distinct(req.symbols) && w in windows && s in req.symbols
    ensures !Misses(req, RunWindows(adapter, req, st, windows).table, s, w)
    decreases |windows|
  {
    hide RunWindow, Misses, Honest, InRange, Reliable;
    var first := windows[0];
    assert first in windows;
    var next := RunWindow(adapter, req, st, first, 0);
    WindowProgress(adapter, req, st, first, 0);
    assert Agrees(req, next);
    hide Agrees;
    if w in windows[1..] {
      RunFills(adapter, req, next, windows[1..], w, s);
    } else {
      assert req.symbols[0..] == req.symbols;
      WindowFills(adapter, req, st, first, 0, s);
      RunProgress(adapter, req, next, windows[1..]);
      StaysFilled(req, next.table, RunWindows(adapter, req, next, windows[1..]).table, s, w);
    }
  }

  /** After a run with a reliable adapter, running again makes no request at all and skips everything. */
  lemma SecondRunIsIdle(adapter: Adapter, again: Adapter, req: Request, table: set<Key>, windows: seq<Window>)
    requires Honest(adapter, req) && Reliable(adapter, req) && Honest(again, req) && !req.overwrite
    requires (forall w :: w in windows ==> InRange(req, w)) && Distinct(req.symbols)
    ensures var stored := RunWindows(adapter, req, Start(table, req), windows).table;
            var second := RunWindows(again, req, Start(stored, req), windows);
            second.log == [] && second.table == stored && second.skipped == Units(|windows|, |req.symbols|)
  {
    hide Misses, Honest, InRange, Reliable, RunWindows, Agrees;
    StartAgrees(table, req);
    var stored := RunWindows(adapter, req, Start(table, req), windows).table;
    forall w, s | w in windows && s in req.symbols
      ensures !Misses(req, stored, s, w)
    {
      RunFills(adapter, req, Start(table, req), windows, w, s);
    }
    StartAgrees(stored, req);
    IdleWindows(again, req, Start(stored, req), windows);
  }

  lemma {:induction false} NothingPending(req: Request, days: map<Symbol, set<Day>>, w: Window, batch: seq<Symbol>)
    requires !req.overwrite && forall s :: s in batch ==> !Lacks(req, days, s, w)
    ensures Pending(req, days, w, batch) == []
  {
    hide Lacks;
    if batch != [] {
      NothingPending(req, days, w, batch[..|batch| - 1]);
    }
  }

  lemma {:induction false} IdleWindow(adapter: Adapter, req: Request, st: Sync, w: Window, from: nat)
    requires Agrees(req, st) && !req.overwrite && forall s :: s in req.symbols ==> !Misses(req, st.table, s, w)
    ensures RunWindow(adapter, req, st, w, from) ==
              st.(skipped := st.skipped + (if from < |req.symbols| then |req.symbols| - from else 0))
    decreases |req.symbols| - from
  {
    if from < |req.symbols| {
      var batch := Batch(req, from);
      forall s | s in batch
        ensures !Lacks(req, st.days, s, w)
      {
        assert s in req.symbols;
        LacksIsMisses(req, st, s, w);
      }
      hide Lacks, Misses;
      var pending := Pending(req, st.days, w, batch);
      NothingPending(req, st.days, w, batch);
      IdleWindow(adapter, req, st.(skipped := st.skipped + |batch|), w, from + BatchSize(req));
    }
  }

  /** No window lacks an expected day of any stock. */
  ghost predicate Filled(req: Request, table: set<Key>, windows: seq<Window>) {
    forall w, s :: w in windows && s in req.symbols ==> !Misses(req, table, s, w)
  }

  lemma FilledParts(req: Request, table: set<Key>, windows: seq<Window>)
    requires Filled(req, table, windows) && windows != []
    ensures Filled(req, table, windows[1..])
    ensures forall s :: s in req.symbols ==> !Misses(req, table, s, windows[0])
  {
    hide Misses;
    assert windows[0] in windows;
  }

  function Skipping(st: Sync, n: nat): Sync {
    st.(skipped := st.skipped + n)
  }

  lemma SkippingTwice(req: Request, st: Sync, a: nat, b: nat)
    ensures Skipping(Skipping(st, a), b) == Skipping(st, a + b) && Skipping(st, 0) == st
    ensures Agrees(req, st) ==> Agrees(req, Skipping(st, a))
  {
  }

  lemma FirstWindow(adapter: Adapter, req: Request, st: Sync, windows: seq<Window>)
    ensures windows != [] ==>
              RunWindows(adapter, req, st, windows) ==
              RunWindows(adapter, req, RunWindow(adapter, req, st, windows[0], 0), windows[1..])
    ensures windows == [] ==> RunWindows(adapter, req, st, windows) == st
  {
  }

  lemma IdleWindowSkips(adapter: Adapter, req: Request, st: Sync, w: Window)
    requires Agrees(req, st) && !req.overwrite && forall s :: s in req.symbols ==> !Misses(req, st.table, s, w)
    ensures RunWindow(adapter, req, st, w, 0) == Skipping(st, |req.symbols|)
  {
    hide Agrees, Misses, RunWindow;
    IdleWindow(adapter, req, st, w, 0);
  }

  lemma {:induction false} IdleWindows(adapter: Adapter, req: Request, st: Sync, windows: seq<Window>)
    requires Agrees(req, st) && !req.overwrite && Filled(req, st.table, windows)
    ensures RunWindows(adapter, req, st, windows) == Skipping(st, Units(|windows|, |req.symbols|))
    decreases |windows|
  {
    FirstWindow(adapter, req, st, windows);
    assert Units(0, |req.symbols|) == 0;
    assert Skipping(st, |req.symbols|).table == st.table;
    hide *;
    if windows == [] {
      SkippingTwice(req, st, 0, 0);
    } else {
      var rest := Units(|windows[1..]|, |req.symbols|);
      SkippingTwice(req, st, |req.symbols|, rest);
      FilledParts(req, st.table, windows);
      IdleWindowSkips(adapter, req, st, windows[0]);
      IdleWindows(adapter, req, Skipping(st, |req.symbols|), windows[1..]);
      OneMore(|windows[1..]|, |req.symbols|);
    }
  }
}
