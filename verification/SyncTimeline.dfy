/**
 Every request of the minute sync, retries included, was needed when it was made: measured against the table as the
 replies to all earlier requests had left it (data_center_service.py, _run_2026_minute_batches).
 */
module SyncTimeline {
  import opened MinuteSync
  import opened MinuteWindows

  /** The table after the replies to a list of requests. */
  function TableAfter(adapter: Adapter, table: set<Key>, log: seq<Fetch>): set<Key> {
    if log == [] then table
    else
      var before, reply := TableAfter(adapter, table, log[..|log| - 1]), adapter(|log| - 1, log[|log| - 1]);
      if reply.Delivered? then Upsert(before, reply.rows) else before
  }

  /** The table is what the replies made it, and each request asked only for stocks lacking a day at its time. */
  ghost predicate Timely(adapter: Adapter, req: Request, table: set<Key>, st: Sync) {
    && st.table == TableAfter(adapter, table, st.log)
    && forall i :: 0 <= i < |st.log| ==> Needed(req, TableAfter(adapter, table, st.log[..i]), st.log[i])
  }

  lemma OneMoreRequest(adapter: Adapter, req: Request, table: set<Key>, st: Sync, f: Fetch, after: Sync)
    requires Timely(adapter, req, table, st) && Needed(req, st.table, f) && after.log == st.log + [f]
    requires var reply := adapter(|st.log|, f);
             after.table == if reply.Delivered? then Upsert(st.table, reply.rows) else st.table
    ensures Timely(adapter, req, table, after)
  {
    hide Needed, Upsert;
    assert after.log[..|st.log|] == st.log;
    forall i | 0 <= i < |after.log|
      ensures Needed(req, TableAfter(adapter, table, after.log[..i]), after.log[i])
    {
      if i < |st.log| {
        assert after.log[..i] == st.log[..i] && after.log[i] == st.log[i];
      }
    }
  }

  lemma RetryIsTimely(adapter: Adapter, req: Request, table: set<Key>, st: Sync, w: Window, s: Symbol)
    requires Timely(adapter, req, table, st) && (req.overwrite || Misses(req, st.table, s, w))
    ensures Timely(adapter, req, table, FetchOne(adapter, st, w, s))
  {
    hide Misses, Timely, Merge;
    OneMoreRequest(adapter, req, table, st, Fetch([s], w), FetchOne(adapter, st, w, s));
  }

  lemma {:induction false} RetriesAreTimely(adapter: Adapter, req: Request, table: set<Key>, st: Sync, w: Window,
                                            symbols: seq<Symbol>)
    requires Honest(adapter, req) && InRange(req, w) && Agrees(req, st) && Distinct(symbols)
    requires Timely(adapter, req, table, st)
    requires forall s :: s in symbols ==> req.overwrite || Misses(req, st.table, s, w)
    ensures Timely(adapter, req, table, FetchEach(adapter, st, w, symbols))
  {
    hide Timely, FetchOne, Honest, Agrees, StoredDays;
    if symbols != [] {
      var front, last := symbols[..|symbols| - 1], symbols[|symbols| - 1];
      RetriesAreTimely(adapter, req, table, st, w, front);
      FetchEachProgress(adapter, req, st, w, front);
      assert last in symbols && last !in front;
      RetryIsTimely(adapter, req, table, FetchEach(adapter, st, w, front), w, last);
    }
  }

  lemma PendingIsTimely(adapter: Adapter, req: Request, table: set<Key>, st: Sync, w: Window, pending: seq<Symbol>)
    requires Honest(adapter, req) && InRange(req, w) && Agrees(req, st) && Distinct(pending)
    requires Timely(adapter, req, table, st)
    requires forall s :: s in pending ==> req.overwrite || Misses(req, st.table, s, w)
    ensures Timely(adapter, req, table, FetchPending(adapter, st, w, pending))
  {
    hide Misses, Timely, Merge, StoredDays, FetchEach, Honest;
    var f := Fetch(pending, w);
    var asked := st.(log := st.log + [f]);
    match adapter(|st.log|, f) {
      case Failed =>
        OneMoreRequest(adapter, req, table, st, f, asked);
        RetriesAreTimely(adapter, req, table, asked, w, pending);
      case Delivered(rows) =>
        OneMoreRequest(adapter, req, table, st, f, FetchPending(adapter, st, w, pending));
    }
  }

  lemma PendingMisses(req: Request, st: Sync, w: Window, batch: seq<Symbol>)
    requires Agrees(req, st) && forall s :: s in batch ==> s in req.symbols
    ensures forall s :: s in Pending(req, st.days, w, batch) ==> req.overwrite || Misses(req, st.table, s, w)
  {
    hide Agrees, Misses, Lacks;
    forall s | s in Pending(req, st.days, w, batch)
      ensures req.overwrite || Misses(req, st.table, s, w)
    {
      LacksIsMisses(req, st, s, w);
    }
  }

  /** The counter of skipped stocks is neither part of the table nor of the cache. */
  lemma SkipChangesNothing(adapter: Adapter, req: Request, table: set<Key>, st: Sync, skipped: nat)
    ensures Agrees(req, st) ==> Agrees(req, st.(skipped := skipped))
    ensures Timely(adapter, req, table, st) ==> Timely(adapter, req, table, st.(skipped := skipped))
  {
  }

  lemma BatchIsTimely(adapter: Adapter, req: Request, table: set<Key>, st: Sync, w: Window, batch: seq<Symbol>)
    requires Honest(adapter, req) && InRange(req, w) && Agrees(req, st) && Distinct(batch)
    requires Timely(adapter, req, table, st) && forall s :: s in batch ==> s in req.symbols
    ensures Timely(adapter, req, table, RunBatch(adapter, req, st, w, batch))
  {
    hide Agrees, Misses, Honest, Timely, Distinct, Pending, FetchPending, InRange;
    var pending := Pending(req, st.days, w, batch);
    var skipped := st.skipped + |batch| - |pending|;
    SkipChangesNothing(adapter, req, table, st, skipped);
    PendingDistinct(req, st.days, w, batch);
    PendingMisses(req, st, w, batch);
    if pending != [] {
      PendingIsTimely(adapter, req, table, st.(skipped := skipped), w, pending);
    }
  }

  lemma {:induction false} WindowIsTimely(adapter: Adapter, req: Request, table: set<Key>, st: Sync, w: Window,
                                          from: nat)
    requires Honest(adapter, req) && InRange(req, w) && Agrees(req, st) && Distinct(req.symbols)
    requires Timely(adapter, req, table, st)
    ensures Timely(adapter, req, table, RunWindow(adapter, req, st, w, from))
    decreases |req.symbols| - from
  {
    hide RunBatch, Honest, InRange, Timely, Asked;
    if from < |req.symbols| {
      var batch := Batch(req, from);
      BatchIsPart(req, from);
      BatchProgress(adapter, req, st, w, batch);
      BatchIsTimely(adapter, req, table, st, w, batch);
      assert Agrees(req, RunBatch(adapter, req, st, w, batch));
      hide Agrees, Progressed, Batch;
      WindowIsTimely(adapter, req, table, RunBatch(adapter, req, st, w, batch), w, from + BatchSize(req));
    }
  }

  lemma {:induction false} RunIsTimely(adapter: Adapter, req: Request, table: set<Key>, st: Sync, windows: seq<Window>)
    requires Honest(adapter, req) && (forall w :: w in windows ==> InRange(req, w)) && Agrees(req, st)
    requires Distinct(req.symbols) && Timely(adapter, req, table, st)
    ensures Timely(adapter, req, table, RunWindows(adapter, req, st, windows))
    decreases |windows|
  {
    hide RunWindow, Honest, InRange, Timely, Asked;
    if windows != [] {
      var first := windows[0];
      assert first in windows;
      WindowProgress(adapter, req, st, first, 0);
      WindowIsTimely(adapter, req, table, st, first, 0);
      assert Agrees(req, RunWindow(adapter, req, st, first, 0));
      hide Agrees, Progressed;
      RunIsTimely(adapter, req, table, RunWindow(adapter, req, st, first, 0), windows[1..]);
    }
  }

  /**
   Without overwrite, each request of a run was only for stocks that, at that moment, lacked an expected day of its
   window: no covered stock-window is ever fetched. The final table is what the replies made of the first.
   */
  lemma RequestsAreTimely(adapter: Adapter, req: Request, table: set<Key>, windows: seq<Window>)
    requires Honest(adapter, req) && (forall w :: w in windows ==> InRange(req, w)) && Distinct(req.symbols)
    ensures var end := RunWindows(adapter, req, Start(table, req), windows);
            && end.table == TableAfter(adapter, table, end.log)
            && forall i, s :: 0 <= i < |end.log| && s in end.log[i].symbols && !req.overwrite ==>
                 Misses(req, TableAfter(adapter, table, end.log[..i]), s, end.log[i].window)
  {
    hide Misses, RunWindows, Honest, InRange, Agrees, TableAfter;
    StartAgrees(table, req);
    assert Timely(adapter, req, table, Start(table, req)) by {
      NothingAsked(adapter, table);
    }
    RunIsTimely(adapter, req, table, Start(table, req), windows);
    var end := RunWindows(adapter, req, Start(table, req), windows);
    forall i, s | 0 <= i < |end.log| && s in end.log[i].symbols && !req.overwrite
      ensures Misses(req, TableAfter(adapter, table, end.log[..i]), s, end.log[i].window)
    {
      assert Needed(req, TableAfter(adapter, table, end.log[..i]), end.log[i]);
    }
  }

  lemma NothingAsked(adapter: Adapter, table: set<Key>)
    ensures TableAfter(adapter, table, []) == table
  {
  }
}
