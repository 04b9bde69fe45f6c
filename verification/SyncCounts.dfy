/**
 What the counters of a minute sync say, read off the requests made and the replies they got
 (data_center_service.py, _run_2026_minute_batches).
 */
module SyncCounts {
  import opened MinuteSync
  import opened MinuteWindows

  datatype Counts = Counts(success: nat, noData: nat, failed: nat)

  function Plus(a: Counts, b: Counts): Counts {
    Counts(a.success + b.success, a.noData + b.noData, a.failed + b.failed)
  }

  const ZERO: Counts := Counts(0, 0, 0)

  function CountsOf(st: Sync): Counts {
    Counts(st.success, st.noData, st.failed)
  }

  ghost predicate HasRows(rows: seq<Key>, symbol: Symbol) {
    exists r :: r in rows && r.symbol == symbol
  }

  /** A stock asked for by itself: failed, or a success if there are rows of it, or without data. */
  ghost function CountRetry(reply: Reply, symbol: Symbol): Counts {
    match reply
    case Failed => Counts(0, 0, 1)
    case Delivered(rows) => if HasRows(rows, symbol) then Counts(1, 0, 0) else Counts(0, 1, 0)
  }

  /** The stocks of a failed batch, asked one by one from the n-th request on. */
  ghost function Retries(adapter: Adapter, n: nat, symbols: seq<Symbol>, w: Window): Counts {
    if symbols == [] then ZERO
    else
      var front, last := symbols[..|symbols| - 1], symbols[|symbols| - 1];
      Plus(Retries(adapter, n, front, w), CountRetry(adapter(n + |front|, Fetch([last], w)), last))
  }

  /** A batch delivered at once: the stocks with rows, and those asked for without any. */
  ghost function CountBatch(rows: seq<Key>, symbols: seq<Symbol>): Counts {
    Counts(|set r | r in rows :: r.symbol|, |set s | s in symbols && !HasRows(rows, s)|, 0)
  }

  /** Requests a batch takes: its own and, if that fails, one for each of its stocks. */
  ghost function BlockSize(adapter: Adapter, n: nat, f: Fetch): nat {
    if adapter(n, f).Delivered? then 1 else 1 + |f.symbols|
  }

  ghost function CountBlock(adapter: Adapter, n: nat, f: Fetch): Counts {
    match adapter(n, f)
    case Delivered(rows) => CountBatch(rows, f.symbols)
    case Failed => Retries(adapter, n + 1, f.symbols, f.window)
  }

  /** The log begins with a batch and, if that fails, its retries. */
  ghost predicate BlockAt(adapter: Adapter, n: nat, log: seq<Fetch>) {
    && 0 < |log| && BlockSize(adapter, n, log[0]) <= |log|
    && forall i :: 1 <= i < BlockSize(adapter, n, log[0]) ==>
         log[i] == Fetch([log[0].symbols[i - 1]], log[0].window)
  }

  /** The log from its n-th request on is one of such batches. */
  ghost predicate Complete(adapter: Adapter, n: nat, log: seq<Fetch>)
    decreases |log|
  {
    log == [] ||
    (BlockAt(adapter, n, log) &&
     var size := BlockSize(adapter, n, log[0]); Complete(adapter, n + size, log[size..]))
  }

  /** What the replies to such a log add up to. */
  ghost function Tally(adapter: Adapter, n: nat, log: seq<Fetch>): Counts
    requires Complete(adapter, n, log)
    decreases |log|
  {
    if log == [] then ZERO
    else
      var size := BlockSize(adapter, n, log[0]);
      Plus(CountBlock(adapter, n, log[0]), Tally(adapter, n + size, log[size..]))
  }

  lemma BlockInFront(adapter: Adapter, n: nat, a: seq<Fetch>, b: seq<Fetch>)
    requires BlockAt(adapter, n, a)
    ensures BlockAt(adapter, n, a + b) && (a + b)[0] == a[0]
    ensures (a + b)[BlockSize(adapter, n, a[0])..] == a[BlockSize(adapter, n, a[0])..] + b
  {
    assert forall i :: 0 <= i < |a| ==> (a + b)[i] == a[i];
  }

  lemma FirstBlock(adapter: Adapter, n: nat, log: seq<Fetch>)
    requires BlockAt(adapter, n, log)
    ensures var size := BlockSize(adapter, n, log[0]);
            && 0 < size <= |log|
            && (Complete(adapter, n, log) <==> Complete(adapter, n + size, log[size..]))
            && (Complete(adapter, n, log) ==>
                  Tally(adapter, n, log) == Plus(CountBlock(adapter, n, log[0]), Tally(adapter, n + size, log[size..])))
  {
    hide CountBlock;
  }

  lemma NoBlock(adapter: Adapter, n: nat, log: seq<Fetch>)
    ensures Complete(adapter, n, []) && Tally(adapter, n, []) == ZERO
    ensures Complete(adapter, n, log) ==> log == [] || BlockAt(adapter, n, log)
  {
  }

  lemma {:induction false} TallyConcat(adapter: Adapter, n: nat, a: seq<Fetch>, b: seq<Fetch>)
    requires Complete(adapter, n, a) && Complete(adapter, n + |a|, b)
    ensures Complete(adapter, n, a + b)
    ensures Tally(adapter, n, a + b) == Plus(Tally(adapter, n, a), Tally(adapter, n + |a|, b))
    decreases |a|
  {
    hide Complete, Tally, BlockAt, BlockSize, CountBlock;
    NoBlock(adapter, n, a);
    if a == [] {
      assert a + b == b;
    } else {
      var size := BlockSize(adapter, n, a[0]);
      FirstBlock(adapter, n, a);
      BlockInFront(adapter, n, a, b);
      FirstBlock(adapter, n, a + b);
      assert n + size + |a[size..]| == n + |a|;
      TallyConcat(adapter, n + size, a[size..], b);
    }
  }

  /** Between two states whole batches were asked for, and the counters grew by what their replies say. */
  ghost predicate Accounts(adapter: Adapter, a: Sync, b: Sync) {
    && a.log <= b.log && Complete(adapter, |a.log|, b.log[|a.log|..])
    && CountsOf(b) == Plus(CountsOf(a), Tally(adapter, |a.log|, b.log[|a.log|..]))
  }

  lemma AccountsChain(adapter: Adapter, a: Sync, b: Sync, c: Sync)
    requires Accounts(adapter, a, b) && Accounts(adapter, b, c)
    ensures Accounts(adapter, a, c)
  {
    hide Complete, Tally;
    var first, second := b.log[|a.log|..], c.log[|b.log|..];
    assert c.log[|a.log|..] == first + second;
    assert |a.log| + |first| == |b.log|;
    TallyConcat(adapter, |a.log|, first, second);
  }

  lemma AccountsSame(adapter: Adapter, a: Sync, b: Sync)
    requires a.log == b.log && CountsOf(a) == CountsOf(b)
    ensures Accounts(adapter, a, b)
  {
    assert b.log[|a.log|..] == [];
  }

  lemma FetchOneCounts(adapter: Adapter, st: Sync, w: Window, symbol: Symbol)
    ensures var after := FetchOne(adapter, st, w, symbol);
            && after.log == st.log + [Fetch([symbol], w)]
            && CountsOf(after) == Plus(CountsOf(st), CountRetry(adapter(|st.log|, Fetch([symbol], w)), symbol))
  {
    hide Merge;
    var reply := adapter(|st.log|, Fetch([symbol], w));
    if reply.Delivered? {
      assert symbol in SymbolsWithRows(reply.rows) <==> HasRows(reply.rows, symbol);
    }
  }

  lemma {:induction false} FetchEachCounts(adapter: Adapter, st: Sync, w: Window, symbols: seq<Symbol>)
    ensures var after := FetchEach(adapter, st, w, symbols);
            && |after.log| == |st.log| + |symbols| && st.log <= after.log
            && (forall i :: 0 <= i < |symbols| ==> after.log[|st.log| + i] == Fetch([symbols[i]], w))
            && CountsOf(after) == Plus(CountsOf(st), Retries(adapter, |st.log|, symbols, w))
  {
    hide FetchOne, CountRetry;
    if symbols != [] {
      var front, last := symbols[..|symbols| - 1], symbols[|symbols| - 1];
      FetchEachCounts(adapter, st, w, front);
      FetchOneCounts(adapter, FetchEach(adapter, st, w, front), w, last);
    }
  }

  lemma DeliveredCounts(rows: seq<Key>, pending: seq<Symbol>)
    ensures CountBatch(rows, pending) ==
              Counts(|SymbolsWithRows(rows)|, |Members(pending) - SymbolsWithRows(rows)|, 0)
  {
    assert (set s | s in pending && !HasRows(rows, s)) == Members(pending) - SymbolsWithRows(rows);
  }

  lemma DeliveredBlock(adapter: Adapter, st: Sync, w: Window, pending: seq<Symbol>)
    requires adapter(|st.log|, Fetch(pending, w)).Delivered?
    ensures Accounts(adapter, st, FetchPending(adapter, st, w, pending))
  {
    var f, n := Fetch(pending, w), |st.log|;
    var after := FetchPending(adapter, st, w, pending);
    DeliveredCounts(adapter(n, f).rows, pending);
    assert after.log[n..] == [f];
    OneBlock(adapter, n, [f]);
    hide Complete, Tally, Retries, FetchEach, CountBatch, Merge, Upsert, SymbolsWithRows, Members;
  }

  lemma RetriedBlock(adapter: Adapter, st: Sync, w: Window, pending: seq<Symbol>)
    requires adapter(|st.log|, Fetch(pending, w)).Failed?
    ensures Accounts(adapter, st, FetchPending(adapter, st, w, pending))
  {
    hide Complete, Tally, Retries, FetchEach;
    var f, n := Fetch(pending, w), |st.log|;
    var asked := st.(log := st.log + [f]);
    var after := FetchPending(adapter, st, w, pending);
    FetchEachCounts(adapter, asked, w, pending);
    var mine := after.log[n..];
    assert mine[0] == asked.log[n] == f;
    OneBlock(adapter, n, mine);
  }

  lemma FetchPendingCounts(adapter: Adapter, st: Sync, w: Window, pending: seq<Symbol>)
    ensures Accounts(adapter, st, FetchPending(adapter, st, w, pending))
  {
    hide Accounts, FetchPending;
    if adapter(|st.log|, Fetch(pending, w)).Delivered? {
      DeliveredBlock(adapter, st, w, pending);
    } else {
      RetriedBlock(adapter, st, w, pending);
    }
  }

  lemma OneBlock(adapter: Adapter, n: nat, log: seq<Fetch>)
    requires BlockAt(adapter, n, log) && |log| == BlockSize(adapter, n, log[0])
    ensures Complete(adapter, n, log) && Tally(adapter, n, log) == CountBlock(adapter, n, log[0])
  {
    hide BlockSize, CountBlock, Complete, Tally;
    assert |log| > 0 && log[|log|..] == [];
    FirstBlock(adapter, n, log);
    NoBlock(adapter, n + |log|, []);
  }

  lemma BatchCounts(adapter: Adapter, req: Request, st: Sync, w: Window, batch: seq<Symbol>)
    ensures Accounts(adapter, st, RunBatch(adapter, req, st, w, batch))
  {
    hide FetchPending, Complete, Tally, Pending;
    var pending := Pending(req, st.days, w, batch);
    var counted := st.(skipped := st.skipped + |batch| - |pending|);
    AccountsSame(adapter, st, counted);
    if pending != [] {
      FetchPendingCounts(adapter, counted, w, pending);
    }
  }

  lemma {:induction false} WindowCounts(adapter: Adapter, req: Request, st: Sync, w: Window, from: nat)
    ensures Accounts(adapter, st, RunWindow(adapter, req, st, w, from))
    decreases |req.symbols| - from
  {
    hide RunBatch, Accounts;
    if from >= |req.symbols| {
      AccountsSame(adapter, st, st);
    } else {
      var next := RunBatch(adapter, req, st, w, Batch(req, from));
      BatchCounts(adapter, req, st, w, Batch(req, from));
      WindowCounts(adapter, req, next, w, from + BatchSize(req));
      AccountsChain(adapter, st, next, RunWindow(adapter, req, st, w, from));
    }
  }

  lemma {:induction false} WindowsCount(adapter: Adapter, req: Request, st: Sync, windows: seq<Window>)
    ensures Accounts(adapter, st, RunWindows(adapter, req, st, windows))
    decreases |windows|
  {
    hide RunWindow, Accounts;
    if windows == [] {
      AccountsSame(adapter, st, st);
    } else {
      var next := RunWindow(adapter, req, st, windows[0], 0);
      WindowCounts(adapter, req, st, windows[0], 0);
      WindowsCount(adapter, req, next, windows[1..]);
      AccountsChain(adapter, st, next, RunWindows(adapter, req, st, windows));
    }
  }

  /**
   The requests of a whole run are batches, a failed one followed by one request for each of its stocks, and the
   counters are what the replies add up to: a stock is failed only if its own retry failed, a success if a reply to
   its request has rows of it, without data otherwise.
   */
  lemma CountersAreReplies(adapter: Adapter, req: Request, table: set<Key>, windows: seq<Window>)
    ensures var end := RunWindows(adapter, req, Start(table, req), windows);
            && Complete(adapter, 0, end.log)
            && end.success == Tally(adapter, 0, end.log).success
            && end.noData == Tally(adapter, 0, end.log).noData
            && end.failed == Tally(adapter, 0, end.log).failed
  {
    hide RunWindows, Complete, Tally;
    WindowsCount(adapter, req, Start(table, req), windows);
    var end := RunWindows(adapter, req, Start(table, req), windows);
    assert end.log[0..] == end.log;
  }
}
