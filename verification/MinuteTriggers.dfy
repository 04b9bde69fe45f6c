/**
 Both trigger searches over chunks of stocks, and exactly when they return the same (data_center_repository.py,
 find_minute_amount_triggers and replay_minute_amount_triggers).
 */
module MinuteTriggers {
  import opened MinuteQuery
  import opened MinuteRows
  import opened MinuteScan
  import opened Rounding
  import opened Sorting

  function SafeLimit(limit: int): (n: nat)
    ensures 1 <= n <= 6000 && Clamped(n, limit, 1, 6000)
  {
    Min(Max(limit, 1), 6000)
  }

  function SafeConsecutive(minutes: int): (k: nat)
    ensures 1 <= k <= 60 && Clamped(k, minutes, 1, 60)
  {
    Min(Max(minutes, 1), 60)
  }

  const CHUNK: nat := 500

  /**
   The one-minute rows of a date range in key order, the stocks to search, the clock window and the two thresholds.
   */
  datatype Search = Search(table: seq<Row>, codes: seq<Code>, from: nat, to: nat, least: int, k: nat)

  function WindowTest(codes: seq<Code>, from: nat, to: nat): Row -> bool {
    (r: Row) => r.code in codes && from <= r.time <= to
  }

  /** The rows of some stocks inside the clock window. */
  function Window(q: Search, codes: seq<Code>): (rows: seq<Row>)
    ensures forall r :: r in rows <==> r in q.table && r.code in codes && q.from <= r.time <= q.to
  {
    Pick(q.table, WindowTest(codes, q.from, q.to))
  }

  /** The last day a stock has any bar on, inside the clock window or not; -1 if it has none. */
  function LatestDay(table: seq<Row>, code: Code): (d: int)
    ensures forall r :: r in table && r.code == code ==> r.day <= d
    ensures d == -1 || exists r :: r in table && r.code == code && r.day == d
  {
    if table == [] then -1
    else
      var r := table[|table| - 1];
      Max(LatestDay(table[..|table| - 1], code), if r.code == code then r.day else -1)
  }

  function RecentTest(table: seq<Row>): Row -> bool {
    (r: Row) => r.day == LatestDay(table, r.code)
  }

  /** What the query looks at: of each stock its latest day only. */
  function Recent(q: Search, codes: seq<Code>): seq<Row> {
    Pick(Window(q, codes), RecentTest(q.table))
  }

  function Chunk(codes: seq<Code>, from: nat): (c: seq<Code>)
    requires from < |codes|
    ensures c != []
    ensures forall code :: code in c ==> code in codes
    ensures forall code :: code in c <==> exists i :: from <= i < |codes| && i < from + 500 && codes[i] == code
  {
    codes[from..Min(from + CHUNK, |codes|)]
  }

  function QueryChunks(q: Search, index: nat): seq<Row>
    decreases |q.codes| - index
  {
    if index >= |q.codes| then []
    else QueryRows(Recent(q, Chunk(q.codes, index)), q.least, q.k) + QueryChunks(q, index + CHUNK)
  }

  /** A chunk's scan starts with no streaks but keeps the marks of the chunks before. */
  function ScanChunk(q: Search, index: nat, seen: set<StockDay>): Scan
    requires index < |q.codes|
  {
    var rows := Window(q, Chunk(q.codes, index));
    ScanUpTo(rows, q.least, q.k, seen, |rows|)
  }

  function ScanChunks(q: Search, index: nat, seen: set<StockDay>): seq<Row>
    decreases |q.codes| - index
  {
    if index >= |q.codes| then []
    else
      var s := ScanChunk(q, index, seen);
      s.triggers + ScanChunks(q, index + CHUNK, s.marked)
  }

  // ---------------------------------------------------------------------------
  // The chunk loops

  /** What the chunk loop has found is a prefix of all; `rest` is what the chunks to come contribute. */
  ghost predicate Progress(all: seq<Row>, found: seq<Row>, rest: seq<Row>, limit: nat) {
    |found| <= limit && AtMost(all, limit) == found + AtMost(rest, limit - |found|)
  }

  lemma Regroup(a: seq<Row>, b: seq<Row>, c: seq<Row>)
    ensures (a + b) + c == a + (b + c)
  {
  }

  lemma ProgressStart(all: seq<Row>, limit: nat)
    ensures Progress(all, [], all, limit)
  {
  }

  lemma ProgressStep(all: seq<Row>, found: seq<Row>, chunk: seq<Row>, rest: seq<Row>, limit: nat)
    requires Progress(all, found, chunk + rest, limit)
    ensures Progress(all, found + AtMost(chunk, limit - |found|), rest, limit)
  {
    var room := limit - |found|;
    var cut := AtMost(chunk, room);
    assert AtMost(chunk + rest, room) == cut + AtMost(rest, room - |cut|);
    Regroup(found, cut, AtMost(rest, room - |cut|));
  }

  lemma ProgressEnd(all: seq<Row>, found: seq<Row>, rest: seq<Row>, limit: nat)
    requires Progress(all, found, rest, limit) && (rest == [] || |found| >= limit)
    ensures found == AtMost(all, limit) && |found| <= limit
  {
    assert found + [] == found;
  }

  method FindMinuteAmountTriggers(
    table: seq<Row>, codes: seq<Code>, from: nat, to: nat, least: int, consecutive: int, limit: int)
    returns (found: seq<Row>)
    ensures var q := Search(table, codes, from, to, least, SafeConsecutive(consecutive));
            found == AtMost(QueryChunks(q, 0), SafeLimit(limit))
    ensures forall k: nat, n: nat |
              Clamped(k, consecutive, 1, 60) && Clamped(n, limit, 1, 6000) && OneBarPerMinute(table) ::
              Answers(found, Search(table, codes, from, to, least, k), n, true)
  {
    hide QueryRows, Recent, AtMost, Chunk, SafeLimit, SafeConsecutive, OneBarPerMinute, Answers, LatestDay, Window;
    var q := Search(table, codes, from, to, least, SafeConsecutive(consecutive));
    var safeLimit := SafeLimit(limit);
    found := [];
    var index := 0;
    while index < |codes| && |found| < safeLimit
      invariant Progress(QueryChunks(q, 0), found, QueryChunks(q, index), safeLimit)
      decreases |codes| - index
    {
      var rows := QueryRows(Recent(q, Chunk(codes, index)), least, q.k);
      ProgressStep(QueryChunks(q, 0), found, rows, QueryChunks(q, index + CHUNK), safeLimit);
      found := found + AtMost(rows, safeLimit - |found|);
      index := index + CHUNK;
    }
    ProgressEnd(QueryChunks(q, 0), found, QueryChunks(q, index), safeLimit);
    if OneBarPerMinute(table) {
      QueryAnswers(q, safeLimit);
      forall k: nat, n: nat | Clamped(k, consecutive, 1, 60) && Clamped(n, limit, 1, 6000)
        ensures k == q.k && n == safeLimit
      {
        OneClamp(k, q.k, consecutive, 60);
        OneClamp(n, safeLimit, limit, 6000);
      }
    }
  }

  method ReplayMinuteAmountTriggers(
    table: seq<Row>, codes: seq<Code>, from: nat, to: nat, least: int, consecutive: int, limit: int)
    returns (triggers: seq<Row>, limitHit: bool)
    ensures var q := Search(table, codes, from, to, least, SafeConsecutive(consecutive));
            var found := AtMost(ScanChunks(q, 0, {}), SafeLimit(limit));
            triggers == Sort(RowLess, found) && (limitHit <==> |found| == SafeLimit(limit))
    ensures forall k: nat, n: nat |
              Clamped(k, consecutive, 1, 60) && Clamped(n, limit, 1, 6000) && OneBarPerMinute(table) ::
              Answers(triggers, Search(table, codes, from, to, least, k), n, false) && (limitHit <==> |triggers| == n)
  {
    hide Window, AtMost, SafeLimit, SafeConsecutive, Chunk, ScanUpTo, RowLess, OneBarPerMinute, Answers, LatestDay,
      Clamped, Progress, Sort;
    ProgressStart(ScanChunks(Search(table, codes, from, to, least, SafeConsecutive(consecutive)), 0, {}),
                  SafeLimit(limit));
    var q := Search(table, codes, from, to, least, SafeConsecutive(consecutive));
    var safeLimit := SafeLimit(limit);
    ghost var all := ScanChunks(q, 0, {});
    ghost var rest := all;
    triggers := [];
    var seen: set<StockDay> := {};
    var index := 0;
    while index < |codes| && |triggers| < safeLimit
      invariant Progress(all, triggers, rest, safeLimit)
      invariant |triggers| < safeLimit ==> rest == ScanChunks(q, index, seen)
      decreases |codes| - index
    {
      ghost var s := ScanChunk(q, index, seen);
      rest := ScanChunks(q, index + CHUNK, s.marked);
      ProgressStep(all, triggers, s.triggers, rest, safeLimit);
      triggers, seen := ScanRows(Window(q, Chunk(codes, index)), least, q.k, safeLimit, triggers, seen);
      index := index + CHUNK;
    }
    ProgressEnd(all, triggers, rest, safeLimit);
    limitHit := |triggers| >= safeLimit;
    ReplayAnswers(triggers, q, consecutive, limit);
    triggers := Sort(RowLess, triggers);
  }

  lemma ReplayAnswers(found: seq<Row>, q: Search, consecutive: int, limit: int)
    requires q.k == SafeConsecutive(consecutive) && found == AtMost(ScanChunks(q, 0, {}), SafeLimit(limit))
    ensures forall k: nat, n: nat |
              Clamped(k, consecutive, 1, 60) && Clamped(n, limit, 1, 6000) && OneBarPerMinute(q.table) ::
              && Answers(Sort(RowLess, found), q.(k := k), n, false)
              && (|found| == SafeLimit(limit) <==> |Sort(RowLess, found)| == n)
  {
    hide Answers, OneBarPerMinute, RowLess, ScanChunks, AtMost, Clamped;
    if OneBarPerMinute(q.table) {
      ScanAnswers(q, SafeLimit(limit));
      SortedAnswers(found, q, SafeLimit(limit));
      forall k: nat, n: nat | Clamped(k, consecutive, 1, 60) && Clamped(n, limit, 1, 6000)
        ensures k == q.k && n == SafeLimit(limit) && q.(k := k) == q
      {
        OneClamp(k, q.k, consecutive, 60);
        OneClamp(n, SafeLimit(limit), limit, 6000);
      }
    }
  }

  lemma OneClamp(m: nat, n: nat, asked: int, most: nat)
    requires Clamped(m, asked, 1, most) && Clamped(n, asked, 1, most)
    ensures m == n
  {
  }

  /**
   A row of a listed stock inside the clock window that is the first of its stock and day to end k consecutive minutes
   of such rows, each of at least the amount; if `latest`, on the last day the stock has any row on.
   */
  ghost predicate Sought(q: Search, r: Row, latest: bool) {
    Named(q, r) && (latest ==> forall x :: x in q.table && x.code == r.code ==> x.day <= r.day)
  }

  /** Up to `limit` of the rows sought and nothing else, and all of them when fewer than `limit`. */
  ghost predicate Answers(found: seq<Row>, q: Search, limit: nat, latest: bool) {
    && |found| <= limit && (forall r :: r in found ==> Sought(q, r, latest))
    && (|found| < limit ==> forall r :: Sought(q, r, latest) ==> r in found)
  }

  lemma LatestIsSought(q: Search, r: Row)
    ensures Sought(q, r, true) <==> Named(q, r) && r.day == LatestDay(q.table, r.code)
  {
    assert Named(q, r) ==> r in Window(q, q.codes);
    hide Named, LatestDay, Window;
  }

  lemma CutAnswers(all: seq<Row>, q: Search, limit: nat, latest: bool)
    requires forall r :: r in all <==> Sought(q, r, latest)
    ensures Answers(AtMost(all, limit), q, limit, latest)
  {
    hide Sought, AtMost;
    var found := AtMost(all, limit);
    forall r | r in found
      ensures r in all
    {
      var i :| 0 <= i < |found| && found[i] == r;
      assert all[i] == r;
    }
  }

  lemma QueryAnswers(q: Search, limit: nat)
    requires OneBarPerMinute(q.table) && q.k >= 1
    ensures Answers(AtMost(QueryChunks(q, 0), limit), q, limit, true)
  {
    hide OneBarPerMinute, Answers, Sought, QueryChunks;
    forall r
      ensures r in QueryChunks(q, 0) <==> Sought(q, r, true)
    {
      ChunksFindAll(q, r);
      LatestIsSought(q, r);
    }
    CutAnswers(QueryChunks(q, 0), q, limit, true);
  }

  lemma ScanAnswers(q: Search, limit: nat)
    requires OneBarPerMinute(q.table) && q.k >= 1
    ensures Answers(AtMost(ScanChunks(q, 0, {}), limit), q, limit, false)
  {
    hide OneBarPerMinute, Answers, ScanChunks;
    forall r
      ensures r in ScanChunks(q, 0, {}) <==> Sought(q, r, false)
    {
      ChunksFindAll(q, r);
    }
    CutAnswers(ScanChunks(q, 0, {}), q, limit, false);
  }

  lemma SortedAnswers(found: seq<Row>, q: Search, limit: nat)
    requires Answers(found, q, limit, false)
    ensures Answers(Sort(RowLess, found), q, limit, false) && |Sort(RowLess, found)| == |found|
  {
    hide Sought, RowLess;
    SortPermutes(RowLess, found);
    forall r
      ensures r in Sort(RowLess, found) <==> r in found
    {
      assert r in multiset(Sort(RowLess, found)) <==> r in multiset(found);
    }
  }

  // ---------------------------------------------------------------------------
  // Both in terms of the definition

  /** The triggers of all listed stocks, over the whole clock window and all days. */
  ghost predicate Named(q: Search, r: Row) {
    IsTrigger(Window(q, q.codes), q.least, q.k, r)
  }

  ghost function QueryTriggers(q: Search, index: nat): seq<Row>
    decreases |q.codes| - index
  {
    if index >= |q.codes| then []
    else Triggers(Recent(q, Chunk(q.codes, index)), q.least, q.k) + QueryTriggers(q, index + CHUNK)
  }

  ghost function ScanTriggers(q: Search, index: nat): seq<Row>
    decreases |q.codes| - index
  {
    if index >= |q.codes| then []
    else Triggers(Window(q, Chunk(q.codes, index)), q.least, q.k) + ScanTriggers(q, index + CHUNK)
  }

  lemma WindowsInOrder(q: Search, codes: seq<Code>)
    ensures OneBarPerMinute(q.table) ==> OneBarPerMinute(Window(q, codes))
    ensures OneHotBarPerMinute(q.table, q.least) ==> OneHotBarPerMinute(Window(q, codes), q.least)
    ensures OneHotBarPerMinute(q.table, q.least) ==> OneHotBarPerMinute(Recent(q, codes), q.least)
  {
    hide EarlierIfHot, Earlier;
    if OneBarPerMinute(q.table) {
      PickKeepsOrder(q.table, WindowTest(codes, q.from, q.to), Earlier);
    }
    if OneHotBarPerMinute(q.table, q.least) {
      PickKeepsOrder(q.table, WindowTest(codes, q.from, q.to), EarlierIfHot(q.least));
      PickKeepsOrder(Window(q, codes), RecentTest(q.table), EarlierIfHot(q.least));
    }
  }

  /** Chunk by chunk, the query returns the triggers of each stock's latest day. */
  lemma {:induction false} QueryChunksAreTriggers(q: Search, index: nat)
    requires OneHotBarPerMinute(q.table, q.least) && q.k >= 1
    ensures QueryChunks(q, index) == QueryTriggers(q, index)
    decreases |q.codes| - index
  {
    hide OneHotBarPerMinute, QueryRows, Triggers, Recent, Chunk;
    if index < |q.codes| {
      QueryChunksAreTriggers(q, index + CHUNK);
      WindowsInOrder(q, Chunk(q.codes, index));
      QueryIsTriggers(Recent(q, Chunk(q.codes, index)), q.least, q.k);
    }
  }

  lemma ScanChunkIsTriggers(q: Search, index: nat, seen: set<StockDay>)
    requires OneBarPerMinute(q.table) && q.k >= 1 && index < |q.codes|
    ensures var found := Triggers(Window(q, Chunk(q.codes, index)), q.least, q.k);
            var s := ScanChunk(q, index, seen);
            s.triggers == Unseen(found, seen) && s.marked == seen + Keys(found)
  {
    hide OneBarPerMinute, Window, Chunk, Unseen, Keys, ScanUpTo, IsTrigger, Pick;
    var rows := Window(q, Chunk(q.codes, index));
    WindowsInOrder(q, Chunk(q.codes, index));
    OneBarIsChained(rows, q.least, q.k);
    ScanIsTriggers(rows, q.least, q.k, seen, |rows|);
    assert rows[..|rows|] == rows;
  }

  /** Chunk by chunk, the scan returns the triggers of all days, each stock-day once over all chunks. */
  lemma {:induction false} ScanChunksAreTriggers(q: Search, index: nat, seen: set<StockDay>)
    requires OneBarPerMinute(q.table) && q.k >= 1
    ensures ScanChunks(q, index, seen) == Unseen(ScanTriggers(q, index), seen)
    decreases |q.codes| - index
  {
    if index < |q.codes| {
      hide OneBarPerMinute, Triggers, Window, Chunk, Unseen, Keys, ScanChunk;
      var found := Triggers(Window(q, Chunk(q.codes, index)), q.least, q.k);
      ScanChunkIsTriggers(q, index, seen);
      ScanChunksAreTriggers(q, index + CHUNK, seen + Keys(found));
      UnseenConcat(found, ScanTriggers(q, index + CHUNK), seen);
    } else {
      NothingScanned(q.table, q.least, q.k, seen);
    }
  }

  // ---------------------------------------------------------------------------
  // How often each trigger is returned

  /** In how many chunks, from `index` on, a stock is listed. */
  function Listings(codes: seq<Code>, code: Code, index: nat): nat
    decreases |codes| - index
  {
    if index >= |codes| then 0
    else (if code in Chunk(codes, index) then 1 else 0) + Listings(codes, code, index + CHUNK)
  }

  lemma ChunkTrigger(q: Search, some: seq<Code>, r: Row)
    requires forall code :: code in some ==> code in q.codes
    ensures IsTrigger(Window(q, some), q.least, q.k, r) <==> r.code in some && Named(q, r)
  {
    assert IsTrigger(Window(q, some), q.least, q.k, r) ==> r in Window(q, some);
    hide IsTrigger;
    if r.code in some {
      forall x: Row | x.Key() == r.Key()
        ensures x in Window(q, some) <==> x in Window(q, q.codes)
      {
        assert x.code == r.code;
      }
      TriggerIsLocal(Window(q, some), Window(q, q.codes), q.least, q.k, r);
    }
  }

  lemma RecentTrigger(q: Search, some: seq<Code>, r: Row)
    ensures IsTrigger(Recent(q, some), q.least, q.k, r) <==>
              IsTrigger(Window(q, some), q.least, q.k, r) && r.day == LatestDay(q.table, r.code)
  {
    assert IsTrigger(Recent(q, some), q.least, q.k, r) ==> r in Recent(q, some);
    hide IsTrigger, Window;
    if r.day == LatestDay(q.table, r.code) {
      forall x: Row | x.Key() == r.Key()
        ensures x in Recent(q, some) <==> x in Window(q, some)
      {
        assert x.code == r.code && x.day == r.day;
      }
      TriggerIsLocal(Recent(q, some), Window(q, some), q.least, q.k, r);
    }
  }

  ghost predicate AllDifferent(rows: seq<Row>) {
    forall i, j :: 0 <= i < j < |rows| ==> rows[i] != rows[j]
  }

  lemma {:induction false} CountOfDifferent(rows: seq<Row>, r: Row)
    requires AllDifferent(rows)
    ensures multiset(rows)[r] == if r in rows then 1 else 0
  {
    if rows != [] {
      var front, x := rows[..|rows| - 1], rows[|rows| - 1];
      assert rows == front + [x];
      CountOfDifferent(front, r);
    }
  }

  lemma TriggersOnce(rows: seq<Row>, least: int, k: nat, r: Row)
    requires OneHotBarPerMinute(rows, least)
    ensures multiset(Triggers(rows, least, k))[r] == if IsTrigger(rows, least, k, r) then 1 else 0
  {
    var found := Triggers(rows, least, k);
    PickKeepsOrder(rows, TriggerTest(rows, least, k), EarlierIfHot(least));
    assert IsTrigger(rows, least, k, r) ==> r in rows;
    hide IsTrigger, Triggers;
    assert AllDifferent(found) by {
      assert forall i, j :: 0 <= i < j < |found| ==> EarlierIfHot(least)(found[i], found[j]);
    }
    CountOfDifferent(found, r);
    assert r in found <==> IsTrigger(rows, least, k, r) by {
      TriggersMembers(rows, least, k, r);
    }
  }

  lemma {:induction false} QueryCount(q: Search, index: nat, r: Row)
    requires OneHotBarPerMinute(q.table, q.least)
    ensures multiset(QueryTriggers(q, index))[r] ==
              if Named(q, r) && r.day == LatestDay(q.table, r.code) then Listings(q.codes, r.code, index) else 0
    decreases |q.codes| - index
  {
    hide OneHotBarPerMinute, Named, Recent, Window, Triggers, Chunk;
    if index < |q.codes| {
      var chunk := Chunk(q.codes, index);
      QueryCount(q, index + CHUNK, r);
      WindowsInOrder(q, chunk);
      TriggersOnce(Recent(q, chunk), q.least, q.k, r);
      RecentTrigger(q, chunk, r);
      ChunkTrigger(q, chunk, r);
    }
  }

  lemma {:induction false} ScanCount(q: Search, index: nat, r: Row)
    requires OneHotBarPerMinute(q.table, q.least)
    ensures multiset(ScanTriggers(q, index))[r] == if Named(q, r) then Listings(q.codes, r.code, index) else 0
    decreases |q.codes| - index
  {
    hide OneHotBarPerMinute, Named, Window, Triggers, Chunk;
    if index < |q.codes| {
      var chunk := Chunk(q.codes, index);
      ScanCount(q, index + CHUNK, r);
      WindowsInOrder(q, chunk);
      TriggersOnce(Window(q, chunk), q.least, q.k, r);
      ChunkTrigger(q, chunk, r);
    }
  }

  lemma {:induction false} ListedSomewhere(codes: seq<Code>, code: Code, index: nat)
    ensures Listings(codes, code, index) > 0 <==> index < |codes| && code in codes[index..]
    decreases |codes| - index
  {
    if index < |codes| {
      ListedSomewhere(codes, code, index + CHUNK);
      var next := Min(index + CHUNK, |codes|);
      assert codes[index..] == Chunk(codes, index) + codes[next..];
    }
  }

  lemma NamedIsListed(q: Search, r: Row)
    requires Named(q, r)
    ensures r.code in q.codes && Listings(q.codes, r.code, 0) >= 1
  {
    assert r in Window(q, q.codes);
    ListedSomewhere(q.codes, r.code, 0);
    assert q.codes[0..] == q.codes;
  }

  lemma {:induction false} UnseenCount(rows: seq<Row>, r: Row)
    requires forall a, b :: a in rows && b in rows && a.Key() == b.Key() ==> a == b
    ensures multiset(Unseen(rows, {}))[r] == if r in rows then 1 else 0
  {
    if rows != [] {
      var front, x := rows[..|rows| - 1], rows[|rows| - 1];
      assert rows == front + [x];
      UnseenCount(front, r);
      UnseenAppend(front, x, {});
      assert x.Key() in Keys(front) <==> x in front;
    }
  }

  lemma ScanMembers(q: Search, r: Row)
    requires OneBarPerMinute(q.table)
    ensures r in ScanTriggers(q, 0) <==> Named(q, r)
  {
    hide Named, ScanTriggers, OneBarPerMinute;
    OneBarIsOneHotBar(q.table, q.least);
    ScanCount(q, 0, r);
    if Named(q, r) {
      NamedIsListed(q, r);
    }
  }

  lemma OnePerStockDay(q: Search, a: Row, b: Row)
    requires OneBarPerMinute(q.table) && a in ScanTriggers(q, 0) && b in ScanTriggers(q, 0) && a.Key() == b.Key()
    ensures a == b
  {
    hide ScanTriggers, OneBarPerMinute;
    ScanMembers(q, a);
    ScanMembers(q, b);
    OneBarIsOneHotBar(q.table, q.least);
    WindowsInOrder(q, q.codes);
    OneTriggerPerDay(Window(q, q.codes), q.least, q.k, a, b);
  }

  /**
   The query returns a trigger of its stock's latest day once per chunk that lists the stock, and no other trigger;
   the scan returns every trigger of every day exactly once. Neither returns anything else.
   */
  lemma HowOften(q: Search, r: Row)
    requires OneBarPerMinute(q.table) && q.k >= 1
    ensures multiset(QueryChunks(q, 0))[r] ==
              if Named(q, r) && r.day == LatestDay(q.table, r.code) then Listings(q.codes, r.code, 0) else 0
    ensures multiset(ScanChunks(q, 0, {}))[r] == if Named(q, r) then 1 else 0
  {
    OneBarIsOneHotBar(q.table, q.least);
    QueryChunksAreTriggers(q, 0);
    ScanChunksAreTriggers(q, 0, {});
    hide *;
    QueryCount(q, 0, r);
    ScanMembers(q, r);
    forall a, b | a in ScanTriggers(q, 0) && b in ScanTriggers(q, 0) && a.Key() == b.Key()
      ensures a == b
    {
      OnePerStockDay(q, a, b);
    }
    UnseenCount(ScanTriggers(q, 0), r);
  }

  // ---------------------------------------------------------------------------
  // When the two agree

  /** Every trigger lies on its stock's latest day, and no stock with a trigger is listed in two chunks. */
  ghost predicate Agreeable(q: Search) {
    forall r :: Named(q, r) ==> r.day == LatestDay(q.table, r.code) && Listings(q.codes, r.code, 0) == 1
  }

  lemma RecentChangesNothing(q: Search, some: seq<Code>)
    requires Agreeable(q) && forall code :: code in some ==> code in q.codes
    ensures Triggers(Recent(q, some), q.least, q.k) == Triggers(Window(q, some), q.least, q.k)
  {
    var rows, recent := Window(q, some), Recent(q, some);
    var all, few := TriggerTest(rows, q.least, q.k), TriggerTest(recent, q.least, q.k);
    hide Window, IsTrigger, Named;
    forall r
      ensures all(r) ==> RecentTest(q.table)(r)
      ensures r in recent ==> few(r) == all(r)
    {
      ChunkTrigger(q, some, r);
      RecentTrigger(q, some, r);
    }
    PickSame(recent, few, all);
    PickTwice(rows, RecentTest(q.table), all);
  }

  lemma {:induction false} SameTriggers(q: Search, index: nat)
    requires Agreeable(q)
    ensures QueryTriggers(q, index) == ScanTriggers(q, index)
    decreases |q.codes| - index
  {
    hide Agreeable, Triggers, Recent, Window, Chunk;
    if index < |q.codes| {
      SameTriggers(q, index + CHUNK);
      RecentChangesNothing(q, Chunk(q.codes, index));
    }
  }

  lemma TwiceCounts(rows: seq<Row>, i: nat, j: nat)
    requires i < j < |rows| && rows[i] == rows[j]
    ensures multiset(rows)[rows[i]] >= 2
  {
    var a, b := rows[..j], rows[j..];
    assert rows == a + b && a[i] == rows[i] && b[0] == rows[j];
    assert rows[i] in a && rows[i] in b;
  }

  lemma NoStockDayTwice(q: Search)
    requires OneBarPerMinute(q.table) && Agreeable(q)
    ensures Unseen(ScanTriggers(q, 0), {}) == ScanTriggers(q, 0)
  {
    var rows := ScanTriggers(q, 0);
    hide ScanTriggers, OneBarPerMinute, Named;
    forall i, j | 0 <= i < j < |rows|
      ensures rows[i].Key() != rows[j].Key()
    {
      if rows[i].Key() == rows[j].Key() {
        OnePerStockDay(q, rows[i], rows[j]);
        TwiceCounts(rows, i, j);
        OneBarIsOneHotBar(q.table, q.least);
        ScanCount(q, 0, rows[i]);
        assert false;
      }
    }
    AllUnseen(rows);
  }

  /** Under that condition both find the same rows in the same order, so they agree under every limit ... */
  lemma AgreeableSearchesAgree(q: Search)
    requires OneBarPerMinute(q.table) && q.k >= 1 && Agreeable(q)
    ensures QueryChunks(q, 0) == ScanChunks(q, 0, {})
  {
    OneBarIsOneHotBar(q.table, q.least);
    hide *;
    QueryChunksAreTriggers(q, 0);
    ScanChunksAreTriggers(q, 0, {});
    SameTriggers(q, 0);
    NoStockDayTwice(q);
  }

  /** ... and up to the scan's final sort. As long as the limit cuts neither short, they agree iff it holds. */
  lemma ScanAndQueryAgree(q: Search, limit: nat)
    requires OneBarPerMinute(q.table) && q.k >= 1
    ensures var found, scanned := AtMost(QueryChunks(q, 0), limit), AtMost(ScanChunks(q, 0, {}), limit);
            && (Agreeable(q) ==> Sort(RowLess, found) == Sort(RowLess, scanned))
            && (|QueryChunks(q, 0)| <= limit && |ScanChunks(q, 0, {})| <= limit ==>
                  (Sort(RowLess, found) == Sort(RowLess, scanned) <==> Agreeable(q)))
  {
    hide OneBarPerMinute, Named, QueryChunks, ScanChunks, RowLess;
    var all, scan := QueryChunks(q, 0), ScanChunks(q, 0, {});
    if Agreeable(q) {
      AgreeableSearchesAgree(q);
    } else if |all| <= limit && |scan| <= limit && Sort(RowLess, all) == Sort(RowLess, scan) {
      SortPermutes(RowLess, all);
      SortPermutes(RowLess, scan);
      forall r | Named(q, r)
        ensures r.day == LatestDay(q.table, r.code) && Listings(q.codes, r.code, 0) == 1
      {
        HowOften(q, r);
      }
      assert false;
    }
  }

  /** Below the limit both return only triggers: the scan all of them, the query those of each stock's latest day. */
  lemma ChunksFindAll(q: Search, r: Row)
    requires OneBarPerMinute(q.table) && q.k >= 1
    ensures r in ScanChunks(q, 0, {}) <==> Named(q, r)
    ensures r in QueryChunks(q, 0) <==> Named(q, r) && r.day == LatestDay(q.table, r.code)
  {
    hide *;
    HowOften(q, r);
    if Named(q, r) {
      NamedIsListed(q, r);
    }
  }

  // ---------------------------------------------------------------------------
  // Blocks of 500

  /** The numbers of the blocks of 500 places in which a stock is listed, from a place on. */
  function Blocks(codes: seq<Code>, code: Code, from: nat): set<nat> {
    set i | from <= i < |codes| && codes[i] == code :: i / 500
  }

  /** A stock is listed in as many chunks as there are blocks of 500 list places it occurs in. */
  lemma {:induction false} ListingsAreBlocks(codes: seq<Code>, code: Code, block: nat)
    ensures Listings(codes, code, block * 500) == |Blocks(codes, code, block * 500)|
    decreases |codes| - block * 500
  {
    var from := block * 500;
    if from < |codes| {
      ListingsAreBlocks(codes, code, block + 1);
      assert (block + 1) * 500 == from + CHUNK;
      var later := Blocks(codes, code, from + CHUNK);
      var here: set<nat> := if code in Chunk(codes, from) then {block} else {};
      hide Listings, Chunk;
      forall b: nat
        ensures b in Blocks(codes, code, from) <==> b in here || b in later
      {
        BlockMember(codes, code, block, b);
      }
      assert Blocks(codes, code, from) == here + later;
      assert block !in later;
      NextListing(codes, code, from);
    } else {
      assert Blocks(codes, code, from) == {};
    }
  }

  lemma NextListing(codes: seq<Code>, code: Code, from: nat)
    requires from < |codes|
    ensures Listings(codes, code, from) ==
              (if code in Chunk(codes, from) then 1 else 0) + Listings(codes, code, from + CHUNK)
  {
  }

  lemma BlockMember(codes: seq<Code>, code: Code, block: nat, b: nat)
    requires block * 500 < |codes|
    ensures b in Blocks(codes, code, block * 500) <==>
              (code in Chunk(codes, block * 500) && b == block) || b in Blocks(codes, code, block * 500 + 500)
  {
    var from := block * 500;
    if b in Blocks(codes, code, from) {
      var i :| from <= i < |codes| && codes[i] == code && i / 500 == b;
    }
    if code in Chunk(codes, from) && b == block {
      var i :| from <= i < |codes| && i < from + 500 && codes[i] == code;
      assert i / 500 == block;
    }
  }
}
