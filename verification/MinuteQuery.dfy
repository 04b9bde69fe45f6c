/** The windowed gaps-and-islands query over the rows of one chunk (find_minute_amount_triggers). */
module MinuteQuery {
  import opened Clock
  import opened MinuteRows
  import opened Sorting

  function HotTest(least: int, key: StockDay): Row -> bool {
    (r: Row) => r.Key() == key && r.amount >= least
  }

  /** PARTITION BY stock and day of the rows that reach the amount, in time order. */
  function Hot(rows: seq<Row>, least: int, key: StockDay): seq<Row> {
    Pick(rows, HotTest(least, key))
  }

  /** minute_index - ROW_NUMBER() */
  function Group(hot: seq<Row>, i: nat): int
    requires i < |hot|
  {
    hot[i].Minute() - (i + 1)
  }

  /** How many of the first `n` rows fall in a group. */
  function CountGroup(hot: seq<Row>, group: int, n: nat): nat
    requires n <= |hot|
  {
    if n == 0 then 0 else CountGroup(hot, group, n - 1) + (if Group(hot, n - 1) == group then 1 else 0)
  }

  /** ROW_NUMBER() within the group */
  function HitOrder(hot: seq<Row>, i: nat): nat
    requires i < |hot|
  {
    CountGroup(hot, Group(hot, i), i + 1)
  }

  /** COUNT(*) over the group */
  function HitCount(hot: seq<Row>, i: nat): nat
    requires i < |hot|
  {
    CountGroup(hot, Group(hot, i), |hot|)
  }

  datatype Found = Nothing | Time(time: nat)

  /** MIN(trigger_time) over the rows with hit_count >= k and hit_order = k, from row `i` on. */
  function FirstHit(hot: seq<Row>, k: nat, i: nat): Found
    requires i <= |hot|
    decreases |hot| - i
  {
    if i == |hot| then Nothing
    else if HitCount(hot, i) >= k && HitOrder(hot, i) == k then Time(hot[i].time)
    else FirstHit(hot, k, i + 1)
  }

  function QueryTest(rows: seq<Row>, least: int, k: nat): Row -> bool {
    (r: Row) => FirstHit(Hot(rows, least, r.Key()), k, 0) == Time(r.time)
  }

  /** The joined rows in ORDER BY trigger_time, symbol order, which is the order of the table. */
  function QueryRows(rows: seq<Row>, least: int, k: nat): seq<Row> {
    Pick(rows, QueryTest(rows, least, k))
  }

  // ---------------------------------------------------------------------------
  // Islands are runs

  ghost predicate Ascends(hot: seq<Row>) {
    forall i, j :: 0 <= i < j < |hot| ==> hot[i].Minute() < hot[j].Minute() && hot[i].time < hot[j].time
  }

  lemma HotAscends(rows: seq<Row>, least: int, key: StockDay)
    requires OneHotBarPerMinute(rows, least)
    ensures Ascends(Hot(rows, least, key))
  {
    var hot := Hot(rows, least, key);
    PickKeepsOrder(rows, HotTest(least, key), EarlierIfHot(least));
    forall i, j | 0 <= i < j < |hot|
      ensures hot[i].Minute() < hot[j].Minute() && hot[i].time < hot[j].time
    {
      assert hot[i] in hot && hot[j] in hot;
      assert EarlierIfHot(least)(hot[i], hot[j]);
    }
  }

  lemma {:induction false} GroupsGrow(hot: seq<Row>, i: nat, j: nat)
    requires Ascends(hot) && i <= j < |hot|
    ensures Group(hot, i) <= Group(hot, j)
  {
    if i < j {
      GroupsGrow(hot, i, j - 1);
      assert hot[j - 1].Minute() < hot[j].Minute();
    }
  }

  lemma {:induction false} NoneInGroup(hot: seq<Row>, group: int, n: nat)
    requires Ascends(hot) && n <= |hot| && (n > 0 ==> Group(hot, n - 1) < group)
    ensures CountGroup(hot, group, n) == 0
  {
    if n > 0 {
      if n > 1 {
        GroupsGrow(hot, n - 2, n - 1);
      }
      NoneInGroup(hot, group, n - 1);
    }
  }

  lemma CountNext(hot: seq<Row>, group: int, i: nat)
    requires i < |hot|
    ensures CountGroup(hot, group, i + 1) == CountGroup(hot, group, i) + (if Group(hot, i) == group then 1 else 0)
  {
  }

  /** The position within an island counts up while minutes are consecutive and restarts after a gap. */
  lemma HitOrderStep(hot: seq<Row>, i: nat)
    requires Ascends(hot) && i < |hot|
    ensures HitOrder(hot, i) ==
              if i > 0 && hot[i - 1].Minute() + 1 == hot[i].Minute() then HitOrder(hot, i - 1) + 1 else 1
  {
    var group := Group(hot, i);
    CountNext(hot, group, i);
    if i > 0 && hot[i - 1].Minute() + 1 == hot[i].Minute() {
      assert Group(hot, i - 1) == group;
    } else {
      assert i > 0 ==> hot[i - 1].Minute() < hot[i].Minute();
      NoneInGroup(hot, group, i);
    }
  }

  lemma HotIndex(rows: seq<Row>, least: int, r: Row) returns (i: nat)
    requires r in rows && r.amount >= least
    ensures var hot := Hot(rows, least, r.Key()); i < |hot| && hot[i] == r
  {
    var hot := Hot(rows, least, r.Key());
    assert r in hot;
    i :| 0 <= i < |hot| && hot[i] == r;
  }

  lemma HotAtIndex(rows: seq<Row>, least: int, key: StockDay, i: nat)
    requires i < |Hot(rows, least, key)|
    ensures var r := Hot(rows, least, key)[i];
            r in rows && r.Key() == key && r.amount >= least && HotAt(rows, least, key, r.Minute())
  {
    var hot := Hot(rows, least, key);
    assert hot[i] in hot;
  }

  /** The minute before a hot row is hot iff the hot row before it is that minute. */
  lemma PreviousHot(rows: seq<Row>, least: int, key: StockDay, i: nat)
    requires OneHotBarPerMinute(rows, least) && i < |Hot(rows, least, key)|
    ensures var hot := Hot(rows, least, key);
            HotAt(rows, least, key, hot[i].Minute() as int - 1) <==>
              i > 0 && hot[i - 1].Minute() + 1 == hot[i].Minute()
  {
    var hot := Hot(rows, least, key);
    HotAscends(rows, least, key);
    hide Hot, OneHotBarPerMinute, Row.Minute, HotTest;
    var m := hot[i].Minute() as int - 1;
    if HotAt(rows, least, key, m) {
      var r :| r in rows && r.Key() == key && r.Minute() == m && r.amount >= least;
      var j := HotIndex(rows, least, r);
      assert j < i;
      assert hot[i - 1].Minute() < hot[i].Minute();
      assert j == i - 1;
    } else if i > 0 {
      HotAtIndex(rows, least, key, i - 1);
    }
  }

  lemma {:induction false} HitOrderIsRun(rows: seq<Row>, least: int, key: StockDay, i: nat, k: nat)
    requires OneHotBarPerMinute(rows, least) && 1 <= k && i < |Hot(rows, least, key)|
    ensures var hot := Hot(rows, least, key);
            HitOrder(hot, i) >= k <==> RunEnds(rows, least, key, hot[i].Minute(), k)
  {
    var hot := Hot(rows, least, key);
    HotAscends(rows, least, key);
    HitOrderStep(hot, i);
    PreviousHot(rows, least, key, i);
    var m: int := hot[i].Minute();
    HotAtIndex(rows, least, key, i);
    RunStep(rows, least, key, m, k);
    if k > 1 {
      RunStep(rows, least, key, m - 1, k - 1);
      hide Hot, HitOrder, OneHotBarPerMinute, RunEnds, HotAt, Row.Minute;
      if HotAt(rows, least, key, m - 1) {
        HitOrderIsRun(rows, least, key, i - 1, k - 1);
      }
    }
  }

  lemma {:induction false} CountGroupGrows(hot: seq<Row>, group: int, a: nat, b: nat)
    requires a <= b <= |hot|
    ensures CountGroup(hot, group, a) <= CountGroup(hot, group, b)
  {
    if a < b {
      CountGroupGrows(hot, group, a, b - 1);
    }
  }

  /** The first row whose position in its island reaches k. */
  ghost predicate FirstRun(hot: seq<Row>, k: nat, j: int) {
    0 <= j < |hot| && HitOrder(hot, j) >= k && forall x :: 0 <= x < j ==> HitOrder(hot, x) < k
  }

  /** An island that is k deep somewhere has a row at depth exactly k, no later. */
  lemma {:induction false} DepthReached(hot: seq<Row>, group: int, n: nat, k: nat) returns (x: nat)
    requires n <= |hot| && CountGroup(hot, group, n) >= k >= 1
    ensures x < n && Group(hot, x) == group && CountGroup(hot, group, x + 1) == k
  {
    CountNext(hot, group, n - 1);
    if CountGroup(hot, group, n - 1) >= k {
      x := DepthReached(hot, group, n - 1, k);
    } else {
      x := n - 1;
    }
  }

  /** So the first row at depth k or more is at depth k. */
  lemma FirstIsExact(hot: seq<Row>, k: nat, i: nat)
    requires i < |hot| && 1 <= k && HitOrder(hot, i) >= k && forall j :: 0 <= j < i ==> HitOrder(hot, j) < k
    ensures HitOrder(hot, i) == k && HitCount(hot, i) >= k
  {
    var x := DepthReached(hot, Group(hot, i), i + 1, k);
    assert HitOrder(hot, x) == k;
    CountGroupGrows(hot, Group(hot, i), i + 1, |hot|);
  }

  /** On any table the query's hit is that row. */
  lemma {:induction false} FirstHitIsFirstRun(hot: seq<Row>, k: nat, i: nat)
    requires 1 <= k && i <= |hot| && forall j :: 0 <= j < i ==> HitOrder(hot, j) < k
    ensures var f := FirstHit(hot, k, i);
            && (f.Nothing? ==> forall j :: 0 <= j < |hot| ==> HitOrder(hot, j) < k)
            && (f.Time? ==> exists j :: FirstRun(hot, k, j) && hot[j].time == f.time)
    decreases |hot| - i
  {
    if i < |hot| {
      if HitOrder(hot, i) < k {
        FirstHitIsFirstRun(hot, k, i + 1);
      } else {
        FirstIsExact(hot, k, i);
        assert FirstRun(hot, k, i);
      }
    }
  }

  // ---------------------------------------------------------------------------
  // When the query is right

  lemma HotTimes(rows: seq<Row>, least: int, key: StockDay)
    requires Strict(RowLess, rows)
    ensures var hot := Hot(rows, least, key);
            forall i, j :: 0 <= i < j < |hot| ==> hot[i].time < hot[j].time
  {
    var hot := Hot(rows, least, key);
    PickKeepsOrder(rows, HotTest(least, key), RowLess);
    forall i, j | 0 <= i < j < |hot|
      ensures hot[i].time < hot[j].time
    {
      assert hot[i] in hot && hot[j] in hot;
      assert RowLess(hot[i], hot[j]);
    }
  }

  /** The first row at depth k of a stock-day really ends a run, and its trigger stands k deep or more in its island. */
  ghost predicate IslandsFit(rows: seq<Row>, least: int, k: nat, key: StockDay) {
    var hot := Hot(rows, least, key);
    && (forall j :: FirstRun(hot, k, j) ==> RunEnds(rows, least, key, hot[j].Minute(), k))
    && (forall j :: 0 <= j < |hot| && IsTrigger(rows, least, k, hot[j]) ==> HitOrder(hot, j) >= k)
  }

  lemma DeepHasFirst(hot: seq<Row>, k: nat, i: nat) returns (j: nat)
    requires i < |hot| && HitOrder(hot, i) >= k
    ensures j <= i && FirstRun(hot, k, j)
    decreases i
  {
    hide HitOrder;
    if x: nat :| x < i && HitOrder(hot, x) >= k {
      j := DeepHasFirst(hot, k, x);
    } else {
      j := i;
    }
  }

  /** Under that condition the first row at depth k is the stock-day's trigger. */
  lemma FirstIsTrigger(rows: seq<Row>, least: int, k: nat, key: StockDay, j: nat)
    requires Strict(RowLess, rows) && 1 <= k && IslandsFit(rows, least, k, key)
    requires FirstRun(Hot(rows, least, key), k, j)
    ensures IsTrigger(rows, least, k, Hot(rows, least, key)[j])
  {
    var hot := Hot(rows, least, key);
    HotAtIndex(rows, least, key, j);
    HotTimes(rows, least, key);
    hide Hot, HitOrder, RunEnds, HotAt;
    var i :| 0 <= i < |rows| && rows[i] == hot[j];
    assert HotRun(rows, least, k, key, i);
    var t := RunHasTrigger(rows, least, k, key, i);
    TimesAscend(rows, t, i);
    TriggerIsHot(rows, least, k, rows[t]);
    var x := HotIndex(rows, least, rows[t]);
    assert HitOrder(hot, x) >= k;
    assert x >= j;
    assert hot[x].time <= hot[j].time;
    assert x == j;
  }

  lemma TriggerIsHot(rows: seq<Row>, least: int, k: nat, r: Row)
    requires IsTrigger(rows, least, k, r)
    ensures r in rows && r.amount >= least
  {
  }

  lemma HitIsTrigger(rows: seq<Row>, least: int, k: nat, r: Row)
    requires Strict(RowLess, rows) && 1 <= k && r in rows && IslandsFit(rows, least, k, r.Key())
    requires FirstHit(Hot(rows, least, r.Key()), k, 0) == Time(r.time)
    ensures IsTrigger(rows, least, k, r)
  {
    var hot := Hot(rows, least, r.Key());
    FirstHitIsFirstRun(hot, k, 0);
    hide HitOrder, FirstHit, Hot, IsTrigger, IslandsFit;
    var j :| FirstRun(hot, k, j) && hot[j].time == r.time;
    HotAtIndex(rows, least, r.Key(), j);
    SameRow(rows, hot[j], r);
    FirstIsTrigger(rows, least, k, r.Key(), j);
  }

  lemma SameRow(rows: seq<Row>, a: Row, b: Row)
    requires Strict(RowLess, rows) && a in rows && b in rows && a.Key() == b.Key() && a.time == b.time
    ensures a == b
  {
    var i :| 0 <= i < |rows| && rows[i] == a;
    var j :| 0 <= j < |rows| && rows[j] == b;
    TimesAscend(rows, i, j);
  }

  lemma TriggerIsHit(rows: seq<Row>, least: int, k: nat, r: Row)
    requires Strict(RowLess, rows) && 1 <= k && IsTrigger(rows, least, k, r) && IslandsFit(rows, least, k, r.Key())
    ensures FirstHit(Hot(rows, least, r.Key()), k, 0) == Time(r.time)
  {
    var hot := Hot(rows, least, r.Key());
    TriggerIsHot(rows, least, k, r);
    var i := HotIndex(rows, least, r);
    assert HitOrder(hot, i) >= k;
    FirstHitIsFirstRun(hot, k, 0);
    var j := DeepHasFirst(hot, k, i);
    hide HitOrder, FirstHit, Hot, IslandsFit, IsTrigger;
    var f := FirstHit(hot, k, 0);
    assert f.Time?;
    var x :| FirstRun(hot, k, x) && hot[x].time == f.time;
    HotAtIndex(rows, least, r.Key(), x);
    FirstIsTrigger(rows, least, k, r.Key(), x);
    OneTrigger(rows, least, k, hot[x], r);
  }

  lemma OneTrigger(rows: seq<Row>, least: int, k: nat, a: Row, b: Row)
    requires IsTrigger(rows, least, k, a) && IsTrigger(rows, least, k, b) && a.Key() == b.Key()
    ensures a.time == b.time
  {
  }

  /** Row by row, the query selects exactly the triggers. */
  lemma QuerySelectsTriggers(rows: seq<Row>, least: int, k: nat, r: Row)
    requires Strict(RowLess, rows) && 1 <= k && r in rows && IslandsFit(rows, least, k, r.Key())
    ensures FirstHit(Hot(rows, least, r.Key()), k, 0) == Time(r.time) <==> IsTrigger(rows, least, k, r)
  {
    hide *;
    if IsTrigger(rows, least, k, r) {
      TriggerIsHit(rows, least, k, r);
    }
    if FirstHit(Hot(rows, least, r.Key()), k, 0) == Time(r.time) {
      HitIsTrigger(rows, least, k, r);
    }
  }

  lemma WrongIsUnfit(rows: seq<Row>, least: int, k: nat, r: Row)
    requires Strict(RowLess, rows) && 1 <= k && r in rows
    requires FirstHit(Hot(rows, least, r.Key()), k, 0) == Time(r.time) <==> !IsTrigger(rows, least, k, r)
    ensures !IslandsFit(rows, least, k, r.Key())
  {
    hide *;
    if IslandsFit(rows, least, k, r.Key()) {
      QuerySelectsTriggers(rows, least, k, r);
      assert false;
    }
  }

  /** If the query selects the triggers of a stock-day and nothing else of it, its islands fit. */
  lemma RightIslandsFit(rows: seq<Row>, least: int, k: nat, key: StockDay)
    requires Strict(RowLess, rows) && 1 <= k
    requires forall r :: r in rows && r.Key() == key ==>
                           (FirstHit(Hot(rows, least, key), k, 0) == Time(r.time) <==> IsTrigger(rows, least, k, r))
    ensures IslandsFit(rows, least, k, key)
  {
    var hot := Hot(rows, least, key);
    FirstHitIsFirstRun(hot, k, 0);
    HotTimes(rows, least, key);
    hide HitOrder, FirstHit, Hot;
    forall j | FirstRun(hot, k, j)
      ensures RunEnds(rows, least, key, hot[j].Minute(), k)
    {
      HotAtIndex(rows, least, key, j);
      OnlyFirst(hot, k, j);
      assert IsTrigger(rows, least, k, hot[j]);
    }
    forall j | 0 <= j < |hot| && IsTrigger(rows, least, k, hot[j])
      ensures HitOrder(hot, j) >= k
    {
      HotAtIndex(rows, least, key, j);
      var x :| FirstRun(hot, k, x) && hot[x].time == hot[j].time;
      assert x == j;
    }
  }

  lemma OnlyFirst(hot: seq<Row>, k: nat, j: nat)
    requires FirstRun(hot, k, j) && 1 <= k
    ensures FirstHit(hot, k, 0) == Time(hot[j].time)
  {
    FirstHitIsFirstRun(hot, k, 0);
    hide HitOrder, FirstHit;
    if FirstHit(hot, k, 0).Time? {
      var x :| FirstRun(hot, k, x) && hot[x].time == FirstHit(hot, k, 0).time;
      assert x == j;
    }
  }

  /** On a table in key order the query returns exactly the triggers iff the islands of every stock-day fit. */
  lemma QueryIsRightIff(rows: seq<Row>, least: int, k: nat)
    requires Strict(RowLess, rows) && 1 <= k
    ensures QueryRows(rows, least, k) == Triggers(rows, least, k) <==> forall key :: IslandsFit(rows, least, k, key)
  {
    hide FirstHit, Hot, IsTrigger, IslandsFit;
    if forall key :: IslandsFit(rows, least, k, key) {
      forall r | r in rows
        ensures QueryTest(rows, least, k)(r) == TriggerTest(rows, least, k)(r)
      {
        QuerySelectsTriggers(rows, least, k, r);
      }
      PickSame(rows, QueryTest(rows, least, k), TriggerTest(rows, least, k));
    }
    if QueryRows(rows, least, k) == Triggers(rows, least, k) {
      forall key
        ensures IslandsFit(rows, least, k, key)
      {
        forall r | r in rows && r.Key() == key
          ensures FirstHit(Hot(rows, least, key), k, 0) == Time(r.time) <==> IsTrigger(rows, least, k, r)
        {
          assert r in QueryRows(rows, least, k) <==> r in Triggers(rows, least, k);
        }
        RightIslandsFit(rows, least, k, key);
      }
    }
  }

  /** Where at most one bar of a minute reaches the amount, islands are runs and fit ... */
  lemma OneHotBarFits(rows: seq<Row>, least: int, k: nat, key: StockDay)
    requires OneHotBarPerMinute(rows, least) && 1 <= k
    ensures IslandsFit(rows, least, k, key)
  {
    var hot := Hot(rows, least, key);
    hide HitOrder, Hot, OneHotBarPerMinute, RunEnds;
    forall j | 0 <= j < |hot|
      ensures HitOrder(hot, j) >= k <==> RunEnds(rows, least, key, hot[j].Minute(), k)
    {
      HitOrderIsRun(rows, least, key, j, k);
    }
    forall j | 0 <= j < |hot| && IsTrigger(rows, least, k, hot[j])
      ensures HitOrder(hot, j) >= k
    {
      HotAtIndex(rows, least, key, j);
    }
  }

  /** ... so there the query over a chunk returns exactly the triggers. */
  lemma QueryIsTriggers(rows: seq<Row>, least: int, k: nat)
    requires OneHotBarPerMinute(rows, least) && 1 <= k
    ensures QueryRows(rows, least, k) == Triggers(rows, least, k)
  {
    assert Strict(RowLess, rows) by {
      assert forall i, j :: 0 <= i < j < |rows| ==> EarlierIfHot(least)(rows[i], rows[j]);
    }
    hide *;
    forall key
      ensures IslandsFit(rows, least, k, key)
    {
      OneHotBarFits(rows, least, k, key);
    }
    QueryIsRightIff(rows, least, k);
  }

  // ---------------------------------------------------------------------------
  // Two hot bars in one minute

  /** Four hot bars of a stock on day 1, at these seconds. */
  function HotBars(times: seq<Second>): (r: seq<Row>)
    ensures |r| == |times| && forall i :: 0 <= i < |r| ==> r[i] == Row(1, 1, times[i], 9, 1)
  {
    seq(|times|, i requires 0 <= i < |times| => Row(1, 1, times[i], 9, 1))
  }

  lemma {:induction false} HotOfHot(rows: seq<Row>, least: int, key: StockDay)
    requires forall r :: r in rows ==> r.Key() == key && r.amount >= least
    ensures Hot(rows, least, key) == rows
  {
    if rows != [] {
      assert rows[|rows| - 1] in rows;
      HotOfHot(rows[..|rows| - 1], least, key);
    }
  }

  /** 09:30, 09:31, 09:31:30 and 09:33 */
  const GAPPED: seq<Row> := HotBars([34200, 34260, 34290, 34380])

  /**
   The query's row numbers drift behind a second bar in one minute: it puts 09:33 into the island of 09:30 and 09:31
   and reports it for k = 3, although 09:32 has no bar at all.
   */
  lemma CrowdedMinuteMisleadsQuery()
    ensures Strict(RowLess, GAPPED) && !OneHotBarPerMinute(GAPPED, 5)
    ensures FirstHit(Hot(GAPPED, 5, StockDay(1, 1)), 3, 0) == Time(34380)
    ensures !IsTrigger(GAPPED, 5, 3, GAPPED[3]) && !IslandsFit(GAPPED, 5, 3, StockDay(1, 1))
  {
    hide FirstHit, Hot, IsTrigger, IslandsFit, Strict, OneHotBarPerMinute;
    GappedInOrder();
    HotOfHot(GAPPED, 5, StockDay(1, 1));
    GappedHit();
    GappedIsNoTrigger();
    WrongIsUnfit(GAPPED, 5, 3, GAPPED[3]);
  }

  lemma GappedInOrder()
    ensures GAPPED[3] in GAPPED && GAPPED[3].Key() == StockDay(1, 1) && GAPPED[3].time == 34380
    ensures forall r :: r in GAPPED ==> r.amount >= 5 && r.Key() == StockDay(1, 1)
    ensures Strict(RowLess, GAPPED) && !OneHotBarPerMinute(GAPPED, 5)
  {
    assert !EarlierIfHot(5)(GAPPED[1], GAPPED[2]);
  }

  lemma GappedIsNoTrigger()
    ensures !IsTrigger(GAPPED, 5, 3, GAPPED[3])
  {
    assert !HotAt(GAPPED, 5, StockDay(1, 1), 572);
    hide HotAt;
    assert !RunEnds(GAPPED, 5, StockDay(1, 1), 573, 3);
  }

  lemma GappedHit()
    ensures FirstHit(GAPPED, 3, 0) == Time(34380)
  {
    assert Group(GAPPED, 0) == 569 && Group(GAPPED, 1) == 569 && Group(GAPPED, 2) == 568 && Group(GAPPED, 3) == 569;
    assert CountGroup(GAPPED, 569, 1) == 1 && CountGroup(GAPPED, 569, 2) == 2 && CountGroup(GAPPED, 569, 3) == 2;
    assert CountGroup(GAPPED, 569, 4) == 3;
    assert CountGroup(GAPPED, 568, 2) == 0 && CountGroup(GAPPED, 568, 3) == 1 && CountGroup(GAPPED, 568, 4) == 1;
    assert FirstHit(GAPPED, 3, 3) == Time(34380);
    assert FirstHit(GAPPED, 3, 2) == Time(34380);
    assert FirstHit(GAPPED, 3, 1) == Time(34380);
  }

  /** 09:30, 09:31, 09:31:30 and 09:32 */
  const CROWDED: seq<Row> := HotBars([34200, 34260, 34290, 34320])

  /** The other way round, it misses the run 09:30 to 09:32 when 09:31 has two bars. */
  lemma CrowdedMinuteHidesTriggerFromQuery()
    ensures IsTrigger(CROWDED, 5, 3, CROWDED[3]) && !IslandsFit(CROWDED, 5, 3, StockDay(1, 1))
    ensures FirstHit(Hot(CROWDED, 5, StockDay(1, 1)), 3, 0) == Nothing
  {
    hide FirstHit, Hot, IsTrigger, IslandsFit, Strict;
    CrowdedInOrder();
    HotOfHot(CROWDED, 5, StockDay(1, 1));
    CrowdedHit();
    CrowdedIsTrigger();
    WrongIsUnfit(CROWDED, 5, 3, CROWDED[3]);
  }

  lemma CrowdedInOrder()
    ensures CROWDED[3] in CROWDED && CROWDED[3].Key() == StockDay(1, 1) && Strict(RowLess, CROWDED)
    ensures forall r :: r in CROWDED ==> r.amount >= 5 && r.Key() == StockDay(1, 1)
  {
  }

  lemma CrowdedIsTrigger()
    ensures IsTrigger(CROWDED, 5, 3, CROWDED[3])
  {
    var key := StockDay(1, 1);
    assert CROWDED[0] in CROWDED && CROWDED[1] in CROWDED && CROWDED[3] in CROWDED;
    assert HotAt(CROWDED, 5, key, 570) && HotAt(CROWDED, 5, key, 571) && HotAt(CROWDED, 5, key, 572);
    assert !HotAt(CROWDED, 5, key, 569) && !HotAt(CROWDED, 5, key, 568);
    hide HotAt;
    assert !RunEnds(CROWDED, 5, key, 570, 3) && !RunEnds(CROWDED, 5, key, 571, 3);
    assert RunEnds(CROWDED, 5, key, 572, 3);
  }

  lemma CrowdedHit()
    ensures FirstHit(CROWDED, 3, 0) == Nothing
  {
    assert Group(CROWDED, 0) == 569 && Group(CROWDED, 1) == 569 && Group(CROWDED, 2) == 568 && Group(CROWDED, 3) == 568;
    assert CountGroup(CROWDED, 569, 1) == 1 && CountGroup(CROWDED, 569, 2) == 2 && CountGroup(CROWDED, 569, 3) == 2;
    assert CountGroup(CROWDED, 569, 4) == 2;
    assert CountGroup(CROWDED, 568, 2) == 0 && CountGroup(CROWDED, 568, 3) == 1 && CountGroup(CROWDED, 568, 4) == 2;
    assert FirstHit(CROWDED, 3, 4) == Nothing;
    assert FirstHit(CROWDED, 3, 3) == Nothing;
    assert FirstHit(CROWDED, 3, 2) == Nothing;
    assert FirstHit(CROWDED, 3, 1) == Nothing;
  }
}
