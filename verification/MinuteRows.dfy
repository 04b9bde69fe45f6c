/**
 "The first minute that ends k consecutive minutes of at least X turnover each" (data_center_repository.py): rows of
 one-minute bars, in order of time and stock, and the definition that the query and the scan are measured against.
 */
module MinuteRows {
  import opened Clock
  import opened Sorting

  /** Stocks are numbered in the text order of their codes. */
  type Code = nat

  /** Minutes are counted, and triggers are sought, separately for each stock and day. */
  datatype StockDay = StockDay(code: Code, day: Day)

  datatype Row = Row(code: Code, day: Day, time: Second, amount: int, close: int) {
    function Minute(): nat {
      time / 60
    }

    function Key(): StockDay {
      StockDay(code, day)
    }
  }

  predicate RowLess(a: Row, b: Row) {
    a.day < b.day || (a.day == b.day && (a.time < b.time || (a.time == b.time && a.code < b.code)))
  }

  /** The rows that pass a test, in table order. */
  function Pick(rows: seq<Row>, keep: Row -> bool): (r: seq<Row>)
    ensures forall x :: x in r <==> x in rows && keep(x)
  {
    if rows == [] then []
    else
      var front, x := Pick(rows[..|rows| - 1], keep), rows[|rows| - 1];
      if keep(x) then front + [x] else front
  }

  lemma {:induction false} PickKeepsOrder(rows: seq<Row>, keep: Row -> bool, less: (Row, Row) -> bool)
    requires Strict(less, rows)
    ensures Strict(less, Pick(rows, keep))
  {
    if rows != [] {
      var front, x := rows[..|rows| - 1], rows[|rows| - 1];
      PickKeepsOrder(front, keep, less);
      var p := Pick(front, keep);
      forall i | 0 <= i < |p|
        ensures less(p[i], x)
      {
        assert p[i] in p;
        var j :| 0 <= j < |front| && front[j] == p[i];
        assert rows[j] == front[j];
      }
    }
  }

  lemma {:induction false} PickSame(rows: seq<Row>, f: Row -> bool, g: Row -> bool)
    requires forall r :: r in rows ==> f(r) == g(r)
    ensures Pick(rows, f) == Pick(rows, g)
  {
    if rows != [] {
      assert rows[|rows| - 1] in rows;
      PickSame(rows[..|rows| - 1], f, g);
    }
  }

  lemma {:induction false} PickTwice(rows: seq<Row>, f: Row -> bool, g: Row -> bool)
    requires forall r :: r in rows && g(r) ==> f(r)
    ensures Pick(Pick(rows, f), g) == Pick(rows, g)
  {
    if rows != [] {
      var front, x := rows[..|rows| - 1], rows[|rows| - 1];
      assert x in rows;
      PickTwice(front, f, g);
      var p := Pick(front, f);
      assert f(x) ==> Pick(rows, f) == p + [x] && (p + [x])[..|p|] == p;
    }
  }

  // ---------------------------------------------------------------------------
  // The definition

  ghost predicate HotAt(rows: seq<Row>, least: int, key: StockDay, minute: int) {
    exists r :: r in rows && r.Key() == key && r.Minute() == minute && r.amount >= least
  }

  /** Minutes `minute - k + 1 .. minute` all exist and reach the amount. */
  ghost predicate RunEnds(rows: seq<Row>, least: int, key: StockDay, minute: int, k: nat) {
    forall m :: minute - k < m <= minute ==> HotAt(rows, least, key, m)
  }

  /** A row that ends such a run, the first of its stock and day to do so. */
  ghost predicate IsTrigger(rows: seq<Row>, least: int, k: nat, r: Row) {
    && r in rows && r.amount >= least && RunEnds(rows, least, r.Key(), r.Minute(), k)
    && forall q :: q in rows && q.Key() == r.Key() && q.amount >= least && q.time < r.time ==>
         !RunEnds(rows, least, r.Key(), q.Minute(), k)
  }

  ghost function TriggerTest(rows: seq<Row>, least: int, k: nat): Row -> bool {
    (r: Row) => IsTrigger(rows, least, k, r)
  }

  /** The triggers, in row order. */
  ghost function Triggers(rows: seq<Row>, least: int, k: nat): seq<Row> {
    Pick(rows, TriggerTest(rows, least, k))
  }

  lemma RunStep(rows: seq<Row>, least: int, key: StockDay, minute: int, k: nat)
    requires k >= 1
    ensures RunEnds(rows, least, key, minute, k) <==>
              HotAt(rows, least, key, minute) && RunEnds(rows, least, key, minute - 1, k - 1)
  {
  }

  // ---------------------------------------------------------------------------
  // Tables

  /** In key order, with at most one bar per stock, day and whole minute. */
  predicate Earlier(a: Row, b: Row) {
    RowLess(a, b) && (a.Key() == b.Key() ==> a.Minute() < b.Minute())
  }

  ghost predicate OneBarPerMinute(rows: seq<Row>) {
    Strict(Earlier, rows)
  }

  /** In key order, and of the bars of a minute at most one reaches the amount. */
  function EarlierIfHot(least: int): (Row, Row) -> bool {
    (a: Row, b: Row) =>
      RowLess(a, b) && (a.Key() == b.Key() && a.amount >= least && b.amount >= least ==> a.Minute() < b.Minute())
  }

  ghost predicate OneHotBarPerMinute(rows: seq<Row>, least: int) {
    Strict(EarlierIfHot(least), rows)
  }

  lemma OneBarIsOneHotBar(rows: seq<Row>, least: int)
    requires OneBarPerMinute(rows)
    ensures OneHotBarPerMinute(rows, least)
  {
  }

  /** No row occurs twice. */
  lemma SameTimeSameRow(rows: seq<Row>, least: int, a: Row, b: Row)
    requires OneHotBarPerMinute(rows, least) && a in rows && b in rows && a.Key() == b.Key() && a.time == b.time
    ensures a == b
  {
    var i :| 0 <= i < |rows| && rows[i] == a;
    var j :| 0 <= j < |rows| && rows[j] == b;
    assert i < j ==> EarlierIfHot(least)(a, b);
    assert j < i ==> EarlierIfHot(least)(b, a);
  }

  /** A stock has at most one trigger a day. */
  lemma OneTriggerPerDay(rows: seq<Row>, least: int, k: nat, a: Row, b: Row)
    requires OneHotBarPerMinute(rows, least) && a.Key() == b.Key()
    requires IsTrigger(rows, least, k, a) && IsTrigger(rows, least, k, b)
    ensures a == b
  {
    hide RunEnds, OneHotBarPerMinute;
    SameTimeIf(rows, least, a, b);
  }

  lemma SameTimeIf(rows: seq<Row>, least: int, a: Row, b: Row)
    requires OneHotBarPerMinute(rows, least) && a in rows && b in rows && a.Key() == b.Key()
    ensures a.time == b.time ==> a == b
  {
    hide OneHotBarPerMinute;
    if a.time == b.time {
      SameTimeSameRow(rows, least, a, b);
    }
  }

  /** Being a trigger only concerns the rows of one stock and day. */
  lemma TriggerIsLocal(a: seq<Row>, b: seq<Row>, least: int, k: nat, r: Row)
    requires forall q: Row :: q.Key() == r.Key() ==> (q in a <==> q in b)
    ensures IsTrigger(a, least, k, r) <==> IsTrigger(b, least, k, r)
  {
    forall m: int
      ensures HotAt(a, least, r.Key(), m) <==> HotAt(b, least, r.Key(), m)
    {
      HotIsLocal(a, b, least, r.Key(), m);
      HotIsLocal(b, a, least, r.Key(), m);
    }
    hide HotAt;
    forall m: int
      ensures RunEnds(a, least, r.Key(), m, k) <==> RunEnds(b, least, r.Key(), m, k)
    {
    }
  }

  lemma HotIsLocal(a: seq<Row>, b: seq<Row>, least: int, key: StockDay, minute: int)
    requires forall q: Row :: q.Key() == key && q in a ==> q in b
    ensures HotAt(a, least, key, minute) ==> HotAt(b, least, key, minute)
  {
  }

  // ---------------------------------------------------------------------------
  // Triggers of any table in key order

  lemma TimesAscend(rows: seq<Row>, i: nat, j: nat)
    requires Strict(RowLess, rows) && i < |rows| && j < |rows| && rows[i].Key() == rows[j].Key()
    ensures rows[i].time < rows[j].time <==> i < j
    ensures rows[i].time == rows[j].time <==> i == j
  {
    assert i < j ==> RowLess(rows[i], rows[j]);
    assert j < i ==> RowLess(rows[j], rows[i]);
  }

  ghost predicate HotRun(rows: seq<Row>, least: int, k: nat, key: StockDay, i: int) {
    && 0 <= i < |rows| && rows[i].Key() == key && rows[i].amount >= least
    && RunEnds(rows, least, key, rows[i].Minute(), k)
  }

  /** A row is a trigger iff it is hot, ends a run, and no earlier hot row of its stock-day does. */
  lemma TriggerIsFirstRun(rows: seq<Row>, least: int, k: nat, n: nat)
    requires Strict(RowLess, rows) && n < |rows|
    ensures var key := rows[n].Key();
            IsTrigger(rows, least, k, rows[n]) <==>
              HotRun(rows, least, k, key, n) && forall j :: 0 <= j < n ==> !HotRun(rows, least, k, key, j)
  {
    hide RunEnds;
    var key := rows[n].Key();
    assert rows[n] in rows;
    if IsTrigger(rows, least, k, rows[n]) {
      forall j | 0 <= j < n
        ensures !HotRun(rows, least, k, key, j)
      {
        if rows[j].Key() == key {
          TimesAscend(rows, j, n);
          assert rows[j] in rows;
        }
      }
    } else if HotRun(rows, least, k, key, n) {
      var q :| q in rows && q.Key() == key && q.amount >= least && q.time < rows[n].time &&
        RunEnds(rows, least, key, q.Minute(), k);
      var j :| 0 <= j < |rows| && rows[j] == q;
      TimesAscend(rows, j, n);
      assert HotRun(rows, least, k, key, j);
    }
  }

  /** So a stock-day with such a row has a trigger, no later than that row. */
  lemma {:induction false} RunHasTrigger(rows: seq<Row>, least: int, k: nat, key: StockDay, i: nat) returns (t: nat)
    requires Strict(RowLess, rows) && HotRun(rows, least, k, key, i)
    ensures t <= i < |rows| && rows[t].Key() == key && IsTrigger(rows, least, k, rows[t])
    decreases i
  {
    hide RunEnds, IsTrigger;
    if j: nat :| j < i && HotRun(rows, least, k, key, j) {
      t := RunHasTrigger(rows, least, k, key, j);
    } else {
      t := i;
      TriggerIsFirstRun(rows, least, k, i);
    }
  }

  lemma TriggersMembers(rows: seq<Row>, least: int, k: nat, r: Row)
    ensures r in Triggers(rows, least, k) <==> IsTrigger(rows, least, k, r)
  {
    assert IsTrigger(rows, least, k, r) ==> r in rows;
  }
}
