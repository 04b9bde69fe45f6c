/**
 The drawdown column is computed in one pass with a running peak; here it is shown to be the worst drop
 between any two points of the equity curve (backtest_engine.py, build_equity and metrics).
 */
module Drawdown {
  import opened Clock
  import opened Broker
  import opened Market
  import opened Metrics
  import opened Rounding

  /** The equity curve: the initial cash, then one point per date. */
  ghost function Point(task: Task, feed: Feed, trades: seq<Trade>, dates: seq<Day>, i: nat): real
    requires i <= |dates|
  {
    if i == 0 then task.initialCash as real else Equity(task, feed, trades, dates, i - 1)
  }

  /** The running peak is the highest point so far, and is one of the points. */
  lemma {:induction false} PeakIsHighest(task: Task, feed: Feed, trades: seq<Trade>, dates: seq<Day>, n: nat)
    returns (top: nat)
    requires n <= |dates|
    ensures top <= n && Point(task, feed, trades, dates, top) == Peak(task, feed, trades, dates, n)
    ensures forall i :: 0 <= i <= n ==> Point(task, feed, trades, dates, i) <= Peak(task, feed, trades, dates, n)
  {
    hide Equity;
    if n == 0 {
      top := 0;
    } else {
      top := PeakIsHighest(task, feed, trades, dates, n - 1);
      if Point(task, feed, trades, dates, n) >= Peak(task, feed, trades, dates, n - 1) {
        top := n;
      }
    }
  }

  lemma Quotient(q: real, a: real, b: real)
    requires b > 0.0 && q * b == a
    ensures q == a / b
  {
    var r := a / b;
    assert r * b == a;
    assert (q - r) * b == 0.0;
  }

  lemma DropIsRatio(from: real, to: real)
    requires from > 0.0
    ensures Drop(from, to) == (to / from - 1.0) * 1000000.0
  {
    var y := to / from;
    assert y * from == to;
    assert (y - 1.0) * from == to - from;
    Quotient(y - 1.0, to - from, from);
  }

  lemma HigherBaseDropsMore(peak: real, from: real, to: real)
    requires 0.0 < from <= peak && to >= 0.0
    ensures Drop(peak, to) <= Drop(from, to)
  {
    DropIsRatio(peak, to);
    DropIsRatio(from, to);
    hide Drop;
    var x, y := to / peak, to / from;
    assert x * peak == to && y * from == to;
    assert y * peak >= y * from;
    assert (y - x) * peak >= 0.0;
    assert y >= x;
  }

  lemma DropFromPeak(peak: real, to: real)
    requires peak > 0.0 && to <= peak
    ensures Round(Drop(peak, to)) <= 0
  {
    assert (to - peak) / peak <= 0.0;
    RoundWhole(0);
    RoundMonotone(Drop(peak, to), 0.0);
  }

  function Worst(rows: seq<EquityRow>): (w: int)
    requires rows != []
    ensures forall r :: r in rows ==> w <= r.drawdown
    ensures exists r :: r in rows && r.drawdown == w
  {
    var last := rows[|rows| - 1].drawdown;
    if |rows| == 1 then
      assert rows[0] in rows;
      last
    else
      var w := Worst(rows[..|rows| - 1]);
      assert rows[|rows| - 1] in rows;
      assert forall r :: r in rows[..|rows| - 1] ==> r in rows;
      Min(w, last)
  }

  lemma {:induction false} RowsAt(task: Task, feed: Feed, trades: seq<Trade>, dates: seq<Day>, n: nat, i: nat)
    requires i < n <= |dates|
    ensures Rows(task, feed, trades, dates, n)[i] == RowAt(task, feed, trades, dates, i)
  {
    hide RowAt;
    if i < n - 1 {
      RowsAt(task, feed, trades, dates, n - 1, i);
    }
  }

  /** What a drawdown of a point claims, seen from a peak. */
  ghost predicate DeepestFrom(task: Task, feed: Feed, trades: seq<Trade>, dates: seq<Day>, j: nat, d: int)
    requires j <= |dates|
  {
    forall i :: 0 <= i <= j && Point(task, feed, trades, dates, i) > 0.0 ==>
                  d <= Round(Drop(Point(task, feed, trades, dates, i), Point(task, feed, trades, dates, j)))
  }

  lemma PeakDropIsDeepest(task: Task, feed: Feed, trades: seq<Trade>, dates: seq<Day>, j: nat, peak: real)
    requires j <= |dates| && Point(task, feed, trades, dates, j) >= 0.0 && peak > 0.0
    requires forall i :: 0 <= i <= j ==> Point(task, feed, trades, dates, i) <= peak
    ensures DeepestFrom(task, feed, trades, dates, j, Round(Drop(peak, Point(task, feed, trades, dates, j))))
  {
    hide Point, Drop, Round;
    var to := Point(task, feed, trades, dates, j);
    forall i | 0 <= i <= j && Point(task, feed, trades, dates, i) > 0.0
      ensures Round(Drop(peak, to)) <= Round(Drop(Point(task, feed, trades, dates, i), to))
    {
      var from := Point(task, feed, trades, dates, i);
      HigherBaseDropsMore(peak, from, to);
      RoundMonotone(Drop(peak, to), Drop(from, to));
    }
  }

  lemma RowIsDrop(task: Task, feed: Feed, trades: seq<Trade>, dates: seq<Day>, j: nat)
    requires 0 < j <= |dates| && Peak(task, feed, trades, dates, j) > 0.0
    ensures RowAt(task, feed, trades, dates, j - 1).drawdown ==
              Round(Drop(Peak(task, feed, trades, dates, j), Point(task, feed, trades, dates, j)))
  {
    hide Peak, AccountAfter, MarketValue, Drop, Round;
  }

  /** Every drawdown is a drop from an earlier (or the same) point, never positive, and the deepest such drop. */
  lemma RowDrawdown(task: Task, feed: Feed, trades: seq<Trade>, dates: seq<Day>, j: nat) returns (top: nat)
    requires 0 < j <= |dates|
    ensures var d := RowAt(task, feed, trades, dates, j - 1).drawdown;
            var to := Point(task, feed, trades, dates, j);
            && d <= 0
            && top <= j && Point(task, feed, trades, dates, top) > 0.0
            && d == Round(Drop(Point(task, feed, trades, dates, top), to))
            && (to >= 0.0 ==> DeepestFrom(task, feed, trades, dates, j, d))
  {
    top := PeakIsHighest(task, feed, trades, dates, j);
    assert Point(task, feed, trades, dates, 0) > 0.0;
    hide Peak, Equity, Point, RowAt, Drop, Round, DeepestFrom;
    var peak := Peak(task, feed, trades, dates, j);
    RowIsDrop(task, feed, trades, dates, j);
    DropFromPeak(peak, Point(task, feed, trades, dates, j));
    if Point(task, feed, trades, dates, j) >= 0.0 {
      PeakDropIsDeepest(task, feed, trades, dates, j, peak);
    }
  }

  lemma WorstRow(rows: seq<EquityRow>) returns (k: nat)
    requires rows != []
    ensures k < |rows| && rows[k].drawdown == Worst(rows)
  {
    var worst := Worst(rows);
    var r :| r in rows && r.drawdown == worst;
    k :| 0 <= k < |rows| && rows[k] == r;
  }

  /** The reported maximum drawdown is the worst drop over all pairs of points in time order. */
  lemma MaxDrawdownIsWorstDrop(task: Task, feed: Feed, trades: seq<Trade>, dates: seq<Day>) returns (from: nat, to: nat)
    requires dates != [] && forall i :: 0 <= i <= |dates| ==> Point(task, feed, trades, dates, i) >= 0.0
    ensures var worst := Worst(Rows(task, feed, trades, dates, |dates|));
            && worst <= 0
            && from <= to <= |dates| && Point(task, feed, trades, dates, from) > 0.0
            && worst == Round(Drop(Point(task, feed, trades, dates, from), Point(task, feed, trades, dates, to)))
            && forall j :: 0 < j <= |dates| ==> DeepestFrom(task, feed, trades, dates, j, worst)
  {
    hide Point, Drop, RowAt, Rows, Round, Worst, Equity, Peak;
    var rows := Rows(task, feed, trades, dates, |dates|);
    var worst := Worst(rows);
    var k := WorstRow(rows);
    to := k + 1;
    RowsAt(task, feed, trades, dates, |dates|, k);
    from := RowDrawdown(task, feed, trades, dates, to);
    forall j | 0 < j <= |dates|
      ensures DeepestFrom(task, feed, trades, dates, j, worst)
    {
      var top := RowDrawdown(task, feed, trades, dates, j);
      RowsAt(task, feed, trades, dates, |dates|, j - 1);
      assert rows[j - 1] in rows;
    }
  }
}
