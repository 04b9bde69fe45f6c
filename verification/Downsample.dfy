/** Thinning the equity curve for display (backtest_repository.py, list_equity). */
module Downsample {
  import opened Rounding

  function MaxPoints(requested: int): (m: nat)
    ensures 100 <= m <= 5000 && Clamped(m, requested, 100, 5000)
  {
    Max(100, Min(requested, 5000))
  }

  function StepFor(total: nat, maxPoints: nat): (step: nat)
    requires maxPoints > 0
    ensures step >= 1
  {
    Max(total / maxPoints, 1)
  }

  predicate Kept(i: nat, total: nat, step: nat)
    requires step >= 1
  {
    i == 0 || i + 1 == total || i % step == 0
  }

  /** Row numbers kept among the first `n`, in order. */
  function Rows(n: nat, total: nat, step: nat): (r: seq<nat>)
    requires step >= 1
    ensures forall i: nat :: i in r <==> i < n && Kept(i, total, step)
    ensures forall a, b :: 0 <= a < b < |r| ==> r[a] < r[b]
  {
    if n == 0 then []
    else
      var front := Rows(n - 1, total, step);
      assert forall a :: 0 <= a < |front| ==> front[a] in front;
      if Kept(n - 1, total, step) then front + [n - 1] else front
  }

  /** All rows up to the limit, else every step-th with the first and the last. */
  function ListEquity(total: nat, requested: int): seq<nat> {
    var m := MaxPoints(requested);
    Rows(total, total, if total <= m then 1 else StepFor(total, m))
  }

  lemma {:induction false} CountMultiples(n: nat, total: nat, step: nat)
    requires step >= 1 && n < total
    ensures n >= 1 ==> |Rows(n, total, step)| == (n - 1) / step + 1
  {
    if n > 1 {
      CountMultiples(n - 1, total, step);
      NextQuotient(n - 2, step);
    } else if n == 1 {
      assert Rows(0, total, step) == [];
    }
  }

  lemma NextQuotient(a: nat, step: nat)
    requires step >= 1
    ensures (a + 1) / step == a / step + (if (a + 1) % step == 0 then 1 else 0)
  {
    var q, r := a / step, a % step;
    assert a == q * step + r;
    if r + 1 < step {
      QuotientIs(a + 1, step, q, r + 1);
    } else {
      assert (q + 1) * step == q * step + step;
      QuotientIs(a + 1, step, q + 1, 0);
    }
  }

  /** A non-zero multiple is at least a step away from zero. */
  lemma FarMultiple(k: int, step: nat)
    requires step >= 1 && k != 0
    ensures k * step >= step || -(k * step) >= step
  {
    if k > 0 {
      assert k * step == step + (k - 1) * step;
      assert (k - 1) * step >= 0;
    } else {
      assert -(k * step) == step + (-k - 1) * step;
      assert (-k - 1) * step >= 0;
    }
  }

  lemma QuotientIs(a: nat, step: nat, q: nat, r: nat)
    requires step >= 1 && a == q * step + r && r < step
    ensures a / step == q && a % step == r
  {
    var p, s := a / step, a % step;
    assert a == p * step + s;
    assert (p - q) * step == r - s;
    if p != q {
      FarMultiple(p - q, step);
      assert false;
    }
  }

  /** First and last row are kept, and the next row kept after any kept row is at most a step away. */
  lemma GapsAreSmall(total: nat, requested: int, i: nat)
    requires i + 1 < total
    ensures var m := MaxPoints(requested);
            var step := if total <= m then 1 else StepFor(total, m);
            var kept := ListEquity(total, requested);
            && 0 in kept && total - 1 in kept
            && exists j :: j in kept && i < j <= i + step
  {
    var m := MaxPoints(requested);
    var step := if total <= m then 1 else StepFor(total, m);
    var kept := ListEquity(total, requested);
    var q := i / step;
    var next := (q + 1) * step;
    assert i == q * step + i % step;
    assert next == q * step + step;
    QuotientIs(next, step, q + 1, 0);
    var j := if next < total then next else total - 1;
    assert Kept(j, total, step);
    assert j in kept;
  }

  /** The thinned curve is not bounded by the limit but by twice the limit less one. */
  lemma AtMostTwice(total: nat, requested: int)
    requires total >= 1
    ensures |ListEquity(total, requested)| <= 2 * MaxPoints(requested) - 1
  {
    hide Rows, Kept;
    var m := MaxPoints(requested);
    var step := if total <= m then 1 else StepFor(total, m);
    RowsUpToLast(total, step);
    if total > m {
      ManyRows(total, m);
    } else if total > 1 {
      assert (total - 2) / 1 == total - 2;
    }
  }

  /** All but the last row are multiples of the step; the last comes on top. */
  lemma RowsUpToLast(total: nat, step: nat)
    requires total >= 1 && step >= 1
    ensures |Rows(total, total, step)| == (if total > 1 then (total - 2) / step + 1 else 0) + 1
  {
    CountMultiples(total - 1, total, step);
    assert total == 1 ==> Rows(0, total, step) == [];
    assert Rows(total, total, step) == Rows(total - 1, total, step) + [total - 1];
  }

  /** The limit is kept exactly when nothing is thinned out: a curve longer than the limit always exceeds it still. */
  lemma LimitKeptIff(total: nat, requested: int)
    ensures |ListEquity(total, requested)| <= MaxPoints(requested) <==> total <= MaxPoints(requested)
  {
    hide Rows, Kept;
    var m := MaxPoints(requested);
    var step := if total <= m then 1 else StepFor(total, m);
    if total == 0 {
      NoRows(step);
    } else {
      RowsUpToLast(total, step);
      if total > m {
        StillTooMany(total, m);
      } else if total > 1 {
        assert (total - 2) / 1 == total - 2;
      }
    }
  }

  lemma NoRows(step: nat)
    requires step >= 1
    ensures Rows(0, 0, step) == []
  {
  }

  lemma StillTooMany(total: nat, m: nat)
    requires total > m >= 100
    ensures (total - 2) / StepFor(total, m) + 2 > m
  {
    var s := total / m;
    assert total == s * m + total % m;
    assert s == 0 ==> s * m == 0;
    assert s >= 1;
    var q := (total - 2) / s;
    assert total - 2 == q * s + (total - 2) % s;
    QuotientAbove(q, s, m, total);
  }

  lemma QuotientAbove(q: nat, s: nat, m: nat, total: nat)
    requires s >= 1 && m >= 100 && total > m && total >= s * m && total - 2 < q * s + s
    ensures q + 2 > m
  {
    FactorKeepsOrder(q + 1, m - 1, s);
    assert (q + 1) * s == q * s + s;
    assert (m - 1) * s == s * m - s;
  }

  lemma ManyRows(total: nat, m: nat)
    requires total > m >= 100
    ensures (total - 2) / StepFor(total, m) + 2 <= 2 * m - 1
  {
    var s := total / m;
    assert total == s * m + total % m;
    assert s == 0 ==> s * m == 0;
    assert s >= 1;
    var q := (total - 2) / s;
    assert total - 2 == q * s + (total - 2) % s;
    assert (s + 1) * m == s * m + m;
    QuotientBound(q, s, m);
  }

  lemma QuotientBound(q: nat, s: nat, m: nat)
    requires s >= 1 && m >= 100 && q * s <= (s + 1) * m - 3
    ensures q + 2 <= 2 * m - 1
  {
    assert (2 * m - 2) * s - ((s + 1) * m - 3) == (m - 2) * (s - 1) + 1;
    assert (m - 2) * (s - 1) >= 0;
    FactorKeepsOrder(2 * m - 2, q, s);
  }

  lemma FactorKeepsOrder(a: nat, b: nat, s: nat)
    ensures a <= b ==> a * s <= b * s
  {
    if a <= b {
      assert (b - a) * s >= 0;
    }
  }

  /** The bound is reached for every limit. */
  lemma TwiceIsReached(requested: int)
    ensures var m := MaxPoints(requested); |ListEquity(2 * m - 1, requested)| == 2 * m - 1
  {
    var m := MaxPoints(requested);
    var total := 2 * m - 1;
    assert StepFor(total, m) == 1 by {
      QuotientIs(total, m, 1, m - 1);
    }
    assert ListEquity(total, requested) == Rows(total, total, 1);
    EveryRow(total);
  }

  lemma EveryRow(total: nat)
    requires total >= 2
    ensures |Rows(total, total, 1)| == total
  {
    CountMultiples(total - 1, total, 1);
    assert (total - 2) / 1 == total - 2;
  }
}
