/**
 What a holding period and its average mean (backtest_engine.py, _holding_trading_days and _average_holding_days).
 */
module HoldingDays {
  import opened Clock
  import opened Holding
  import opened Rounding

  /** In ascending dates each has its place. */
  lemma {:induction false} RankIsPlace(dates: seq<Day>)
    requires Ascending(dates)
    ensures forall d: Day :: d in RankMap(dates) <==> d in dates
    ensures forall i :: 0 <= i < |dates| ==> dates[i] in RankMap(dates) && RankMap(dates)[dates[i]] == i
  {
    if dates != [] {
      var front := dates[..|dates| - 1];
      assert forall i :: 0 <= i < |front| ==> front[i] == dates[i];
      RankIsPlace(front);
    }
  }

  /** The listed dates after one day and up to another. */
  function DatesBetween(dates: seq<Day>, after: Day, to: Day): set<Day> {
    set d | d in dates && after < d <= to
  }

  lemma {:induction false} CountBetween(dates: seq<Day>, i: nat, j: nat)
    requires Ascending(dates) && i <= j < |dates|
    ensures |DatesBetween(dates, dates[i], dates[j])| == j - i
    decreases j
  {
    if i == j {
      assert DatesBetween(dates, dates[i], dates[j]) == {};
    } else {
      CountBetween(dates, i, j - 1);
      assert DatesBetween(dates, dates[i], dates[j]) == DatesBetween(dates, dates[i], dates[j - 1]) + {dates[j]};
    }
  }

  /**
   Between two listed dates the trading days after the purchase up to the sale are counted; otherwise the days of the
   calendar; a sale no later than its purchase counts as 0 either way.
   */
  lemma HeldDaysIs(dates: seq<Day>, bought: Day, sold: Day)
    requires Ascending(dates)
    ensures var days := HeldDays(RankMap(dates), bought, sold);
            && (sold <= bought ==> days == 0)
            && (sold > bought && bought in dates && sold in dates ==> days == |DatesBetween(dates, bought, sold)|)
            && (sold > bought && (bought !in dates || sold !in dates) ==> days == sold - bought)
  {
    RankIsPlace(dates);
    if bought in dates && sold in dates {
      var i :| 0 <= i < |dates| && dates[i] == bought;
      var j :| 0 <= j < |dates| && dates[j] == sold;
      if bought < sold {
        CountBetween(dates, i, j);
      }
    }
  }

  ghost predicate HeldWithin(rank: map<Day, nat>, pairs: seq<Pair>, low: nat, high: nat) {
    forall p :: p in pairs ==> low <= HeldDays(rank, p.bought, p.sold) <= high
  }

  lemma Weighed(days: nat, quantity: nat, low: nat, high: nat)
    requires low <= days <= high
    ensures low * quantity <= days * quantity <= high * quantity
  {
  }

  lemma {:induction false} WeightWithin(rank: map<Day, nat>, pairs: seq<Pair>, low: nat, high: nat)
    requires HeldWithin(rank, pairs, low, high)
    ensures low * Paired(pairs) <= WeightedDays(rank, pairs) <= high * Paired(pairs)
  {
    hide HeldDays;
    if pairs != [] {
      var front, p := pairs[..|pairs| - 1], pairs[|pairs| - 1];
      assert p in pairs;
      WeightWithin(rank, front, low, high);
      Weighed(HeldDays(rank, p.bought, p.sold), p.quantity, low, high);
      Distribute(low, Paired(front), p.quantity);
      Distribute(high, Paired(front), p.quantity);
    }
  }

  lemma Distribute(a: nat, b: nat, c: nat)
    ensures a * (b + c) == a * b + a * c
  {
  }

  lemma Ratio(weight: real, total: real, low: real, high: real)
    requires total > 0.0 && low * total <= weight <= high * total
    ensures low <= weight / total <= high
  {
    var q := weight / total;
    assert q * total == weight;
    TimesPositive(q, low, total);
    TimesPositive(high, q, total);
  }

  lemma Product(a: nat, b: nat)
    ensures (a * b) as real == a as real * b as real
  {
  }

  lemma Scaled(low: real, x: real, high: real)
    requires low <= x <= high
    ensures low * 10000.0 <= x * 10000.0 <= high * 10000.0
  {
  }

  lemma RatioWithin(weight: nat, total: nat, low: nat, high: nat)
    requires total > 0 && low * total <= weight <= high * total
    ensures low as real * 10000.0 <= weight as real / total as real * 10000.0 <= high as real * 10000.0
  {
    Product(low, total);
    Product(high, total);
    Ratio(weight as real, total as real, low as real, high as real);
    Scaled(low as real, weight as real / total as real, high as real);
  }

  /** The average lies between the shortest and the longest holding; where all are alike it is that very time. */
  lemma AverageWithin(rank: map<Day, nat>, pairs: seq<Pair>, low: nat, high: nat)
    requires HeldWithin(rank, pairs, low, high) && Paired(pairs) > 0
    ensures low * 10000 <= AverageOf(rank, pairs) <= high * 10000
  {
    hide HeldDays, Round;
    WeightWithin(rank, pairs, low, high);
    var weight, total := WeightedDays(rank, pairs), Paired(pairs);
    RatioWithin(weight, total, low, high);
    var x := weight as real / total as real * 10000.0;
    RoundWhole(low * 10000);
    RoundWhole(high * 10000);
    RoundMonotone((low * 10000) as real, x);
    RoundMonotone(x, (high * 10000) as real);
  }

  /** It is the total of days times shares over all shares, to 0.0001 days. */
  lemma AverageIsMean(rank: map<Day, nat>, pairs: seq<Pair>) returns (mean: real)
    requires Paired(pairs) > 0
    ensures mean * Paired(pairs) as real == 10000.0 * WeightedDays(rank, pairs) as real
    ensures Nearest(AverageOf(rank, pairs), mean)
  {
    hide Paired, WeightedDays;
    var weight, total := WeightedDays(rank, pairs) as real, Paired(pairs) as real;
    mean := weight / total * 10000.0;
    var q := weight / total;
    assert q * total == weight;
    assert q * 10000.0 * total == 10000.0 * (q * total);
  }

  /** Each share of a sale weighs as many days as it was held. */
  lemma {:induction false} WeightOfConcat(rank: map<Day, nat>, pairs: seq<Pair>, p: Pair)
    ensures WeightedDays(rank, pairs + [p]) == WeightedDays(rank, pairs) + HeldDays(rank, p.bought, p.sold) * p.quantity
    ensures Paired(pairs + [p]) == Paired(pairs) + p.quantity
  {
    assert (pairs + [p])[..|pairs|] == pairs;
  }
}
