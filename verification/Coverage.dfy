/**
 Coverage rows (data_center_coverage.py, build_coverage_row; data_center_service.py, refresh_2026_coverage):
 when the total row may be read as "every stock is complete".
 */
module Coverage {
  import opened Clock
  import opened Options
  import opened Rounding

  datatype Status = Complete | Partial | Missing | Duplicated

  /** `rate` in 0.01 percent. */
  datatype CoverageRow = CoverageRow(status: Status, rate: int)

  function Rate(actual: nat, expected: nat): (rate: int)
    requires expected > 0
    ensures actual >= expected ==> rate == 10000
    ensures actual < expected ==> exists share: real ::
              share * expected as real == 10000.0 * actual as real && Nearest(rate, share)
  {
    Share(actual as real, expected as real);
    RoundWhole(10000);
    assert actual < expected ==> Nearest(Round(actual as real / expected as real * 10000.0),
                                         actual as real / expected as real * 10000.0);
    Round(MinReal(actual as real / expected as real, 1.0) * 10000.0)
  }

  lemma Share(actual: real, expected: real)
    requires expected > 0.0
    ensures actual / expected * 10000.0 * expected == 10000.0 * actual
    ensures actual >= expected ==> MinReal(actual / expected, 1.0) == 1.0
    ensures actual < expected ==> MinReal(actual / expected, 1.0) == actual / expected
  {
    var q := actual / expected;
    assert q * expected == actual;
    assert q * 10000.0 * expected == 10000.0 * (q * expected);
    AtMostWhole(actual, expected);
  }

  /** Enough rows, or enough days where the number of rows is not known, or anything at all where neither is. */
  predicate Enough(expectedDays: nat, actualDays: nat, expectedRows: Option<nat>, actualRows: nat) {
    if expectedRows.Some? then actualRows >= expectedRows.value
    else if expectedDays > 0 then actualDays >= expectedDays
    else actualRows > 0
  }

  /** A row is complete iff there is enough and no duplicate; missing iff there is neither enough nor a single row. */
  lemma CoverageRowIs(expectedDays: nat, actualDays: nat, expectedRows: Option<nat>, actualRows: nat, duplicates: nat)
    ensures var row := BuildCoverageRow(expectedDays, actualDays, expectedRows, actualRows, duplicates);
            var enough := Enough(expectedDays, actualDays, expectedRows, actualRows);
            && (row.status == Duplicated <==> duplicates > 0)
            && (row.status == Complete <==> duplicates == 0 && enough)
            && (row.status == Missing <==> duplicates == 0 && !enough && actualRows == 0)
            && (row.status == Partial <==> duplicates == 0 && !enough && actualRows > 0)
            && (enough ==> row.rate == 10000)
            && (!enough && expectedRows.Some? ==> row.rate == Rate(actualRows, expectedRows.value))
            && (!enough && expectedRows.None? && expectedDays > 0 ==> row.rate == Rate(actualDays, expectedDays))
            && (!enough && expectedRows.None? && expectedDays == 0 ==> row.rate == 0)
  {
    hide Round;
  }

  function BuildCoverageRow(expectedDays: nat, actualDays: nat, expectedRows: Option<nat>, actualRows: nat,
                            duplicates: nat): CoverageRow {
    var (rate, complete) :=
      if expectedRows == Some(0) then (10000, true)
      else if expectedRows.Some? then (Rate(actualRows, expectedRows.value), actualRows >= expectedRows.value)
      else if expectedDays > 0 then (Rate(actualDays, expectedDays), actualDays >= expectedDays)
      else (if actualRows > 0 then 10000 else 0, actualRows > 0);
    var status := if complete && duplicates == 0 then Complete else if actualRows > 0 then Partial else Missing;
    CoverageRow(if duplicates > 0 then Duplicated else status, rate)
  }

  // ---------------------------------------------------------------------------
  // Expected days

  /** Days from the listing date on; all of them when it is unknown. */
  function FromListing(tradingDays: seq<Day>, listed: Option<Day>): (r: seq<Day>)
    ensures forall d :: d in r <==> d in tradingDays && (listed.Some? ==> d >= listed.value)
  {
    if tradingDays == [] then []
    else
      var last, front := tradingDays[|tradingDays| - 1], FromListing(tradingDays[..|tradingDays| - 1], listed);
      if listed.Some? && last < listed.value then front else front + [last]
  }

  function ListedDays(tradingDays: seq<Day>, listed: Option<Day>): set<Day> {
    set d | d in FromListing(tradingDays, listed)
  }

  /** A stock with any daily bar is expected on its tradable days, any other on the calendar's days. */
  function ExpectedMinuteDays(dailyDays: set<Day>, tradableDays: set<Day>, tradingDays: seq<Day>,
                              listed: Option<Day>): set<Day> {
    if dailyDays != {} then tradableDays else ListedDays(tradingDays, listed)
  }

  /** A listed stock with no daily bar at all is held to the calendar; one with bars only to days it could trade. */
  lemma ListedStockMeaning(stored: set<Day>, dailyDays: set<Day>, tradableDays: set<Day>, tradingDays: seq<Day>,
                           listed: Option<Day>)
    ensures var s := Stock(stored, ExpectedMinuteDays(dailyDays, tradableDays, tradingDays, listed));
            StockMinuteRow(s).status == Complete <==>
              if dailyDays != {} then tradableDays <= stored
              else forall d :: d in tradingDays && (listed.Some? ==> d >= listed.value) ==> d in stored
  {
    StockRowMeaning(Stock(stored, ExpectedMinuteDays(dailyDays, tradableDays, tradingDays, listed)));
  }

  // ---------------------------------------------------------------------------
  // Minute rows

  /** Stored and expected minute days of the stocks a refresh covers. */
  datatype Stock = Stock(stored: set<Day>, expected: set<Day>)

  function Covered(s: Stock): nat {
    |s.stored * s.expected|
  }

  function StockMinuteRow(s: Stock): CoverageRow {
    BuildCoverageRow(|s.expected|, Covered(s), Some(|s.expected|), Covered(s), 0)
  }

  function ExpectedUnits(stocks: seq<Stock>): nat {
    if stocks == [] then 0 else ExpectedUnits(stocks[..|stocks| - 1]) + |stocks[|stocks| - 1].expected|
  }

  function CoveredUnits(stocks: seq<Stock>): nat {
    if stocks == [] then 0 else CoveredUnits(stocks[..|stocks| - 1]) + Covered(stocks[|stocks| - 1])
  }

  /** The total row: day statistics when no stock is listed, otherwise stock-days against stock-days. */
  function AllMinuteRow(stocks: seq<Stock>, expectedDays: nat, minuteDays: nat, minuteRows: nat,
                        duplicates: nat): CoverageRow {
    if stocks == [] then BuildCoverageRow(expectedDays, minuteDays, None, minuteRows, duplicates)
    else BuildCoverageRow(expectedDays, minuteDays, Some(ExpectedUnits(stocks)), CoveredUnits(stocks), duplicates)
  }

  lemma CoveredAtMostExpected(s: Stock)
    ensures Covered(s) <= |s.expected|
    ensures Covered(s) == |s.expected| <==> s.expected <= s.stored
  {
    var both := s.stored * s.expected;
    assert s.expected == both + (s.expected - both);
    assert |s.expected| == |both| + |s.expected - both|;
    if s.expected <= s.stored {
      assert both == s.expected;
    } else {
      var d :| d in s.expected && d !in s.stored;
      assert d in s.expected - both;
    }
  }

  lemma {:induction false} UnitsMeet(stocks: seq<Stock>)
    ensures CoveredUnits(stocks) <= ExpectedUnits(stocks)
    ensures CoveredUnits(stocks) == ExpectedUnits(stocks) <==> forall s :: s in stocks ==> s.expected <= s.stored
  {
    if stocks != [] {
      var front, last := stocks[..|stocks| - 1], stocks[|stocks| - 1];
      UnitsMeet(front);
      CoveredAtMostExpected(last);
      assert forall s :: s in stocks <==> s in front || s == last;
    }
  }

  /** A stock's row is complete iff each expected day is stored. */
  lemma StockRowMeaning(s: Stock)
    ensures StockMinuteRow(s).status == Complete <==> s.expected <= s.stored
  {
    CoveredAtMostExpected(s);
  }

  /**
   The unique key of the minute table makes duplicates 0. Then, for a non-empty stock list, the total row is
   complete iff every stock's row is; on an empty list it follows the day statistics instead.
   */
  lemma AllMinuteRowIsEveryRow(stocks: seq<Stock>, expectedDays: nat, minuteDays: nat, minuteRows: nat)
    ensures stocks != [] ==>
              (AllMinuteRow(stocks, expectedDays, minuteDays, minuteRows, 0).status == Complete <==>
                 forall s :: s in stocks ==> StockMinuteRow(s).status == Complete)
    ensures stocks == [] ==>
              (AllMinuteRow(stocks, expectedDays, minuteDays, minuteRows, 0).status == Complete <==>
                 if expectedDays > 0 then minuteDays >= expectedDays else minuteRows > 0)
  {
    UnitsMeet(stocks);
    forall s
      ensures StockMinuteRow(s).status == Complete <==> s.expected <= s.stored
    {
      StockRowMeaning(s);
    }
  }

  /** Any duplicate spoils the total row and no stock's row. */
  lemma DuplicatesShowOnlyInTotal(stocks: seq<Stock>, expectedDays: nat, minuteDays: nat, minuteRows: nat,
                                  duplicates: nat)
    requires duplicates > 0
    ensures AllMinuteRow(stocks, expectedDays, minuteDays, minuteRows, duplicates).status == Duplicated
    ensures forall s: Stock :: StockMinuteRow(s).status != Duplicated
  {
  }

  // ---------------------------------------------------------------------------
  // Daily rows count stored rows, expected or not

  /** Daily bars stored in the range, one per day, of a stock. */
  function StockDailyRow(s: Stock): CoverageRow {
    BuildCoverageRow(|s.expected|, |s.stored|, Some(|s.expected|), |s.stored|, 0)
  }

  function StoredUnits(stocks: seq<Stock>): nat {
    if stocks == [] then 0 else StoredUnits(stocks[..|stocks| - 1]) + |stocks[|stocks| - 1].stored|
  }

  /** `dailyRows` counts every stored row of the range, of listed stocks and others. */
  function AllDailyRow(stocks: seq<Stock>, stockCount: nat, expectedDays: nat, dailyDays: nat,
                       dailyRows: nat): CoverageRow {
    var expected := if stocks == [] then Max(stockCount, 1) * expectedDays else ExpectedUnits(stocks);
    BuildCoverageRow(expectedDays, dailyDays, Some(expected), dailyRows, 0)
  }

  lemma SplitByExpectation(s: Stock)
    ensures |s.stored| == Covered(s) + |s.stored - s.expected|
    ensures |s.expected| == Covered(s) + |s.expected - s.stored|
    ensures |s.expected - s.stored| == 0 <==> s.expected <= s.stored
  {
    var both := s.stored * s.expected;
    assert s.stored == both + (s.stored - s.expected);
    assert s.expected == both + (s.expected - s.stored);
    assert s.expected - s.stored == {} <==> s.expected <= s.stored;
  }

  /**
   A stock's daily row is complete iff it has at least as many unexpected days as missing ones. So it says that
   each expected day is stored except where some are missing and at least as many unexpected ones are there.
   */
  lemma DailyRowMeaning(s: Stock)
    ensures StockDailyRow(s).status == Complete <==> |s.expected - s.stored| <= |s.stored - s.expected|
    ensures (StockDailyRow(s).status == Complete <==> s.expected <= s.stored) <==>
              !(0 < |s.expected - s.stored| <= |s.stored - s.expected|)
  {
    SplitByExpectation(s);
  }

  /** The only expected day is missing, a day before the listing is there, and the row is complete. */
  lemma DailyRowHidesGap()
    ensures var s := Stock({1}, ListedDays([1, 2], Some(2)));
            StockDailyRow(s).status == Complete && 2 in s.expected && 2 !in s.stored
  {
    OnlySecondDay();
    assert {2} - {1} == {2} && {1} - {2} == {1};
    DailyRowMeaning(Stock({1}, {2}));
  }

  // ---------------------------------------------------------------------------
  // The daily total

  /** Stock-days short of the expected number, summed over the stocks that are short. */
  function Shortage(stocks: seq<Stock>): nat {
    if stocks == [] then 0
    else
      var s := stocks[|stocks| - 1];
      Shortage(stocks[..|stocks| - 1]) + Max(|s.expected| - |s.stored|, 0)
  }

  /** Stock-days above the expected number, summed over the stocks that are above. */
  function Surplus(stocks: seq<Stock>): nat {
    if stocks == [] then 0
    else
      var s := stocks[|stocks| - 1];
      Surplus(stocks[..|stocks| - 1]) + Max(|s.stored| - |s.expected|, 0)
  }

  lemma {:induction false} UnitsBalance(stocks: seq<Stock>)
    ensures StoredUnits(stocks) + Shortage(stocks) == ExpectedUnits(stocks) + Surplus(stocks)
  {
    if stocks != [] {
      UnitsBalance(stocks[..|stocks| - 1]);
    }
  }

  lemma {:induction false} NoShortage(stocks: seq<Stock>)
    ensures Shortage(stocks) == 0 <==> forall s :: s in stocks ==> StockDailyRow(s).status == Complete
  {
    if stocks != [] {
      var front, last := stocks[..|stocks| - 1], stocks[|stocks| - 1];
      assert forall s :: s in stocks <==> s in front || s == last;
      NoShortage(front);
      assert StockDailyRow(last).status == Complete <==> |last.stored| >= |last.expected|;
      hide StockDailyRow;
      assert last in stocks;
      assert Shortage(stocks) == 0 <==> Shortage(front) == 0 && StockDailyRow(last).status == Complete;
    }
  }

  /**
   With `others` rows of stocks that are not listed, the daily total is complete iff surplus and other rows pay for
   the shortage. It tells whether every stock's row is complete except where they pay for a real one.
   */
  lemma DailyTotalMeaning(stocks: seq<Stock>, stockCount: nat, expectedDays: nat, dailyDays: nat, others: nat)
    requires stocks != []
    ensures var total := AllDailyRow(stocks, stockCount, expectedDays, dailyDays, StoredUnits(stocks) + others);
            && (total.status == Complete <==> Shortage(stocks) <= Surplus(stocks) + others)
            && ((total.status == Complete <==> forall s :: s in stocks ==> StockDailyRow(s).status == Complete) <==>
                  !(0 < Shortage(stocks) <= Surplus(stocks) + others))
  {
    UnitsBalance(stocks);
    NoShortage(stocks);
  }

  /** Complete daily rows always make the daily total complete ... */
  lemma DailyRowsCompleteTotal(stocks: seq<Stock>, stockCount: nat, expectedDays: nat, dailyDays: nat, dailyRows: nat)
    requires stocks != [] && dailyRows >= StoredUnits(stocks)
    requires forall s :: s in stocks ==> StockDailyRow(s).status == Complete
    ensures AllDailyRow(stocks, stockCount, expectedDays, dailyDays, dailyRows).status == Complete
  {
    NoShortage(stocks);
    UnitsBalance(stocks);
  }

  lemma OnlySecondDay()
    ensures ListedDays([1, 2], Some(2)) == {2}
  {
    assert FromListing([1, 2], Some(2)) == [2] by {
      assert [1, 2][..1] == [1] && [1][..0] == [];
      assert FromListing([1], Some(2)) == [];
    }
  }

  /**
   ... but not the other way round: of two stocks listed on day 2, one's bar of day 1 pays for the other's missing
   day.
   */
  lemma DailyTotalHidesGap()
    ensures var expected := ListedDays([1, 2], Some(2));
            var stocks := [Stock({1, 2}, expected), Stock({}, expected)];
            && AllDailyRow(stocks, 2, 2, 2, StoredUnits(stocks)).status == Complete
            && StockDailyRow(stocks[1]).status != Complete
  {
    OnlySecondDay();
    var stocks := [Stock({1, 2}, {2}), Stock({}, {2})];
    assert stocks[..1] == [Stock({1, 2}, {2})] && stocks[..1][..0] == [];
    assert Shortage(stocks[..1]) == 0 && Surplus(stocks[..1]) == |{1, 2}| - |{2}| == 1;
    assert Shortage(stocks) == 1 && Surplus(stocks) == 1;
    DailyTotalMeaning(stocks, 2, 2, 2, 0);
  }

  // ---------------------------------------------------------------------------
  // The displayed rate

  lemma MissingShare(actual: real, expected: real)
    requires expected > 0.0
    ensures (10000.0 - actual / expected * 10000.0) * expected == 10000.0 * (expected - actual)
  {
    var q := actual / expected;
    assert q * expected == actual;
    assert (10000.0 - q * 10000.0) * expected == 10000.0 * expected - 10000.0 * (q * expected);
  }

  lemma AtMostWhole(actual: real, expected: real)
    requires expected > 0.0
    ensures actual >= expected <==> actual / expected >= 1.0
  {
    var q := actual / expected;
    assert q * expected == actual;
    if q >= 1.0 {
      assert (q - 1.0) * expected >= 0.0;
    } else {
      assert (1.0 - q) * expected > 0.0;
    }
  }

  lemma ScaledGap(rest: real, expected: real, gap: real)
    requires expected > 0.0 && rest * expected == 10000.0 * gap
    ensures rest <= 0.5 <==> 20000.0 * gap <= expected
  {
    if rest <= 0.5 {
      assert rest * expected <= 0.5 * expected;
    } else {
      assert rest * expected > 0.5 * expected;
    }
  }

  /** Just below an even number, rounding reaches it from half a unit away. */
  lemma RoundsUpToWhole(x: real, n: int)
    requires n % 2 == 0 && x <= n as real
    ensures Round(x) == n <==> n as real - x <= 0.5
  {
  }

  /**
   A rate of 100.00 % does not mean complete: rounding hides up to one missing unit in 20000. Exactly then,
   or when nothing is missing, is 100.00 shown.
   */
  lemma FullRateMeaning(actual: nat, expected: nat)
    requires expected > 0
    ensures Rate(actual, expected) == 10000 <==> actual >= expected || 20000 * (expected - actual) <= expected
  {
    var a, e := actual as real, expected as real;
    AtMostWhole(a, e);
    if actual >= expected {
      RoundWhole(10000);
    } else {
      var x := a / e * 10000.0;
      MissingShare(a, e);
      ScaledGap(10000.0 - x, e, e - a);
      hide Round;
      RoundsUpToWhole(x, 10000);
      assert (20000 * (expected - actual)) as real == 20000.0 * (e - a);
    }
  }
}
