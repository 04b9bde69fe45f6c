/** The one-pass scan with a streak per stock over the rows of one chunk (replay_minute_amount_triggers). */
module MinuteScan {
  import opened Clock
  import opened MinuteQuery
  import opened MinuteRows
  import opened Sorting

  datatype Streak = Streak(day: Day, minute: nat, count: nat)

  /** The scan's state: a streak per stock, the stock-days that have triggered, the triggers of this chunk. */
  datatype Scan = Scan(streaks: map<Code, Streak>, marked: set<StockDay>, triggers: seq<Row>)

  function NextStreak(streaks: map<Code, Streak>, r: Row, least: int): Streak {
    if r.amount < least then Streak(r.day, r.Minute(), 0)
    else if r.code in streaks && streaks[r.code].day == r.day && streaks[r.code].minute == r.Minute() - 1 then
      Streak(r.day, r.Minute(), streaks[r.code].count + 1)
    else Streak(r.day, r.Minute(), 1)
  }

  function ScanRow(s: Scan, r: Row, least: int, k: nat): Scan {
    var next := NextStreak(s.streaks, r, least);
    if next.count >= k && r.Key() !in s.marked then
      Scan(s.streaks[r.code := next], s.marked + {r.Key()}, s.triggers + [r])
    else s.(streaks := s.streaks[r.code := next])
  }

  /** The state after the first `n` rows of a chunk, with the marks of earlier chunks. */
  function ScanUpTo(rows: seq<Row>, least: int, k: nat, seen: set<StockDay>, n: nat): Scan
    requires n <= |rows|
  {
    if n == 0 then Scan(map[], seen, []) else ScanRow(ScanUpTo(rows, least, k, seen, n - 1), rows[n - 1], least, k)
  }

  function AtMost(rows: seq<Row>, limit: int): (r: seq<Row>)
    ensures r <= rows && (limit >= 0 ==> |r| <= limit) && (|r| < limit ==> r == rows)
  {
    if limit <= 0 then [] else if |rows| <= limit then rows else rows[..limit]
  }

  lemma {:induction false} TriggersGrow(rows: seq<Row>, least: int, k: nat, seen: set<StockDay>, a: nat, b: nat)
    requires a <= b <= |rows|
    ensures ScanUpTo(rows, least, k, seen, a).triggers <= ScanUpTo(rows, least, k, seen, b).triggers
  {
    if a < b {
      TriggersGrow(rows, least, k, seen, a, b - 1);
    }
  }

  /** Scan one chunk's rows, stopping once the limit is reached. */
  method ScanRows(rows: seq<Row>, least: int, k: nat, limit: nat, found: seq<Row>, seen: set<StockDay>)
    returns (triggers: seq<Row>, marked: set<StockDay>)
    requires |found| < limit
    ensures var end := ScanUpTo(rows, least, k, seen, |rows|);
            && triggers == found + AtMost(end.triggers, limit - |found|)
            && (|triggers| < limit ==> marked == end.marked)
  {
    triggers, marked := found, seen;
    var streaks: map<Code, Streak> := map[];
    ghost var mine: seq<Row> := [];
    for n := 0 to |rows|
      invariant |triggers| < limit && triggers == found + mine
      invariant ScanUpTo(rows, least, k, seen, n) == Scan(streaks, marked, mine)
    {
      var r := rows[n];
      var next := NextStreak(streaks, r, least);
      streaks := streaks[r.code := next];
      if next.count >= k && r.Key() !in marked {
        marked := marked + {r.Key()};
        triggers := triggers + [r];
        mine := mine + [r];
      }
      if |triggers| >= limit {
        TriggersGrow(rows, least, k, seen, n + 1, |rows|);
        return;
      }
    }
  }

  // ---------------------------------------------------------------------------
  // A streak is a chain of rows, on any table

  /** Index of a stock's latest row among the first `n`. */
  function LatestRow(rows: seq<Row>, code: Code, n: nat): (j: int)
    requires n <= |rows|
    ensures -1 <= j < n
    ensures j >= 0 ==> rows[j].code == code
    ensures forall i :: j < i < n ==> rows[i].code != code
  {
    if n == 0 then -1 else if rows[n - 1].code == code then n - 1 else LatestRow(rows, code, n - 1)
  }

  /** The row before row `n` of the same stock, if it is the minute before on the same day; -1 otherwise. */
  function MinuteBefore(rows: seq<Row>, n: nat): (j: int)
    requires n < |rows|
    ensures -1 <= j < n
  {
    var j := LatestRow(rows, rows[n].code, n);
    if j >= 0 && rows[j].day == rows[n].day && rows[j].Minute() + 1 == rows[n].Minute() then j else -1
  }

  /** The last `k` rows of the stock of row `n`, up to it, are hot and stand in `k` consecutive minutes of one day. */
  predicate Chain(rows: seq<Row>, least: int, n: nat, k: nat)
    requires n < |rows|
    decreases k
  {
    k > 0 ==>
      && rows[n].amount >= least
      && (k > 1 ==> MinuteBefore(rows, n) >= 0 && Chain(rows, least, MinuteBefore(rows, n), k - 1))
  }

  /** The streak kept for a stock is the longest chain that ends in its latest row. */
  ghost predicate StreakIs(rows: seq<Row>, least: int, code: Code, n: nat, streaks: map<Code, Streak>)
    requires n <= |rows|
  {
    var j := LatestRow(rows, code, n);
    if j < 0 then code !in streaks
    else
      && code in streaks && streaks[code].day == rows[j].day && streaks[code].minute == rows[j].Minute()
      && forall c: nat :: Chain(rows, least, j, c) <==> c <= streaks[code].count
  }

  ghost predicate Streaks(rows: seq<Row>, least: int, n: nat, streaks: map<Code, Streak>)
    requires n <= |rows|
  {
    forall code :: StreakIs(rows, least, code, n, streaks)
  }

  lemma StreakStep(rows: seq<Row>, least: int, n: nat, streaks: map<Code, Streak>)
    requires n < |rows| && StreakIs(rows, least, rows[n].code, n, streaks)
    ensures forall c: nat :: Chain(rows, least, n, c) <==> c <= NextStreak(streaks, rows[n], least).count
  {
    hide Row.Minute, LatestRow;
    forall c: nat
      ensures Chain(rows, least, n, c) <==> c <= NextStreak(streaks, rows[n], least).count
    {
      if c > 1 && MinuteBefore(rows, n) >= 0 {
        assert Chain(rows, least, MinuteBefore(rows, n), c - 1) <==> c - 1 <= streaks[rows[n].code].count;
      }
    }
  }

  lemma NextLatest(rows: seq<Row>, n: nat)
    requires n < |rows|
    ensures LatestRow(rows, rows[n].code, n + 1) == n
    ensures forall code :: code != rows[n].code ==> LatestRow(rows, code, n + 1) == LatestRow(rows, code, n)
  {
  }

  lemma StreaksKept(rows: seq<Row>, least: int, n: nat, streaks: map<Code, Streak>)
    requires n < |rows| && Streaks(rows, least, n, streaks)
    ensures var r := rows[n];
            Streaks(rows, least, n + 1, streaks[r.code := NextStreak(streaks, r, least)])
  {
    hide Chain, LatestRow;
    var r := rows[n];
    var after := streaks[r.code := NextStreak(streaks, r, least)];
    assert StreakIs(rows, least, r.code, n, streaks);
    StreakStep(rows, least, n, streaks);
    NextLatest(rows, n);
    var m := n + 1;
    forall code
      ensures StreakIs(rows, least, code, m, after)
    {
      assert StreakIs(rows, least, code, n, streaks);
    }
  }

  // ---------------------------------------------------------------------------
  // The first row of each stock-day

  function Keys(rows: seq<Row>): (s: set<StockDay>)
    ensures forall r :: r in rows ==> r.Key() in s
  {
    set r | r in rows :: r.Key()
  }

  /** The first row of each stock-day not seen before. */
  function Unseen(rows: seq<Row>, seen: set<StockDay>): (u: seq<Row>)
    ensures |u| <= |rows|
    ensures forall r :: r in u ==> r in rows
  {
    if rows == [] then []
    else
      var front, r := rows[..|rows| - 1], rows[|rows| - 1];
      Unseen(front, seen) + (if r.Key() in seen + Keys(front) then [] else [r])
  }

  lemma UnseenAppend(rows: seq<Row>, r: Row, seen: set<StockDay>)
    ensures Unseen(rows + [r], seen) == Unseen(rows, seen) + (if r.Key() in seen + Keys(rows) then [] else [r])
    ensures Keys(rows + [r]) == Keys(rows) + {r.Key()}
  {
    assert (rows + [r])[..|rows|] == rows;
    assert forall x :: x in rows + [r] <==> x in rows || x == r;
  }

  lemma KeysConcat(a: seq<Row>, b: seq<Row>)
    ensures Keys(a + b) == Keys(a) + Keys(b)
  {
    assert forall x :: x in a + b <==> x in a || x in b;
  }

  lemma UnseenConcatNext(a: seq<Row>, front: seq<Row>, r: Row, seen: set<StockDay>)
    requires Unseen(a + front, seen) == Unseen(a, seen) + Unseen(front, seen + Keys(a))
    ensures Unseen(a + (front + [r]), seen) == Unseen(a, seen) + Unseen(front + [r], seen + Keys(a))
  {
    hide Unseen, Keys;
    assert a + (front + [r]) == (a + front) + [r];
    UnseenAppend(a + front, r, seen);
    UnseenAppend(front, r, seen + Keys(a));
    KeysConcat(a, front);
    assert r.Key() in seen + Keys(a + front) <==> r.Key() in seen + Keys(a) + Keys(front);
  }

  lemma UnseenOfNothing(a: seq<Row>, seen: set<StockDay>)
    ensures Unseen(a + [], seen) == Unseen(a, seen) + Unseen([], seen + Keys(a))
  {
    assert a + [] == a;
  }

  lemma {:induction false} UnseenConcat(a: seq<Row>, b: seq<Row>, seen: set<StockDay>)
    ensures Unseen(a + b, seen) == Unseen(a, seen) + Unseen(b, seen + Keys(a))
  {
    hide Unseen, Keys;
    if b == [] {
      UnseenOfNothing(a, seen);
    } else {
      var front, r := b[..|b| - 1], b[|b| - 1];
      UnseenConcat(a, front, seen);
      UnseenConcatNext(a, front, r, seen);
      assert b == front + [r];
    }
  }

  /** The triggers among the first `n` rows. */
  ghost function TriggersUpTo(rows: seq<Row>, least: int, k: nat, n: nat): seq<Row>
    requires n <= |rows|
  {
    Pick(rows[..n], TriggerTest(rows, least, k))
  }

  lemma TriggersNext(rows: seq<Row>, least: int, k: nat, n: nat)
    requires n < |rows|
    ensures TriggersUpTo(rows, least, k, n + 1) ==
              TriggersUpTo(rows, least, k, n) + (if IsTrigger(rows, least, k, rows[n]) then [rows[n]] else [])
  {
    hide IsTrigger;
    assert rows[..n + 1][..n] == rows[..n];
  }

  /** The rows among the first `n` that end a chain of `k`. */
  function ChainsUpTo(rows: seq<Row>, least: int, k: nat, n: nat): seq<Row>
    requires n <= |rows|
  {
    if n == 0 then []
    else ChainsUpTo(rows, least, k, n - 1) + (if Chain(rows, least, n - 1, k) then [rows[n - 1]] else [])
  }

  lemma NothingScanned(rows: seq<Row>, least: int, k: nat, seen: set<StockDay>)
    ensures Streaks(rows, least, 0, map[]) && TriggersUpTo(rows, least, k, 0) == []
    ensures Unseen([], seen) == [] && seen + Keys([]) == seen
  {
  }

  lemma LongMeansChain(rows: seq<Row>, least: int, k: nat, n: nat, streaks: map<Code, Streak>)
    requires n < |rows| && Streaks(rows, least, n, streaks)
    ensures NextStreak(streaks, rows[n], least).count >= k <==> Chain(rows, least, n, k)
  {
    assert StreakIs(rows, least, rows[n].code, n, streaks);
    hide Chain, StreakIs, NextStreak;
    StreakStep(rows, least, n, streaks);
  }

  /** On any table, the scan returns the first chain of each stock-day not seen before. */
  lemma {:induction false} ScanIsChains(rows: seq<Row>, least: int, k: nat, seen: set<StockDay>, n: nat)
    requires n <= |rows|
    ensures var s := ScanUpTo(rows, least, k, seen, n);
            var chains := ChainsUpTo(rows, least, k, n);
            && Streaks(rows, least, n, s.streaks)
            && s.triggers == Unseen(chains, seen) && s.marked == seen + Keys(chains)
  {
    hide Chain, Streaks, NextStreak, Unseen, Keys;
    if n == 0 {
      NothingScanned(rows, least, k, seen);
    } else {
      ScanIsChains(rows, least, k, seen, n - 1);
      var s, chains, r := ScanUpTo(rows, least, k, seen, n - 1), ChainsUpTo(rows, least, k, n - 1), rows[n - 1];
      StreaksKept(rows, least, n - 1, s.streaks);
      LongMeansChain(rows, least, k, n - 1, s.streaks);
      UnseenAppend(chains, r, seen);
      if Chain(rows, least, n - 1, k) {
        assert seen + Keys(chains) + {r.Key()} == seen + (Keys(chains) + {r.Key()});
        assert r.Key() in seen + Keys(chains) ==> seen + Keys(chains) == seen + Keys(chains) + {r.Key()};
        assert Unseen(chains, seen) + [] == Unseen(chains, seen);
      } else {
        assert chains + [] == chains;
      }
    }
  }

  // ---------------------------------------------------------------------------
  // Chains and runs

  lemma {:induction false} ChainIsRun(rows: seq<Row>, least: int, n: nat, k: nat)
    requires n < |rows| && Chain(rows, least, n, k)
    ensures RunEnds(rows, least, rows[n].Key(), rows[n].Minute(), k)
    decreases k
  {
    if k > 0 {
      assert rows[n] in rows;
      assert HotAt(rows, least, rows[n].Key(), rows[n].Minute());
      RunStep(rows, least, rows[n].Key(), rows[n].Minute(), k);
      if k > 1 {
        var j := MinuteBefore(rows, n);
        assert rows[j].Key() == rows[n].Key() by {
          LatestHasCode(rows, n);
        }
        ChainIsRun(rows, least, j, k - 1);
      }
    }
  }

  lemma LatestHasCode(rows: seq<Row>, n: nat)
    requires n < |rows| && MinuteBefore(rows, n) >= 0
    ensures rows[MinuteBefore(rows, n)].Key() == rows[n].Key()
    ensures rows[MinuteBefore(rows, n)].Minute() + 1 == rows[n].Minute()
  {
  }

  lemma ChainIsHotRun(rows: seq<Row>, least: int, k: nat, i: nat)
    requires i < |rows| && k >= 1 && Chain(rows, least, i, k)
    ensures HotRun(rows, least, k, rows[i].Key(), i)
  {
    ChainIsRun(rows, least, i, k);
  }

  // ---------------------------------------------------------------------------
  // When the scan is right

  /** Every trigger ends a chain: no other row of its stock lies between the rows of its run. */
  ghost predicate TriggersChained(rows: seq<Row>, least: int, k: nat) {
    forall n: nat :: n < |rows| && IsTrigger(rows, least, k, rows[n]) ==> Chain(rows, least, n, k)
  }

  lemma {:induction false} InChains(rows: seq<Row>, least: int, k: nat, n: nat, i: nat)
    requires i < n <= |rows| && Chain(rows, least, i, k)
    ensures rows[i] in ChainsUpTo(rows, least, k, n)
  {
    if i < n - 1 {
      InChains(rows, least, k, n - 1, i);
    }
  }

  lemma {:induction false} FromChains(rows: seq<Row>, least: int, k: nat, n: nat, r: Row) returns (i: nat)
    requires n <= |rows| && r in ChainsUpTo(rows, least, k, n)
    ensures i < n && rows[i] == r && Chain(rows, least, i, k)
  {
    if Chain(rows, least, n - 1, k) && rows[n - 1] == r {
      i := n - 1;
    } else {
      i := FromChains(rows, least, k, n - 1, r);
    }
  }

  lemma TriggerAmong(rows: seq<Row>, least: int, k: nat, n: nat, t: nat)
    requires t < n <= |rows| && IsTrigger(rows, least, k, rows[t])
    ensures rows[t] in TriggersUpTo(rows, least, k, n)
  {
    hide IsTrigger;
    assert rows[..n][t] == rows[t];
  }

  /** Under that condition the stock-days with a chain so far are those with a trigger so far. */
  lemma SameKeys(rows: seq<Row>, least: int, k: nat, n: nat)
    requires Strict(RowLess, rows) && k >= 1 && n <= |rows| && TriggersChained(rows, least, k)
    ensures Keys(ChainsUpTo(rows, least, k, n)) == Keys(TriggersUpTo(rows, least, k, n))
  {
    var chains, found := ChainsUpTo(rows, least, k, n), TriggersUpTo(rows, least, k, n);
    hide ChainsUpTo, IsTrigger, Chain;
    forall r | r in found
      ensures r.Key() in Keys(chains)
    {
      var t :| 0 <= t < n && rows[..n][t] == r;
      assert rows[t] == r;
      InChains(rows, least, k, n, t);
    }
    forall r | r in chains
      ensures r.Key() in Keys(found)
    {
      var i := FromChains(rows, least, k, n, r);
      ChainIsHotRun(rows, least, k, i);
      var t := RunHasTrigger(rows, least, k, r.Key(), i);
      TriggerAmong(rows, least, k, n, t);
      assert rows[t].Key() == r.Key();
    }
  }

  lemma ChainOrTrigger(rows: seq<Row>, least: int, k: nat, n: nat)
    requires Strict(RowLess, rows) && k >= 1 && n < |rows| && TriggersChained(rows, least, k)
    ensures IsTrigger(rows, least, k, rows[n]) ==> Chain(rows, least, n, k)
    ensures Chain(rows, least, n, k) && !IsTrigger(rows, least, k, rows[n]) ==>
              rows[n].Key() in Keys(TriggersUpTo(rows, least, k, n))
  {
    hide Chain, IsTrigger, TriggersUpTo;
    if Chain(rows, least, n, k) && !IsTrigger(rows, least, k, rows[n]) {
      ChainIsHotRun(rows, least, k, n);
      var t := RunHasTrigger(rows, least, k, rows[n].Key(), n);
      TriggerAmong(rows, least, k, n, t);
      assert rows[t].Key() == rows[n].Key();
    }
  }

  lemma {:induction false} SameFirsts(rows: seq<Row>, least: int, k: nat, seen: set<StockDay>, n: nat)
    requires Strict(RowLess, rows) && k >= 1 && n <= |rows| && TriggersChained(rows, least, k)
    ensures Unseen(ChainsUpTo(rows, least, k, n), seen) == Unseen(TriggersUpTo(rows, least, k, n), seen)
  {
    hide Chain, IsTrigger, TriggersUpTo, Unseen, Keys, TriggersChained;
    if n == 0 {
      NothingScanned(rows, least, k, seen);
    } else {
      var chains, found, r := ChainsUpTo(rows, least, k, n - 1), TriggersUpTo(rows, least, k, n - 1), rows[n - 1];
      SameFirsts(rows, least, k, seen, n - 1);
      SameKeys(rows, least, k, n - 1);
      ChainOrTrigger(rows, least, k, n - 1);
      TriggersNext(rows, least, k, n - 1);
      UnseenAppend(chains, r, seen);
      UnseenAppend(found, r, seen);
      assert chains + [] == chains && found + [] == found;
      assert Unseen(found, seen) + [] == Unseen(found, seen);
    }
  }

  /** Where each trigger ends a chain, the scan finds exactly the triggers of stock-days not seen before. */
  lemma ScanIsTriggers(rows: seq<Row>, least: int, k: nat, seen: set<StockDay>, n: nat)
    requires Strict(RowLess, rows) && k >= 1 && n <= |rows| && TriggersChained(rows, least, k)
    ensures var s := ScanUpTo(rows, least, k, seen, n);
            var found := TriggersUpTo(rows, least, k, n);
            s.triggers == Unseen(found, seen) && s.marked == seen + Keys(found)
  {
    hide *;
    ScanIsChains(rows, least, k, seen, n);
    SameFirsts(rows, least, k, seen, n);
    SameKeys(rows, least, k, n);
  }

  lemma {:induction false} AllUnseen(rows: seq<Row>)
    requires forall i, j :: 0 <= i < j < |rows| ==> rows[i].Key() != rows[j].Key()
    ensures Unseen(rows, {}) == rows
  {
    if rows != [] {
      var front, x := rows[..|rows| - 1], rows[|rows| - 1];
      assert rows == front + [x];
      AllUnseen(front);
      UnseenAppend(front, x, {});
      assert forall r :: r in front ==> r.Key() != x.Key();
    }
  }

  /** No stock-day has two triggers. */
  lemma TriggersOfDifferentDays(rows: seq<Row>, least: int, k: nat)
    requires Strict(RowLess, rows)
    ensures Unseen(Triggers(rows, least, k), {}) == Triggers(rows, least, k)
  {
    var found := Triggers(rows, least, k);
    PickKeepsOrder(rows, TriggerTest(rows, least, k), RowLess);
    hide IsTrigger, Pick;
    forall i, j | 0 <= i < j < |found|
      ensures found[i].Key() != found[j].Key()
    {
      TwoTriggers(rows, least, k, found, i, j);
    }
    AllUnseen(found);
  }

  lemma TwoTriggers(rows: seq<Row>, least: int, k: nat, found: seq<Row>, i: nat, j: nat)
    requires found == Triggers(rows, least, k) && Strict(RowLess, found) && i < j < |found|
    ensures found[i].Key() != found[j].Key()
  {
    assert found[i] in found && found[j] in found;
    assert RowLess(found[i], found[j]);
  }

  /** On a table in key order the scan returns exactly the triggers, as a list and as a set, iff each ends a chain. */
  lemma ScanIsRightIff(rows: seq<Row>, least: int, k: nat)
    requires Strict(RowLess, rows) && k >= 1
    ensures var s := ScanUpTo(rows, least, k, {}, |rows|).triggers;
            && (s == Triggers(rows, least, k) <==> TriggersChained(rows, least, k))
            && ((forall r :: r in s <==> IsTrigger(rows, least, k, r)) <==> TriggersChained(rows, least, k))
  {
    var s := ScanUpTo(rows, least, k, {}, |rows|).triggers;
    assert rows[..|rows|] == rows;
    forall r
      ensures r in Triggers(rows, least, k) <==> IsTrigger(rows, least, k, r)
    {
      TriggersMembers(rows, least, k, r);
    }
    hide IsTrigger, ScanUpTo, Chain, Pick, Unseen;
    if TriggersChained(rows, least, k) {
      ScanIsTriggers(rows, least, k, {}, |rows|);
      TriggersOfDifferentDays(rows, least, k);
    }
    if forall r :: r in s <==> IsTrigger(rows, least, k, r) {
      ScanIsChains(rows, least, k, {}, |rows|);
      forall n: nat | n < |rows| && IsTrigger(rows, least, k, rows[n])
        ensures Chain(rows, least, n, k)
      {
        UnseenAreRows(ChainsUpTo(rows, least, k, |rows|), {});
        var i := FromChains(rows, least, k, |rows|, rows[n]);
        TimesAscend(rows, i, n);
      }
    }
  }

  lemma UnseenAreRows(rows: seq<Row>, seen: set<StockDay>)
    ensures forall r :: r in Unseen(rows, seen) ==> r in rows
  {
  }

  // ---------------------------------------------------------------------------
  // One bar per minute

  lemma RowsAscend(rows: seq<Row>, i: nat, j: nat)
    requires OneBarPerMinute(rows) && i < |rows| && j < |rows|
    ensures i < j ==> RowLess(rows[i], rows[j])
    ensures rows[i].Key() == rows[j].Key() ==>
              (rows[i].Minute() < rows[j].Minute() <==> i < j) && (rows[i].time < rows[j].time <==> i < j)
  {
    assert i < j ==> Earlier(rows[i], rows[j]);
    assert j < i ==> Earlier(rows[j], rows[i]);
  }

  /** A stock is hot in the minute of one of its rows iff that row is. */
  lemma HotHere(rows: seq<Row>, least: int, n: nat)
    requires OneBarPerMinute(rows) && n < |rows|
    ensures HotAt(rows, least, rows[n].Key(), rows[n].Minute()) <==> rows[n].amount >= least
  {
    hide OneBarPerMinute, Row.Minute;
    if HotAt(rows, least, rows[n].Key(), rows[n].Minute()) {
      var r :| r in rows && r.Key() == rows[n].Key() && r.Minute() == rows[n].Minute() && r.amount >= least;
      var i :| 0 <= i < |rows| && rows[i] == r;
      RowsAscend(rows, i, n);
      RowsAscend(rows, n, i);
      assert i == n;
    }
    assert rows[n] in rows;
  }

  /** The minute before a row can be hot only through the stock's latest row so far. */
  lemma HotBefore(rows: seq<Row>, least: int, n: nat)
    requires OneBarPerMinute(rows) && n < |rows|
    ensures HotAt(rows, least, rows[n].Key(), rows[n].Minute() as int - 1) ==> MinuteBefore(rows, n) >= 0
  {
    hide OneBarPerMinute, LatestRow, Row.Minute;
    var m := rows[n].Minute() as int;
    var j := LatestRow(rows, rows[n].code, n);
    if HotAt(rows, least, rows[n].Key(), m - 1) {
      var r :| r in rows && r.Key() == rows[n].Key() && r.Minute() == m - 1 && r.amount >= least;
      var i :| 0 <= i < |rows| && rows[i] == r;
      RowsAscend(rows, i, n);
      assert i <= j by {
        LatestIsLast(rows, n, i);
      }
      LatestInCode(rows, n);
      RowsAscend(rows, i, j);
      RowsAscend(rows, j, n);
      RowsAscend(rows, j, i);
      assert rows[j].Key() == rows[n].Key();
    }
  }

  lemma LatestIsLast(rows: seq<Row>, n: nat, i: nat)
    requires i < n < |rows| && rows[i].code == rows[n].code
    ensures i <= LatestRow(rows, rows[n].code, n)
  {
  }

  lemma LatestInCode(rows: seq<Row>, n: nat)
    requires n < |rows| && LatestRow(rows, rows[n].code, n) >= 0
    ensures rows[LatestRow(rows, rows[n].code, n)].code == rows[n].code
  {
  }

  /** With one bar per minute a run is a chain ... */
  lemma {:induction false} RunIsChain(rows: seq<Row>, least: int, n: nat, k: nat)
    requires OneBarPerMinute(rows) && n < |rows| && RunEnds(rows, least, rows[n].Key(), rows[n].Minute(), k)
    ensures Chain(rows, least, n, k)
    decreases k
  {
    if k > 0 {
      RunStep(rows, least, rows[n].Key(), rows[n].Minute(), k);
      HotHere(rows, least, n);
      if k > 1 {
        RunStep(rows, least, rows[n].Key(), rows[n].Minute() as int - 1, k - 1);
        HotBefore(rows, least, n);
        var j := MinuteBefore(rows, n);
        LatestHasCode(rows, n);
        hide RunEnds, OneBarPerMinute, Row.Minute;
        RunIsChain(rows, least, j, k - 1);
      }
    }
  }

  /** ... so there the scan is right. */
  lemma OneBarIsChained(rows: seq<Row>, least: int, k: nat)
    requires OneBarPerMinute(rows)
    ensures Strict(RowLess, rows) && TriggersChained(rows, least, k)
  {
    forall i, j | 0 <= i < j < |rows|
      ensures RowLess(rows[i], rows[j])
    {
      RowsAscend(rows, i, j);
    }
    forall n: nat | n < |rows| && IsTrigger(rows, least, k, rows[n])
      ensures Chain(rows, least, n, k)
    {
      RunIsChain(rows, least, n, k);
    }
  }

  // ---------------------------------------------------------------------------
  // Two bars in one minute

  lemma CrowdedIsNotChained()
    ensures !Chain(CROWDED, 5, 3, 3)
  {
    assert LatestRow(CROWDED, 1, 3) == 2 && LatestRow(CROWDED, 1, 2) == 1;
    assert MinuteBefore(CROWDED, 3) == 2 && MinuteBefore(CROWDED, 2) == -1;
    assert !Chain(CROWDED, 5, 2, 2);
  }

  /** A second bar in a minute breaks the chain: the scan misses the run 09:30 to 09:32 when 09:31 has two bars. */
  lemma CrowdedMinuteHidesTriggerFromScan()
    ensures Strict(RowLess, CROWDED) && IsTrigger(CROWDED, 5, 3, CROWDED[3])
    ensures !TriggersChained(CROWDED, 5, 3) && ScanUpTo(CROWDED, 5, 3, {}, 4).triggers == []
  {
    CrowdedIsTrigger();
    CrowdedIsNotChained();
    hide IsTrigger, Chain;
    assert ScanUpTo(CROWDED, 5, 3, {}, 0) == Scan(map[], {}, []);
    assert ScanUpTo(CROWDED, 5, 3, {}, 1) == Scan(map[1 := Streak(1, 570, 1)], {}, []);
    assert ScanUpTo(CROWDED, 5, 3, {}, 2) == Scan(map[1 := Streak(1, 571, 2)], {}, []);
    assert ScanUpTo(CROWDED, 5, 3, {}, 3) == Scan(map[1 := Streak(1, 571, 1)], {}, []);
  }
}
