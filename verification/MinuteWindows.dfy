/**
 Splitting trading days into request windows (data_center_service.py, _minute_date_windows and
 _validate_minute_range): the greedy split is a partition, respects both bounds, and is shortest.
 */
module MinuteWindows {
  import opened Clock
  import opened Rounding

  /** Longest calendar distance between the first and last day of one request. */
  const MAX_SPAN: nat := 7

  datatype Window = Window(first: Day, last: Day)

  /** A window the service may request: non-empty, at most `size` days, at most a week across. */
  predicate Fits(days: seq<Day>, size: nat) {
    days != [] && |days| <= size && days[|days| - 1] - days[0] <= MAX_SPAN
  }

  function WindowSize(requested: int): (size: nat)
    ensures 1 <= size <= 7 && Clamped(size, requested, 1, 7)
  {
    Max(1, Min(requested, 7))
  }

  /** Length of the first window once its first `n` days are in. */
  function Extend(days: seq<Day>, size: nat, n: nat): (r: nat)
    requires 1 <= n <= |days|
    ensures n <= r <= |days|
    decreases |days| - n
  {
    if n < |days| && n < size && days[n] - days[0] <= MAX_SPAN then Extend(days, size, n + 1) else n
  }

  function Greedy(days: seq<Day>, size: nat): seq<seq<Day>> {
    if days == [] then []
    else
      var n := Extend(days, size, 1);
      [days[..n]] + Greedy(days[n..], size)
  }

  function EndsOf(group: seq<Day>): Window {
    if group == [] then Window(0, 0) else Window(group[0], group[|group| - 1])
  }

  function Ends(groups: seq<seq<Day>>): (r: seq<Window>)
    ensures |r| == |groups|
    ensures forall i :: 0 <= i < |r| ==> r[i] == EndsOf(groups[i])
  {
    seq(|groups|, i requires 0 <= i < |groups| => EndsOf(groups[i]))
  }

  function Flatten(groups: seq<seq<Day>>): seq<Day> {
    if groups == [] then [] else groups[0] + Flatten(groups[1..])
  }

  // ---------------------------------------------------------------------------
  // Partition and bounds

  lemma {:induction false} GreedyPartitions(days: seq<Day>, size: nat)
    ensures Flatten(Greedy(days, size)) == days
    ensures forall g :: g in Greedy(days, size) ==> g != []
  {
    if days != [] {
      var n := Extend(days, size, 1);
      GreedyPartitions(days[n..], size);
      assert days == days[..n] + days[n..];
    }
  }

  lemma {:induction false} ExtendFits(days: seq<Day>, size: nat, n: nat)
    requires 1 <= n <= |days| && n <= size && days[n - 1] - days[0] <= MAX_SPAN
    ensures Fits(days[..Extend(days, size, n)], size)
    decreases |days| - n
  {
    if n < |days| && n < size && days[n] - days[0] <= MAX_SPAN {
      ExtendFits(days, size, n + 1);
    }
  }

  lemma {:induction false} GreedyFits(days: seq<Day>, size: nat)
    requires size >= 1
    ensures forall g :: g in Greedy(days, size) ==> Fits(g, size)
  {
    if days != [] {
      ExtendFits(days, size, 1);
      GreedyFits(days[Extend(days, size, 1)..], size);
    }
  }

  // ---------------------------------------------------------------------------
  // Fewest windows

  /** The first window is the longest prefix that fits. */
  lemma {:induction false} ExtendIsLongest(days: seq<Day>, size: nat, n: nat, k: nat)
    requires Ascending(days) && 1 <= n <= |days| && n <= k <= |days| && Fits(days[..k], size)
    ensures k <= Extend(days, size, n)
    decreases |days| - n
  {
    if n < k {
      assert days[n] <= days[k - 1];
      ExtendIsLongest(days, size, n + 1, k);
    }
  }

  lemma GreedyHead(days: seq<Day>, size: nat)
    requires days != []
    ensures |Greedy(days, size)| == 1 + |Greedy(days[Extend(days, size, 1)..], size)|
  {
  }

  lemma AscendingDrop(days: seq<Day>, k: nat)
    requires Ascending(days) && k <= |days|
    ensures Ascending(days[k..])
  {
  }

  /** Where the first window of the days from `a` on ends. */
  function EndFrom(days: seq<Day>, size: nat, a: nat): (e: nat)
    requires a < |days|
    ensures a < e <= |days|
  {
    a + Extend(days[a..], size, 1)
  }

  function WindowsFrom(days: seq<Day>, size: nat, a: nat): nat
    requires a <= |days|
  {
    |Greedy(days[a..], size)|
  }

  lemma NeededStep(days: seq<Day>, size: nat, a: nat)
    requires a < |days|
    ensures WindowsFrom(days, size, a) == 1 + WindowsFrom(days, size, EndFrom(days, size, a))
  {
    var n := Extend(days[a..], size, 1);
    GreedyHead(days[a..], size);
    DropDrop(days, a, a + n);
  }

  /** What is left of a window that fits, without its first days, fits. */
  lemma SuffixFits(days: seq<Day>, size: nat, a: nat, b: nat, end: nat)
    requires Ascending(days) && a <= b < end <= |days| && Fits(days[a..][..end - a], size)
    ensures Fits(days[b..][..end - b], size)
  {
    var first, rest := days[a..][..end - a], days[b..][..end - b];
    assert first[0] == days[a] && first[|first| - 1] == days[end - 1];
    assert rest[0] == days[b] && rest[|rest| - 1] == days[end - 1];
  }

  /** A window that starts within another ends no earlier. */
  lemma LaterWindowEnds(days: seq<Day>, size: nat, a: nat, b: nat)
    requires Ascending(days) && size >= 1 && a <= b < |days| && b < EndFrom(days, size, a)
    ensures EndFrom(days, size, a) <= EndFrom(days, size, b)
  {
    var end := EndFrom(days, size, a);
    ExtendFits(days[a..], size, 1);
    AscendingDrop(days, b);
    SuffixFits(days, size, a, b, end);
    hide Ascending, Fits;
    ExtendIsLongest(days[b..], size, 1, end - b);
  }

  /** A later start never needs more windows. */
  lemma {:induction false} LaterNeedsNoMore(days: seq<Day>, size: nat, a: nat, b: nat)
    requires Ascending(days) && size >= 1 && a <= b <= |days|
    ensures WindowsFrom(days, size, b) <= WindowsFrom(days, size, a)
    decreases |days| - a
  {
    if b == |days| {
      assert Greedy(days[b..], size) == [];
    } else {
      NeededStep(days, size, a);
      if b < EndFrom(days, size, a) {
        NeededStep(days, size, b);
        LaterWindowEnds(days, size, a, b);
        hide WindowsFrom, Ascending;
        LaterNeedsNoMore(days, size, EndFrom(days, size, a), EndFrom(days, size, b));
      } else {
        hide WindowsFrom, Ascending;
        LaterNeedsNoMore(days, size, EndFrom(days, size, a), b);
      }
    }
  }

  /** Leaving out the first days never needs more windows. */
  lemma SuffixNeedsNoMore(days: seq<Day>, size: nat, i: nat)
    requires Ascending(days) && size >= 1 && i <= |days|
    ensures |Greedy(days[i..], size)| <= |Greedy(days, size)|
  {
    assert days[0..] == days;
    hide Greedy;
    LaterNeedsNoMore(days, size, 0, i);
  }

  lemma DropDrop(days: seq<Day>, k: nat, n: nat)
    requires k <= n <= |days|
    ensures days[k..][n - k..] == days[n..]
  {
  }

  lemma FlattenHead(days: seq<Day>, groups: seq<seq<Day>>)
    requires groups != [] && Flatten(groups) == days
    ensures |groups[0]| <= |days| && days[..|groups[0]|] == groups[0] && days[|groups[0]|..] == Flatten(groups[1..])
  {
  }

  /** No split into windows that fit uses fewer windows than the greedy one. */
  lemma {:induction false} GreedyIsShortest(days: seq<Day>, size: nat, groups: seq<seq<Day>>)
    requires Ascending(days) && size >= 1
    requires Flatten(groups) == days && forall g :: g in groups ==> Fits(g, size)
    ensures |Greedy(days, size)| <= |groups|
    decreases |groups|
  {
    hide *;
    if groups == [] {
      FlattenNothing(days, groups);
    } else if days != [] {
      var k, n := |groups[0]|, Extend(days, size, 1);
      FlattenHead(days, groups);
      FitsHead(groups, size);
      ExtendIsLongest(days, size, 1, k);
      GreedyHead(days, size);
      AscendingDrop(days, k);
      GreedyIsShortest(days[k..], size, groups[1..]);
      DropDrop(days, k, n);
      SuffixNeedsNoMore(days[k..], size, n - k);
    } else {
      GreedyNothing(size);
    }
  }

  lemma FlattenNothing(days: seq<Day>, groups: seq<seq<Day>>)
    requires groups == [] && Flatten(groups) == days
    ensures forall size :: Greedy(days, size) == []
  {
  }

  lemma GreedyNothing(size: nat)
    ensures Greedy([], size) == []
  {
  }

  lemma FitsHead(groups: seq<seq<Day>>, size: nat)
    requires groups != [] && forall g :: g in groups ==> Fits(g, size)
    ensures Fits(groups[0], size) && |groups[0]| >= 1
    ensures forall g :: g in groups[1..] ==> Fits(g, size)
  {
    assert groups[0] in groups;
  }

  // ---------------------------------------------------------------------------
  // The range check on every request

  datatype RangeCheck = RangeOk | EndNotAfterStart | RangeTooLarge

  function Seconds(day: Day, second: Second): nat {
    day * DAY_SECONDS + second
  }

  /** `(end - start).days` counts whole days. */
  function ValidateMinuteRange(first: Day, from: Second, last: Day, to: Second): RangeCheck {
    var gap := Seconds(last, to) - Seconds(first, from);
    if gap <= 0 then EndNotAfterStart
    else if gap / DAY_SECONDS > MAX_SPAN then RangeTooLarge
    else RangeOk
  }

  /**
   A window requested from 09:30 on its first to 15:00 on its last day passes exactly when it spans at most a week.
   */
  lemma WindowPasses(first: Day, last: Day)
    ensures ValidateMinuteRange(first, OPENING, last, CLOSING).RangeOk? <==> first <= last <= first + 7
  {
    var gap := Seconds(last, CLOSING) - Seconds(first, OPENING);
    assert gap == (last - first) * DAY_SECONDS + 19800;
    if last >= first {
      assert gap / DAY_SECONDS == last - first;
    }
  }

  /** Refused iff it does not end after it starts, or ends a whole eight days after it starts or later. */
  lemma RangeCheckIs(first: Day, from: Second, last: Day, to: Second)
    ensures var r := ValidateMinuteRange(first, from, last, to);
            && (r.EndNotAfterStart? <==> TextOrder(At(last, to)) <= TextOrder(At(first, from)))
            && (r.RangeTooLarge? <==> last > first + 8 || (last == first + 8 && to >= from))
  {
    var days := last - first;
    assert Seconds(last, to) - Seconds(first, from) == days * DAY_SECONDS + (to - from);
  }

  // ---------------------------------------------------------------------------

  /** Every window of the split passes the range check. */
  lemma GreedyWindowsPass(days: seq<Day>, size: nat, w: Window)
    requires Ascending(days) && size >= 1 && w in Ends(Greedy(days, size))
    ensures ValidateMinuteRange(w.first, OPENING, w.last, CLOSING).RangeOk?
  {
    hide Greedy, ValidateMinuteRange;
    var groups := Greedy(days, size);
    var k :| 0 <= k < |groups| && Ends(groups)[k] == w;
    assert groups[k] in groups;
    GreedyFits(days, size);
    GreedyAscends(days, size);
    WindowPasses(w.first, w.last);
  }

  /** The loop that grows the current window day by day. */
  method MinuteDateWindows(days: seq<Day>, requested: int) returns (windows: seq<Window>)
    ensures windows == Ends(Greedy(days, WindowSize(requested)))
  {
    hide Greedy, WindowSize, Ends, Extend;
    var size := WindowSize(requested);
    windows := [];
    var current: seq<Day> := [];
    ghost var start := 0;
    ghost var groups: seq<seq<Day>> := [];
    assert days[0..] == days && windows == Ends(groups);
    for i := 0 to |days|
      invariant start <= i && current == days[start..i] && (i > 0 ==> start < i)
      invariant Greedy(days, size) == groups + Greedy(days[start..], size)
      invariant windows == Ends(groups)
      invariant start < i ==> Extend(days[start..], size, 1) == Extend(days[start..], size, i - start)
    {
      var day := days[i];
      if current == [] {
        current := [day];
      } else {
        var span: int := day as int - current[0] as int;
        assert days[start..][i - start] == day && days[start..][0] == current[0];
        ExtendStep(days[start..], size, i - start);
        if |current| >= size || span > MAX_SPAN {
          CloseWindow(days, size, start, i, groups);
          EndsAppend(groups, current);
          windows := windows + [Window(current[0], current[|current| - 1])];
          groups := groups + [current];
          start := i;
          current := [day];
        } else {
          current := current + [day];
        }
      }
    }
    if current != [] {
      ExtendEnd(days[start..], size);
      CloseWindow(days, size, start, |days|, groups);
      EndsAppend(groups, current);
      windows := windows + [Window(current[0], current[|current| - 1])];
      groups := groups + [current];
      start := |days|;
    }
    NothingToSplit(days, size, start);
    assert groups + [] == groups;
  }

  lemma ExtendStep(days: seq<Day>, size: nat, n: nat)
    requires 1 <= n < |days|
    ensures Extend(days, size, n) ==
              if n < size && days[n] - days[0] <= MAX_SPAN then Extend(days, size, n + 1) else n
  {
  }

  lemma ExtendEnd(days: seq<Day>, size: nat)
    requires days != []
    ensures Extend(days, size, |days|) == |days|
  {
  }

  lemma EndsAppend(groups: seq<seq<Day>>, group: seq<Day>)
    ensures Ends(groups + [group]) == Ends(groups) + [EndsOf(group)]
  {
  }

  lemma NothingToSplit(days: seq<Day>, size: nat, start: nat)
    requires start == |days|
    ensures Greedy(days[start..], size) == []
  {
  }

  lemma CloseWindow(days: seq<Day>, size: nat, start: nat, i: nat, groups: seq<seq<Day>>)
    requires start < i <= |days| && Greedy(days, size) == groups + Greedy(days[start..], size)
    requires Extend(days[start..], size, 1) == i - start
    ensures Greedy(days, size) == (groups + [days[start..i]]) + Greedy(days[i..], size)
  {
    var rest := days[start..];
    assert rest[..i - start] == days[start..i] && rest[i - start..] == days[i..];
    assert Greedy(rest, size) == [days[start..i]] + Greedy(days[i..], size);
  }

  lemma {:induction false} GreedyAscends(days: seq<Day>, size: nat)
    requires Ascending(days)
    ensures forall g :: g in Greedy(days, size) ==> Ascending(g)
  {
    if days != [] {
      GreedyAscends(days[Extend(days, size, 1)..], size);
    }
  }
}
