/** Stable insertion sort by a strict order, standing for the library sort. */
module Sorting {

  function Insert<T>(less: (T, T) -> bool, xs: seq<T>, x: T): (r: seq<T>)
    ensures |r| == |xs| + 1
  {
    if xs != [] && less(x, xs[|xs| - 1]) then Insert(less, xs[..|xs| - 1], x) + [xs[|xs| - 1]] else xs + [x]
  }

  function Sort<T>(less: (T, T) -> bool, xs: seq<T>): (r: seq<T>)
    ensures |r| == |xs|
  {
    if xs == [] then [] else Insert(less, Sort(less, xs[..|xs| - 1]), xs[|xs| - 1])
  }

  ghost predicate Strict<T(!new)>(less: (T, T) -> bool, xs: seq<T>) {
    forall i, j :: 0 <= i < j < |xs| ==> less(xs[i], xs[j])
  }

  ghost predicate Transitive<T(!new)>(less: (T, T) -> bool) {
    forall a, b, c :: less(a, b) && less(b, c) ==> less(a, c)
  }

  /** Inserting an element comparable with all others keeps a strict list strict. */
  lemma {:induction false} InsertKeepsStrict<T(!new)>(less: (T, T) -> bool, xs: seq<T>, x: T)
    requires Transitive(less) && Strict(less, xs)
    requires forall y :: y in xs ==> less(x, y) || less(y, x)
    ensures Strict(less, Insert(less, xs, x))
    ensures forall y :: y in Insert(less, xs, x) <==> y == x || y in xs
  {
    if xs != [] {
      var front, last := xs[..|xs| - 1], xs[|xs| - 1];
      assert xs == front + [last];
      assert forall i :: 0 <= i < |front| ==> less(front[i], last);
      if less(x, last) {
        InsertKeepsStrict(less, front, x);
        var r := Insert(less, front, x);
        assert forall i :: 0 <= i < |r| ==> r[i] in r;
      } else {
        assert last in xs;
      }
    }
  }

  /** Sorting what is already in order changes nothing. */
  lemma {:induction false} SortOfStrict<T(!new)>(less: (T, T) -> bool, xs: seq<T>)
    requires Strict(less, xs) && forall a, b :: less(a, b) ==> !less(b, a)
    ensures Sort(less, xs) == xs
  {
    if xs != [] {
      var front, last := xs[..|xs| - 1], xs[|xs| - 1];
      assert xs == front + [last];
      SortOfStrict(less, front);
      if front != [] {
        assert less(xs[|xs| - 2], last);
      }
    }
  }

  /** A strict list `done` followed by a strict list whose elements all exceed the last of `done`. */
  lemma StrictConcat<T(!new)>(less: (T, T) -> bool, done: seq<T>, rest: seq<T>)
    requires Transitive(less) && Strict(less, done) && Strict(less, rest)
    requires done != [] ==> forall x :: x in rest ==> less(done[|done| - 1], x)
    ensures Strict(less, done + rest)
  {
    var all := done + rest;
    forall i, j | 0 <= i < j < |all|
      ensures less(all[i], all[j])
    {
      if i < |done| <= j {
        assert all[j] in rest;
        assert i == |done| - 1 || less(done[i], done[|done| - 1]);
      }
    }
  }

  /** Inserting an element larger than the last one before `rest` keeps the whole list strict. */
  lemma InsertBehind<T(!new)>(less: (T, T) -> bool, done: seq<T>, rest: seq<T>, x: T)
    requires Transitive(less) && (forall a, b :: less(a, b) ==> !less(b, a))
    requires Strict(less, done + rest) && done != [] && less(done[|done| - 1], x)
    requires forall y :: y in rest ==> less(x, y) || less(y, x)
    ensures Sort(less, rest + [x]) == Insert(less, rest, x)
    ensures Strict(less, done + Insert(less, rest, x))
    ensures forall y :: y in done + Insert(less, rest, x) <==> y == x || y in done + rest
  {
    var all := done + rest;
    assert (rest + [x])[..|rest|] == rest;
    assert Strict(less, done) by {
      assert forall i :: 0 <= i < |done| ==> all[i] == done[i];
    }
    assert Strict(less, rest) by {
      assert forall i :: 0 <= i < |rest| ==> all[|done| + i] == rest[i];
    }
    SortOfStrict(less, rest);
    InsertKeepsStrict(less, rest, x);
    forall y | y in Insert(less, rest, x)
      ensures less(done[|done| - 1], y)
    {
      if y != x {
        var j :| 0 <= j < |rest| && rest[j] == y;
        assert all[|done| - 1] == done[|done| - 1] && all[|done| + j] == y;
      }
    }
    StrictConcat(less, done, Insert(less, rest, x));
  }

  lemma {:induction false} InsertAdds<T>(less: (T, T) -> bool, xs: seq<T>, x: T)
    ensures multiset(Insert(less, xs, x)) == multiset(xs) + multiset{x}
  {
    if xs != [] && less(x, xs[|xs| - 1]) {
      var front, last := xs[..|xs| - 1], xs[|xs| - 1];
      assert xs == front + [last];
      InsertAdds(less, front, x);
    }
  }

  /** Sorting moves elements and neither loses nor adds any. */
  lemma {:induction false} SortPermutes<T>(less: (T, T) -> bool, xs: seq<T>)
    ensures multiset(Sort(less, xs)) == multiset(xs)
  {
    if xs != [] {
      var front, last := xs[..|xs| - 1], xs[|xs| - 1];
      assert xs == front + [last];
      SortPermutes(less, front);
      InsertAdds(less, Sort(less, front), last);
    }
  }
}
