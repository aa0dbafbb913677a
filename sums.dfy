/**
 * Sums over fetched rows, as Python's `sum(...)` over a generator computes
 * them, and sums grouped by date.  Every definition peels the LAST row, so
 * that a loop that walks the rows front to back extends them one row at a
 * time.
 */
module Sums {
  import opened Records

  /** The sum of `f` over `xs`; 0 for no rows. */
  function Sum<T>(xs: seq<T>, f: T -> int): int
  {
    if xs == [] then 0 else Sum(xs[..|xs| - 1], f) + f(xs[|xs| - 1])
  }

  lemma {:induction false} SumAppend<T>(xs: seq<T>, ys: seq<T>, f: T -> int)
    ensures Sum(xs + ys, f) == Sum(xs, f) + Sum(ys, f)
  {
    if ys == [] {
      assert xs + ys == xs;
    } else {
      assert (xs + ys)[..|xs + ys| - 1] == xs + ys[..|ys| - 1];
      SumAppend(xs, ys[..|ys| - 1], f);
    }
  }

  lemma {:induction false} SumNonNegative<T>(xs: seq<T>, f: T -> int)
    requires forall k :: 0 <= k < |xs| ==> f(xs[k]) >= 0
    ensures Sum(xs, f) >= 0
  {
    if xs != [] {
      SumNonNegative(xs[..|xs| - 1], f);
    }
  }

  /** A day's total of a non-negative metric is non-negative. */
  lemma DayTotalNonNegative<T(!new)>(xs: seq<T>, dateOf: T -> int, f: T -> int, d: int)
    requires forall k :: 0 <= k < |xs| ==> f(xs[k]) >= 0
    ensures DayTotal(xs, dateOf, f, d) >= 0
  {
    var on := OnDate(xs, dateOf, d);
    forall k | 0 <= k < |on|
      ensures f(on[k]) >= 0
    {
      assert on[k] in xs;
    }
    SumNonNegative(on, f);
  }

  /** The rows dated `d`, in their original order. */
  function OnDate<T(==,!new)>(xs: seq<T>, dateOf: T -> int, d: int): (r: seq<T>)
    ensures forall x :: x in r <==> x in xs && dateOf(x) == d
  {
    if xs == [] then []
    else OnDate(xs[..|xs| - 1], dateOf, d) + (if dateOf(xs[|xs| - 1]) == d then [xs[|xs| - 1]] else [])
  }

  /** The total of `f` over the rows dated `d`. */
  function DayTotal<T(==,!new)>(xs: seq<T>, dateOf: T -> int, f: T -> int, d: int): int
  {
    Sum(OnDate(xs, dateOf, d), f)
  }

  /** The dates that occur in `xs`. */
  function Dates<T(==,!new)>(xs: seq<T>, dateOf: T -> int): set<int>
  {
    set x | x in xs :: dateOf(x)
  }

  /** Adding one row adds its date to the dates and nothing else. */
  lemma DatesSnoc<T(!new)>(xs: seq<T>, x: T, dateOf: T -> int)
    ensures Dates(xs + [x], dateOf) == Dates(xs, dateOf) + {dateOf(x)}
  {
    assert forall y :: y in xs + [x] <==> y in xs || y == x;
  }

  /** Adding one row adds its value to its own date's total and to no other. */
  lemma DayTotalSnoc<T(!new)>(xs: seq<T>, x: T, dateOf: T -> int, f: T -> int, d: int)
    ensures DayTotal(xs + [x], dateOf, f, d)
         == DayTotal(xs, dateOf, f, d) + (if dateOf(x) == d then f(x) else 0)
  {
    assert (xs + [x])[..|xs + [x]| - 1] == xs;
    var on := OnDate(xs, dateOf, d);
    if dateOf(x) == d {
      assert OnDate(xs + [x], dateOf, d) == on + [x];
      SumAppend(on, [x], f);
      assert Sum([x], f) == f(x) by {
        assert [x][..0] == [];
      }
    } else {
      assert OnDate(xs + [x], dateOf, d) == on;
    }
  }

  /** A date with no row has total 0. */
  lemma {:induction false} DayTotalAbsent<T(!new)>(xs: seq<T>, dateOf: T -> int, f: T -> int, d: int)
    requires d !in Dates(xs, dateOf)
    ensures DayTotal(xs, dateOf, f, d) == 0
  {
    if xs != [] {
      var init, last := xs[..|xs| - 1], xs[|xs| - 1];
      assert dateOf(last) in Dates(xs, dateOf);
      assert forall x :: x in init ==> x in xs;
      DayTotalAbsent(init, dateOf, f, d);
      assert OnDate(xs, dateOf, d) == OnDate(init, dateOf, d);
    }
  }
}
