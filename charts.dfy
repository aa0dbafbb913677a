/**
 * The text chart builders `generate_activity_chart` and
 * `generate_nutrition_chart`: group the rows by date, sort the dates, keep
 * the trailing ones and draw one bar of at most 20 glyphs per kept date.
 * The chart is kept as structured lines (date, bar length, total) rather
 * than as rendered text.
 */
module Charts {
  import opened Records
  import opened Sums

  /** Which title line the chart carries. */
  datatype Metric = CaloriesBurned | CalorieIntake

  /** One line `"{date}: {bar} ({total} cal)"`, with the bar as its glyph count. */
  datatype ChartLine = ChartLine(date: int, bar: int, total: int)

  /** The title names the metric and the requested window; then one line per kept date. */
  datatype Chart = Chart(metric: Metric, days: int, lines: seq<ChartLine>)

  /** The widest bar, in glyphs. */
  const BarWidth: nat := 20

  // ---------------------------------------------------------------------------
  // Bars

  /**
   * `int((total / max(peak, 1)) * 20)`, in exact arithmetic.  Totals are
   * never negative, so Python's truncation and Dafny's division agree.
   */
  function BarLength(total: int, peak: int): (r: int)
    ensures 0 <= total <= peak ==> 0 <= r <= BarWidth
    ensures 0 < peak == total ==> r == BarWidth
  {
    (BarWidth * total) / Max(peak, 1)
  }

  lemma DivisionMonotone(a: nat, b: nat, c: nat)
    requires a <= b && c > 0
    ensures a / c <= b / c
  {
    var qa, qb := a / c, b / c;
    assert qa * c <= a;
    assert b < qb * c + c;
    assert (qa - qb) * c < c;
    FactorBelowOne(qa - qb, c);
  }

  lemma FactorBelowOne(d: int, c: int)
    requires c > 0 && d * c < c
    ensures d < 1
  {
  }

  /** A longer total never gets a shorter bar. */
  lemma BarMonotone(t1: int, t2: int, peak: int)
    requires 0 <= t1 <= t2
    ensures BarLength(t1, peak) <= BarLength(t2, peak)
  {
    DivisionMonotone(BarWidth * t1, BarWidth * t2, Max(peak, 1));
  }

  /** No bar is wider than 20 glyphs, and a zero total draws no glyph. */
  lemma BarBounds(total: int, peak: int)
    requires 0 <= total <= peak
    ensures 0 <= BarLength(total, peak) <= BarWidth
    ensures total == 0 ==> BarLength(total, peak) == 0
  {
    BarMonotone(total, peak, peak);
    if peak > 0 {
      assert BarLength(peak, peak) == BarWidth;
    }
  }

  /** With a positive peak, exactly the totals equal to the peak get the full 20 glyphs. */
  lemma FullBarExactlyAtPeak(total: int, peak: int)
    requires 0 <= total <= peak && 0 < peak
    ensures BarLength(total, peak) == BarWidth <==> total == peak
  {
    if total < peak {
      var q := BarLength(total, peak);
      assert q * peak <= BarWidth * total;
      assert BarWidth * total < BarWidth * peak;
    }
  }

  /** A total within the peak draws at most 20 glyphs, and exactly 20 when it is a positive peak. */
  lemma BarScale(total: int, peak: int)
    requires 0 <= total <= peak
    ensures 0 <= BarLength(total, peak) <= BarWidth
    ensures BarLength(total, peak) == BarWidth <==> 0 < peak && total == peak
  {
    BarBounds(total, peak);
    if 0 < peak {
      FullBarExactlyAtPeak(total, peak);
    }
  }

  // ---------------------------------------------------------------------------
  // Dates: sorting and the trailing slice

  ghost predicate Distinct(s: seq<int>)
  {
    forall i, j :: 0 <= i < j < |s| ==> s[i] != s[j]
  }

  ghost predicate StrictlyIncreasing(s: seq<int>)
  {
    forall i, j :: 0 <= i < j < |s| ==> s[i] < s[j]
  }

  /** Putting a date below every date of an ascending list keeps it ascending. */
  lemma InsertAbove(lo: int, rest: seq<int>, tail: seq<int>, x: int)
    requires StrictlyIncreasing(rest) && multiset(rest) == multiset(tail) + multiset{x}
    requires lo < x && forall k :: 0 <= k < |tail| ==> lo < tail[k]
    ensures StrictlyIncreasing([lo] + rest)
  {
    forall j | 0 <= j < |rest|
      ensures lo < rest[j]
    {
      assert rest[j] in multiset(rest);
      if rest[j] != x {
        assert rest[j] in multiset(tail);
        var k :| 0 <= k < |tail| && tail[k] == rest[j];
      }
    }
    var all := [lo] + rest;
    forall i, j | 0 <= i < j < |all|
      ensures all[i] < all[j]
    {
      if i > 0 {
        assert all[i] == rest[i - 1] && all[j] == rest[j - 1];
      } else {
        assert all[j] == rest[j - 1];
      }
    }
  }

  /** Inserts a new date into ascending dates. */
  function Insert(x: int, s: seq<int>): (r: seq<int>)
    requires StrictlyIncreasing(s) && x !in s
    ensures StrictlyIncreasing(r)
    ensures multiset(r) == multiset(s) + multiset{x}
  {
    if s == [] then [x]
    else if x < s[0] then [x] + s
    else
      assert s == [s[0]] + s[1..];
      var rest := Insert(x, s[1..]);
      InsertAbove(s[0], rest, s[1..], x);
      [s[0]] + rest
  }

  /** `sorted(dates)` for dates without repeats: ascending, same dates. */
  function SortDates(s: seq<int>): (r: seq<int>)
    requires Distinct(s)
    ensures StrictlyIncreasing(r)
    ensures multiset(r) == multiset(s)
  {
    if s == [] then []
    else
      assert s == [s[0]] + s[1..];
      var rest := SortDates(s[1..]);
      assert s[0] !in multiset(s[1..]);
      assert s[0] !in rest;
      Insert(s[0], rest)
  }

  /** Python's `s[start:]` for any integer `start`, negative ones counting from the end. */
  function PySliceFrom(s: seq<int>, start: int): (r: seq<int>)
    ensures |r| <= |s| && r == s[|s| - |r|..]
  {
    s[(if start < 0 then Max(0, |s| + start) else Min(start, |s|))..]
  }

  /**
   * How many of `n` distinct dates `sorted_dates[-min(days, n):]` keeps: the
   * last `days` when `days` is positive, all of them when `days` is 0 (the
   * slice `[-0:]` starts at the front), and all but the first `-days` when
   * `days` is negative.
   */
  function KeptCount(days: int, n: nat): (r: nat)
    ensures r <= n
    ensures days == 0 || days >= n ==> r == n
  {
    if days > 0 then Min(days, n)
    else if days == 0 then n
    else Max(0, n + days)
  }

  lemma KeptSliceSize(s: seq<int>, days: int)
    ensures |PySliceFrom(s, -Min(days, |s|))| == KeptCount(days, |s|)
  {
  }

  lemma {:induction false} DistinctSize(s: seq<int>)
    requires Distinct(s)
    ensures |set x | x in s| == |s|
  {
    if s != [] {
      var init, last := s[..|s| - 1], s[|s| - 1];
      DistinctSize(init);
      assert (set x | x in s) == (set x | x in init) + {last};
      assert last !in (set x | x in init);
    }
  }

  // ---------------------------------------------------------------------------
  // The largest day total

  /** The largest day total over the dates of `ys` (0 when `ys` is empty). */
  function PeakOver<T(==,!new)>(ys: seq<T>, rows: seq<T>, dateOf: T -> int, f: T -> int): (m: int)
    ensures forall y :: y in ys ==> DayTotal(rows, dateOf, f, dateOf(y)) <= m
    ensures ys != [] ==> exists y :: y in ys && DayTotal(rows, dateOf, f, dateOf(y)) == m
  {
    if ys == [] then 0
    else
      var init, y := ys[..|ys| - 1], ys[|ys| - 1];
      assert ys == init + [y];
      var here := DayTotal(rows, dateOf, f, dateOf(y));
      if init == [] then here else Max(PeakOver(init, rows, dateOf, f), here)
  }

  /** `max(date_totals.values())`: the largest total of any date in the rows. */
  function PeakDayTotal<T(==,!new)>(rows: seq<T>, dateOf: T -> int, f: T -> int): int
  {
    PeakOver(rows, rows, dateOf, f)
  }

  /** The largest of the grouped totals, walking the dictionary's keys. */
  function MaxOfTotals(keys: seq<int>, totals: map<int, int>): (m: int)
    requires forall d :: d in keys ==> d in totals
    ensures forall d :: d in keys ==> totals[d] <= m
    ensures keys != [] ==> exists d :: d in keys && totals[d] == m
  {
    if keys == [] then 0
    else
      var init, d := keys[..|keys| - 1], keys[|keys| - 1];
      assert keys == init + [d];
      if init == [] then totals[d] else Max(MaxOfTotals(init, totals), totals[d])
  }

  // ---------------------------------------------------------------------------
  // The chart

  /** With a non-negative metric, a date's bar fits in 20 glyphs, and it is full exactly at a positive peak. */
  lemma BarOfDate<T(!new)>(rows: seq<T>, dateOf: T -> int, f: T -> int, d: int)
    requires forall k :: 0 <= k < |rows| ==> f(rows[k]) >= 0
    requires d in Dates(rows, dateOf)
    ensures 0 <= DayTotal(rows, dateOf, f, d) <= PeakDayTotal(rows, dateOf, f)
    ensures 0 <= BarLength(DayTotal(rows, dateOf, f, d), PeakDayTotal(rows, dateOf, f)) <= BarWidth
    ensures BarLength(DayTotal(rows, dateOf, f, d), PeakDayTotal(rows, dateOf, f)) == BarWidth
        <==> 0 < PeakDayTotal(rows, dateOf, f) && DayTotal(rows, dateOf, f, d) == PeakDayTotal(rows, dateOf, f)
  {
    DayTotalNonNegative(rows, dateOf, f, d);
    BarOfTotal(rows, dateOf, f, d);
  }

  lemma BarOfTotal<T(!new)>(rows: seq<T>, dateOf: T -> int, f: T -> int, d: int)
    requires 0 <= DayTotal(rows, dateOf, f, d)
    requires d in Dates(rows, dateOf)
    ensures 0 <= DayTotal(rows, dateOf, f, d) <= PeakDayTotal(rows, dateOf, f)
    ensures 0 <= BarLength(DayTotal(rows, dateOf, f, d), PeakDayTotal(rows, dateOf, f)) <= BarWidth
    ensures BarLength(DayTotal(rows, dateOf, f, d), PeakDayTotal(rows, dateOf, f)) == BarWidth
        <==> 0 < PeakDayTotal(rows, dateOf, f) && DayTotal(rows, dateOf, f, d) == PeakDayTotal(rows, dateOf, f)
  {
    PeakBoundsDayTotal(rows, dateOf, f, d);
    BarScale(DayTotal(rows, dateOf, f, d), PeakDayTotal(rows, dateOf, f));
  }

  /** No date's total exceeds the peak. */
  lemma PeakBoundsDayTotal<T(!new)>(rows: seq<T>, dateOf: T -> int, f: T -> int, d: int)
    requires d in Dates(rows, dateOf)
    ensures DayTotal(rows, dateOf, f, d) <= PeakDayTotal(rows, dateOf, f)
  {
    var y :| y in rows && dateOf(y) == d;
    assert DayTotal(rows, dateOf, f, dateOf(y)) <= PeakOver(rows, rows, dateOf, f);
  }

  /** Some date of a non-empty set of rows reaches the peak. */
  lemma PeakIsReached<T(!new)>(rows: seq<T>, dateOf: T -> int, f: T -> int)
    requires rows != []
    ensures exists d :: d in Dates(rows, dateOf) && DayTotal(rows, dateOf, f, d) == PeakDayTotal(rows, dateOf, f)
  {
    var p := PeakOver(rows, rows, dateOf, f);
    var y :| y in rows && DayTotal(rows, dateOf, f, dateOf(y)) == p;
    assert dateOf(y) in Dates(rows, dateOf);
  }

  /**
   * `totals` maps each date of the rows, and nothing else, to its day total;
   * `keys` lists those dates once each.
   */
  ghost predicate Grouped<T(!new)>(rows: seq<T>, dateOf: T -> int, f: T -> int, totals: map<int, int>, keys: seq<int>)
  {
    && Distinct(keys)
    && (forall d :: d in keys <==> d in Dates(rows, dateOf))
    && (forall d :: d in totals <==> d in keys)
    && (forall d :: d in totals ==> totals[d] == DayTotal(rows, dateOf, f, d))
  }

  /**
   * The grouping loop: `date_totals` and its keys.
   * Every date of the rows is a key exactly once, and its value is that
   * date's total.
   */
  method GroupByDate<T(==,!new)>(rows: seq<T>, dateOf: T -> int, f: T -> int)
    returns (totals: map<int, int>, keys: seq<int>)
    ensures Grouped(rows, dateOf, f, totals, keys)
  {
    totals, keys := map[], [];
    for i := 0 to |rows|
      invariant Distinct(keys)
      invariant forall d :: d in keys <==> d in Dates(rows[..i], dateOf)
      invariant forall d :: d in totals <==> d in keys
      invariant forall d :: d in totals ==> totals[d] == DayTotal(rows[..i], dateOf, f, d)
    {
      var x := rows[i];
      var d := dateOf(x);
      assert rows[..i + 1] == rows[..i] + [x];
      DatesSnoc(rows[..i], x, dateOf);
      if d !in totals {
        DayTotalAbsent(rows[..i], dateOf, f, d);
        totals := totals[d := 0];
        keys := keys + [d];
      }
      totals := totals[d := totals[d] + f(x)];
      forall e | e in totals
        ensures totals[e] == DayTotal(rows[..i + 1], dateOf, f, e)
      {
        DayTotalSnoc(rows[..i], x, dateOf, f, e);
      }
    }
    assert rows[..|rows|] == rows;
  }

  /** The largest grouped total is the largest day total. */
  lemma GroupedPeak<T(!new)>(rows: seq<T>, dateOf: T -> int, f: T -> int, totals: map<int, int>, keys: seq<int>)
    requires Grouped(rows, dateOf, f, totals, keys)
    ensures MaxOfTotals(keys, totals) == PeakDayTotal(rows, dateOf, f)
  {
    var m, p := MaxOfTotals(keys, totals), PeakDayTotal(rows, dateOf, f);
    if rows != [] {
      var y :| y in rows && DayTotal(rows, dateOf, f, dateOf(y)) == p;
      assert dateOf(y) in Dates(rows, dateOf);
      assert p <= m;
      var d :| d in keys && totals[d] == m;
      var z :| z in rows && dateOf(z) == d;
      assert m <= p;
    } else {
      assert Dates(rows, dateOf) == {};
    }
  }

  /** The dates the lines show. */
  function LineDates(lines: seq<ChartLine>): (r: seq<int>)
    ensures |r| == |lines| && forall k :: 0 <= k < |lines| ==> r[k] == lines[k].date
  {
    if lines == [] then [] else LineDates(lines[..|lines| - 1]) + [lines[|lines| - 1].date]
  }

  /** The drawing loop: one line per kept date, its bar scaled against `peak`. */
  method DrawLines(kept: seq<int>, totals: map<int, int>, peak: int) returns (lines: seq<ChartLine>)
    requires forall d :: d in kept ==> d in totals
    ensures |lines| == |kept| && LineDates(lines) == kept
    ensures forall k :: 0 <= k < |kept| ==>
              lines[k].date == kept[k] && lines[k].total == totals[kept[k]]
              && lines[k].bar == BarLength(totals[kept[k]], peak)
  {
    lines := [];
    for j := 0 to |kept|
      invariant |lines| == j
      invariant forall k :: 0 <= k < j ==>
                  lines[k].date == kept[k] && lines[k].total == totals[kept[k]]
                  && lines[k].bar == BarLength(totals[kept[k]], peak)
    {
      assert kept[j] in kept;
      var total := totals[kept[j]];
      lines := lines + [ChartLine(kept[j], BarLength(total, peak), total)];
    }
  }

  /** The sorted keys are the keys, each once. */
  lemma SortedKeys(keys: seq<int>)
    requires Distinct(keys)
    ensures forall d :: d in SortDates(keys) <==> d in keys
    ensures |SortDates(keys)| == |keys|
  {
    var sorted := SortDates(keys);
    assert forall d :: d in sorted <==> d in multiset(keys);
    assert |multiset(sorted)| == |multiset(keys)|;
  }

  /** Every suffix of an ascending list is ascending. */
  lemma SuffixIncreasing(s: seq<int>, from: nat)
    requires StrictlyIncreasing(s) && from <= |s|
    ensures StrictlyIncreasing(s[from..])
  {
    var t := s[from..];
    forall i, j | 0 <= i < j < |t|
      ensures t[i] < t[j]
    {
      assert t[i] == s[from + i] && t[j] == s[from + j];
    }
  }

  /** Lines drawn for ascending dates are in ascending date order. */
  lemma LinesIncreasing(lines: seq<ChartLine>, kept: seq<int>)
    requires LineDates(lines) == kept && StrictlyIncreasing(kept)
    ensures forall i, j :: 0 <= i < j < |lines| ==> lines[i].date < lines[j].date
  {
    forall i, j | 0 <= i < j < |lines|
      ensures lines[i].date < lines[j].date
    {
      assert lines[i].date == kept[i] && lines[j].date == kept[j];
    }
  }

  /**
   * The dates `sorted_dates[-min(days, n):]` keeps: `KeptCount` of them, in
   * ascending order, all among the keys, and every key from the first kept
   * date on.
   */
  lemma KeptDates(keys: seq<int>, days: int, sorted: seq<int>, kept: seq<int>)
    requires Distinct(keys) && sorted == SortDates(keys)
    requires kept == PySliceFrom(sorted, -Min(days, |sorted|))
    ensures |kept| == KeptCount(days, |keys|)
    ensures StrictlyIncreasing(kept)
    ensures forall k :: 0 <= k < |kept| ==> kept[k] in keys
    ensures kept != [] ==> forall d :: d in keys && kept[0] <= d ==> d in kept
  {
    SortedKeys(keys);
    KeptSliceSize(sorted, days);
    SuffixIncreasing(sorted, |sorted| - |kept|);
    forall k | 0 <= k < |kept|
      ensures kept[k] in keys
    {
      assert kept[k] in sorted;
    }
    if kept != [] {
      TrailingDatesShown(sorted, |sorted| - |kept|, set d | d in keys);
    }
  }

  /**
   * Sorting, slicing and drawing over the grouped totals: the lines show the
   * trailing `KeptCount` of the distinct dates in ascending order, each bar
   * scaled against the largest of ALL the totals.
   */
  method DrawChart(days: int, totals: map<int, int>, keys: seq<int>) returns (lines: seq<ChartLine>)
    requires Distinct(keys) && forall d :: d in keys ==> d in totals
    ensures |lines| == KeptCount(days, |keys|)
    ensures forall i, j :: 0 <= i < j < |lines| ==> lines[i].date < lines[j].date
    ensures forall k :: 0 <= k < |lines| ==> lines[k].date in keys
    ensures forall k :: 0 <= k < |lines| ==>
              lines[k].total == totals[lines[k].date]
              && lines[k].bar == BarLength(lines[k].total, MaxOfTotals(keys, totals))
    ensures lines != [] ==> forall d :: d in keys && lines[0].date <= d ==> d in LineDates(lines)
  {
    var sorted := SortDates(keys);
    var kept := PySliceFrom(sorted, -Min(days, |sorted|));
    KeptDates(keys, days, sorted, kept);
    lines := DrawLines(kept, totals, MaxOfTotals(keys, totals));
    LinesIncreasing(lines, kept);
  }

  /**
   * `generate_activity_chart` / `generate_nutrition_chart` over any metric:
   * no chart for no rows; otherwise one line per kept date, in ascending date
   * order, each with its date's total and a bar scaled against the largest
   * total of ALL dates; the kept dates are the trailing `KeptCount` of the
   * distinct dates.
   */
  method BuildChart<T(==,!new)>(metric: Metric, rows: seq<T>, dateOf: T -> int, f: T -> int, days: int)
    returns (chart: Option<Chart>)
    ensures chart.None? <==> rows == []
    ensures chart.Some? ==> chart.value.metric == metric && chart.value.days == days
    ensures chart.Some? ==> |chart.value.lines| == KeptCount(days, |Dates(rows, dateOf)|)
    ensures chart.Some? ==> forall i, j :: 0 <= i < j < |chart.value.lines| ==>
              chart.value.lines[i].date < chart.value.lines[j].date
    ensures chart.Some? ==> forall k :: 0 <= k < |chart.value.lines| ==>
              var line := chart.value.lines[k];
              line.date in Dates(rows, dateOf)
              && line.total == DayTotal(rows, dateOf, f, line.date)
              && line.bar == BarLength(line.total, PeakDayTotal(rows, dateOf, f))
    ensures chart.Some? && chart.value.lines != [] ==> forall d :: d in Dates(rows, dateOf) && chart.value.lines[0].date <= d ==>
              d in LineDates(chart.value.lines)
  {
    if rows == [] {
      return None;
    }
    var totals, keys := GroupByDate(rows, dateOf, f);
    GroupedPeak(rows, dateOf, f, totals, keys);
    KeysCountDates(rows, dateOf, f, totals, keys);
    var lines := DrawChart(days, totals, keys);
    chart := Some(Chart(metric, days, lines));
  }

  /** There are as many keys as distinct dates. */
  lemma KeysCountDates<T(!new)>(rows: seq<T>, dateOf: T -> int, f: T -> int, totals: map<int, int>, keys: seq<int>)
    requires Grouped(rows, dateOf, f, totals, keys)
    ensures |keys| == |Dates(rows, dateOf)|
  {
    DistinctSize(keys);
    assert (set d | d in keys) == Dates(rows, dateOf);
  }

  /** A suffix of the ascending dates holds every date from its first one on. */
  lemma TrailingDatesShown(sorted: seq<int>, from: nat, dates: set<int>)
    requires StrictlyIncreasing(sorted) && from < |sorted|
    requires forall d :: d in sorted <==> d in dates
    ensures forall d :: d in dates && sorted[from] <= d ==> d in sorted[from..]
  {
    forall d | d in dates && sorted[from] <= d
      ensures d in sorted[from..]
    {
      var i :| 0 <= i < |sorted| && sorted[i] == d;
      assert sorted[from..][i - from] == d;
    }
  }

  /** `generate_activity_chart`: daily calories burned, a null counting as 0. */
  method ActivityChart(activities: seq<ActivityRecord>, days: int) returns (chart: Option<Chart>)
    ensures chart.None? <==> activities == []
    ensures chart.Some? ==> chart.value.metric == CaloriesBurned && chart.value.days == days
    ensures chart.Some? ==> |chart.value.lines| == KeptCount(days, |Dates(activities, ActivityDate)|)
    ensures chart.Some? ==> forall i, j :: 0 <= i < j < |chart.value.lines| ==>
              chart.value.lines[i].date < chart.value.lines[j].date
    ensures chart.Some? ==> forall k :: 0 <= k < |chart.value.lines| ==> chart.value.lines[k].date in Dates(activities, ActivityDate)
    ensures chart.Some? && chart.value.lines != [] ==> forall d :: d in Dates(activities, ActivityDate) && chart.value.lines[0].date <= d ==>
              d in LineDates(chart.value.lines)
    ensures chart.Some? ==> forall k :: 0 <= k < |chart.value.lines| ==>
              var line := chart.value.lines[k];
              line.total == DayTotal(activities, ActivityDate, Burned, line.date)
              && line.bar == BarLength(line.total, PeakDayTotal(activities, ActivityDate, Burned))
    ensures chart.Some? ==> forall k :: 0 <= k < |chart.value.lines| ==>
              var line := chart.value.lines[k];
              0 <= line.bar <= BarWidth
              && (line.bar == BarWidth <==> 0 < line.total == PeakDayTotal(activities, ActivityDate, Burned))
  {
    chart := BuildChart(CaloriesBurned, activities, ActivityDate, Burned, days);
    if chart.Some? {
      var lines := chart.value.lines;
      forall k | 0 <= k < |lines|
        ensures 0 <= lines[k].bar <= BarWidth
        ensures lines[k].bar == BarWidth <==> 0 < lines[k].total == PeakDayTotal(activities, ActivityDate, Burned)
      {
        BarOfDate(activities, ActivityDate, Burned, lines[k].date);
      }
    }
  }

  /** `generate_nutrition_chart`: daily calories consumed. */
  method NutritionChart(nutrition: seq<NutritionRecord>, days: int) returns (chart: Option<Chart>)
    ensures chart.None? <==> nutrition == []
    ensures chart.Some? ==> chart.value.metric == CalorieIntake && chart.value.days == days
    ensures chart.Some? ==> |chart.value.lines| == KeptCount(days, |Dates(nutrition, NutritionDate)|)
    ensures chart.Some? ==> forall i, j :: 0 <= i < j < |chart.value.lines| ==>
              chart.value.lines[i].date < chart.value.lines[j].date
    ensures chart.Some? ==> forall k :: 0 <= k < |chart.value.lines| ==> chart.value.lines[k].date in Dates(nutrition, NutritionDate)
    ensures chart.Some? && chart.value.lines != [] ==> forall d :: d in Dates(nutrition, NutritionDate) && chart.value.lines[0].date <= d ==>
              d in LineDates(chart.value.lines)
    ensures chart.Some? ==> forall k :: 0 <= k < |chart.value.lines| ==>
              var line := chart.value.lines[k];
              line.total == DayTotal(nutrition, NutritionDate, Consumed, line.date)
              && line.bar == BarLength(line.total, PeakDayTotal(nutrition, NutritionDate, Consumed))
    ensures chart.Some? ==> forall k :: 0 <= k < |chart.value.lines| ==>
              var line := chart.value.lines[k];
              0 <= line.bar <= BarWidth
              && (line.bar == BarWidth <==> 0 < line.total == PeakDayTotal(nutrition, NutritionDate, Consumed))
  {
    chart := BuildChart(CalorieIntake, nutrition, NutritionDate, Consumed, days);
    if chart.Some? {
      var lines := chart.value.lines;
      forall k | 0 <= k < |lines|
        ensures 0 <= lines[k].bar <= BarWidth
        ensures lines[k].bar == BarWidth <==> 0 < lines[k].total == PeakDayTotal(nutrition, NutritionDate, Consumed)
      {
        BarOfDate(nutrition, NutritionDate, Consumed, lines[k].date);
      }
    }
  }
}
