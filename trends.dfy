/**
 * The trend calculator: `calculate_trends` (daily averages over the window,
 * active days per week, and the older-half / newer-half trend deltas) and
 * the series trend `calculate_trend` without numpy.
 */
module Trends {
  import opened Records
  import opened Sums
  import opened Series

  /** The dictionary `calculate_trends` returns, before rounding. Protein is in grams. */
  datatype TrendSummary = TrendSummary(
    avgDailyCaloriesBurned: real,
    avgDailyCaloriesConsumed: real,
    avgDailyProtein: real,
    avgActivityDays: real,
    trendCaloriesBurned: real,
    trendCaloriesConsumed: real)

  const NoTrends := TrendSummary(0.0, 0.0, 0.0, 0.0, 0.0, 0.0)

  // ---------------------------------------------------------------------------
  // Active days

  /** The dates on which some activity has a positive duration. */
  ghost function ActiveDates(acts: seq<ActivityRecord>): set<int>
  {
    set a | a in acts && a.duration > 0 :: a.date
  }

  /** The loop that fills the `activity_dates` set. */
  method CollectActiveDates(acts: seq<ActivityRecord>) returns (dates: set<int>)
    ensures dates == ActiveDates(acts)
  {
    dates := {};
    for i := 0 to |acts|
      invariant dates == ActiveDates(acts[..i])
    {
      assert acts[..i + 1] == acts[..i] + [acts[i]];
      if acts[i].duration > 0 {
        dates := dates + {acts[i].date};
      }
    }
    assert acts[..|acts|] == acts;
  }

  /** A date counts at most once: another activity on an active date adds nothing. */
  lemma RepeatedDateCountsOnce(acts: seq<ActivityRecord>, a: ActivityRecord)
    requires a.date in ActiveDates(acts)
    ensures ActiveDates(acts + [a]) == ActiveDates(acts)
  {
    forall d | d in ActiveDates(acts + [a])
      ensures d in ActiveDates(acts)
    {
      var b :| b in acts + [a] && b.duration > 0 && b.date == d;
      if b != a {
        assert b in acts;
      }
    }
  }

  /** There are never more active dates than activities. */
  lemma {:induction false} ActiveDatesAtMostRecords(acts: seq<ActivityRecord>)
    ensures |ActiveDates(acts)| <= |acts|
  {
    if acts != [] {
      var init, last := acts[..|acts| - 1], acts[|acts| - 1];
      assert acts == init + [last];
      ActiveDatesAtMostRecords(init);
      var added := if last.duration > 0 then {last.date} else {};
      assert ActiveDates(acts) == ActiveDates(init) + added by {
        forall d | d in ActiveDates(acts)
          ensures d in ActiveDates(init) + added
        {
          var b :| b in acts && b.duration > 0 && b.date == d;
          if b != last {
            assert b in init;
          }
        }
      }
    }
  }

  // ---------------------------------------------------------------------------
  // Older half and newer half of the window

  /** The rows at least `mid` days before `today` (the "first half"), in order. */
  function Older<T>(xs: seq<T>, dateOf: T -> int, today: int, mid: int): (r: seq<T>)
    ensures forall k :: 0 <= k < |r| ==> today - dateOf(r[k]) >= mid
  {
    if xs == [] then []
    else Older(xs[..|xs| - 1], dateOf, today, mid)
         + (if today - dateOf(xs[|xs| - 1]) >= mid then [xs[|xs| - 1]] else [])
  }

  /** The rows fewer than `mid` days before `today` (the "second half"), in order. */
  function Newer<T>(xs: seq<T>, dateOf: T -> int, today: int, mid: int): (r: seq<T>)
    ensures forall k :: 0 <= k < |r| ==> today - dateOf(r[k]) < mid
  {
    if xs == [] then []
    else Newer(xs[..|xs| - 1], dateOf, today, mid)
         + (if today - dateOf(xs[|xs| - 1]) < mid then [xs[|xs| - 1]] else [])
  }

  /** The two halves together have as many rows as the input. */
  lemma {:induction false} SplitCounts<T>(xs: seq<T>, dateOf: T -> int, today: int, mid: int)
    ensures |Older(xs, dateOf, today, mid)| + |Newer(xs, dateOf, today, mid)| == |xs|
  {
    if xs != [] {
      SplitCounts(xs[..|xs| - 1], dateOf, today, mid);
    }
  }

  /** The two halves partition the rows: together they hold every row exactly once. */
  lemma {:induction false} SplitIsPartition<T>(xs: seq<T>, dateOf: T -> int, today: int, mid: int)
    ensures multiset(Older(xs, dateOf, today, mid)) + multiset(Newer(xs, dateOf, today, mid)) == multiset(xs)
  {
    if xs != [] {
      var init := xs[..|xs| - 1];
      assert xs == init + [xs[|xs| - 1]];
      SplitIsPartition(init, dateOf, today, mid);
    }
  }

  /** The two halves' sums add up to the sum over all rows. */
  lemma {:induction false} SplitSums<T>(xs: seq<T>, dateOf: T -> int, f: T -> int, today: int, mid: int)
    ensures Sum(Older(xs, dateOf, today, mid), f) + Sum(Newer(xs, dateOf, today, mid), f) == Sum(xs, f)
  {
    if xs != [] {
      var init, last := xs[..|xs| - 1], xs[|xs| - 1];
      SplitSums(init, dateOf, f, today, mid);
      assert Sum([last], f) == f(last) by {
        assert [last][..0] == [];
      }
      var o, n := Older(init, dateOf, today, mid), Newer(init, dateOf, today, mid);
      if today - dateOf(last) >= mid {
        assert Older(xs, dateOf, today, mid) == o + [last];
        assert Newer(xs, dateOf, today, mid) == n;
        SumAppend(o, [last], f);
      } else {
        assert Older(xs, dateOf, today, mid) == o;
        assert Newer(xs, dateOf, today, mid) == n + [last];
        SumAppend(n, [last], f);
      }
    }
  }

  lemma {:induction false} NoOlderWhenAllRecent<T>(xs: seq<T>, dateOf: T -> int, today: int, mid: int)
    requires forall k :: 0 <= k < |xs| ==> today - dateOf(xs[k]) < mid
    ensures Older(xs, dateOf, today, mid) == []
  {
    if xs != [] {
      NoOlderWhenAllRecent(xs[..|xs| - 1], dateOf, today, mid);
    }
  }

  lemma {:induction false} NoNewerWhenAllOld<T>(xs: seq<T>, dateOf: T -> int, today: int, mid: int)
    requires forall k :: 0 <= k < |xs| ==> today - dateOf(xs[k]) >= mid
    ensures Newer(xs, dateOf, today, mid) == []
  {
    if xs != [] {
      NoNewerWhenAllOld(xs[..|xs| - 1], dateOf, today, mid);
    }
  }

  /** The two loops that append each row to `first_half_…` or `second_half_…`. */
  method SplitByRecency<T>(xs: seq<T>, dateOf: T -> int, today: int, mid: int)
    returns (older: seq<T>, newer: seq<T>)
    ensures older == Older(xs, dateOf, today, mid)
    ensures newer == Newer(xs, dateOf, today, mid)
  {
    older, newer := [], [];
    for i := 0 to |xs|
      invariant older == Older(xs[..i], dateOf, today, mid)
      invariant newer == Newer(xs[..i], dateOf, today, mid)
    {
      assert xs[..i + 1][..i] == xs[..i];
      var daysSince := today - dateOf(xs[i]);
      if daysSince >= mid {
        older := older + [xs[i]];
      } else {
        newer := newer + [xs[i]];
      }
    }
    assert xs[..|xs|] == xs;
  }

  /** `(newer - older) / max(1, rows)` with true division: the gain of the newer half per row. */
  function PerRow(newer: int, older: int, rows: int): real
  {
    (newer - older) as real / Max(1, rows) as real
  }

  /** `(second_half_sum - first_half_sum) / max(1, first_count + second_count)`. */
  function SplitTrend<T>(xs: seq<T>, dateOf: T -> int, f: T -> int, today: int, mid: int): (r: real)
    ensures Older(xs, dateOf, today, mid) == [] && Newer(xs, dateOf, today, mid) == [] ==> r == 0.0
  {
    var older, newer := Older(xs, dateOf, today, mid), Newer(xs, dateOf, today, mid);
    PerRow(Sum(newer, f), Sum(older, f), |older| + |newer|)
  }

  /** The trend from the two halves' sums, per row of the input. */
  lemma SplitTrendOfSums<T>(xs: seq<T>, dateOf: T -> int, f: T -> int, today: int, mid: int,
                            newerSum: int, olderSum: int)
    requires Sum(Newer(xs, dateOf, today, mid), f) == newerSum
    requires Sum(Older(xs, dateOf, today, mid), f) == olderSum
    ensures SplitTrend(xs, dateOf, f, today, mid) == PerRow(newerSum, olderSum, |xs|)
  {
    SplitCounts(xs, dateOf, today, mid);
  }

  /** The trend compares the older half with the rest of the rows. */
  lemma SplitTrendByOlder<T>(xs: seq<T>, dateOf: T -> int, f: T -> int, today: int, mid: int)
    ensures var olderSum := Sum(Older(xs, dateOf, today, mid), f);
            SplitTrend(xs, dateOf, f, today, mid) == PerRow(Sum(xs, f) - olderSum, olderSum, |xs|)
  {
    var olderSum := Sum(Older(xs, dateOf, today, mid), f);
    SplitSums(xs, dateOf, f, today, mid);
    SplitTrendOfSums(xs, dateOf, f, today, mid, Sum(xs, f) - olderSum, olderSum);
  }

  /** With no old rows, the newer half carries the whole sum. */
  lemma NewerHoldsAll<T>(xs: seq<T>, dateOf: T -> int, f: T -> int, today: int, mid: int)
    requires Older(xs, dateOf, today, mid) == []
    ensures Sum(Older(xs, dateOf, today, mid), f) == 0
    ensures Sum(Newer(xs, dateOf, today, mid), f) == Sum(xs, f)
  {
    SplitSums(xs, dateOf, f, today, mid);
  }

  /** With no recent rows, the older half carries the whole sum. */
  lemma OlderHoldsAll<T>(xs: seq<T>, dateOf: T -> int, f: T -> int, today: int, mid: int)
    requires Newer(xs, dateOf, today, mid) == []
    ensures Sum(Newer(xs, dateOf, today, mid), f) == 0
    ensures Sum(Older(xs, dateOf, today, mid), f) == Sum(xs, f)
  {
    SplitSums(xs, dateOf, f, today, mid);
  }

  /** When every row is recent, the trend is the plain per-row average: the whole sum against nothing. */
  lemma AllRecentTrend<T>(xs: seq<T>, dateOf: T -> int, f: T -> int, today: int, mid: int)
    requires forall k :: 0 <= k < |xs| ==> today - dateOf(xs[k]) < mid
    ensures SplitTrend(xs, dateOf, f, today, mid) == PerRow(Sum(xs, f), 0, |xs|)
  {
    NoOlderWhenAllRecent(xs, dateOf, today, mid);
    NewerHoldsAll(xs, dateOf, f, today, mid);
    SplitTrendOfSums(xs, dateOf, f, today, mid, Sum(xs, f), 0);
  }

  /** When every row is old, the trend is minus the per-row average: nothing against the whole sum. */
  lemma AllOlderTrend<T>(xs: seq<T>, dateOf: T -> int, f: T -> int, today: int, mid: int)
    requires forall k :: 0 <= k < |xs| ==> today - dateOf(xs[k]) >= mid
    ensures SplitTrend(xs, dateOf, f, today, mid) == PerRow(0, Sum(xs, f), |xs|)
  {
    NoNewerWhenAllOld(xs, dateOf, today, mid);
    OlderHoldsAll(xs, dateOf, f, today, mid);
    SplitTrendOfSums(xs, dateOf, f, today, mid, 0, Sum(xs, f));
  }

  // ---------------------------------------------------------------------------
  // calculate_trends

  /** One of the two trend blocks: split the rows by age, then newer-minus-older per row. */
  method RecencyTrend<T>(xs: seq<T>, dateOf: T -> int, f: T -> int, today: int, mid: int)
    returns (trend: real)
    ensures trend == SplitTrend(xs, dateOf, f, today, mid)
  {
    var older, newer := SplitByRecency(xs, dateOf, today, mid);
    var olderSum, newerSum := Sum(older, f), Sum(newer, f);
    var count := |older| + |newer|;
    trend := (newerSum - olderSum) as real / Max(1, count) as real;
  }

  /** `total / days` with Python's true division: the total spread evenly over the days. */
  function PerDay(total: real, days: int): (r: real)
    requires days != 0
    ensures r * days as real == total
  {
    total / days as real
  }

  /** The three daily averages: each total spread over every day of the window. */
  method DailyAverages(activities: seq<ActivityRecord>, nutrition: seq<NutritionRecord>, days: int)
    returns (burned: real, consumed: real, protein: real)
    requires days != 0
    ensures burned == PerDay(Sum(activities, Burned) as real, days)
    ensures consumed == PerDay(Sum(nutrition, Consumed) as real, days)
    ensures protein == PerDay(Sum(nutrition, ProteinCenti) as real / 100.0, days)
  {
    var n := days as real;
    var totalBurned := Sum(activities, Burned);
    var totalConsumed := Sum(nutrition, Consumed);
    var totalProtein := Sum(nutrition, ProteinCenti);
    burned := if activities != [] then totalBurned as real / n else 0.0;
    consumed := if nutrition != [] then totalConsumed as real / n else 0.0;
    protein := if nutrition != [] then totalProtein as real / 100.0 / n else 0.0;
  }

  /** Distinct active dates per week of the window: `len(activity_dates) / (days / 7)`. */
  method ActivityDaysPerWeek(activities: seq<ActivityRecord>, days: int) returns (perWeek: real)
    requires days != 0
    ensures perWeek == PerDay(7.0 * |ActiveDates(activities)| as real, days)
  {
    var activeDates := CollectActiveDates(activities);
    var count := |activeDates| as real;
    perWeek := count / (days as real / 7.0);
    assert perWeek * days as real == 7.0 * count;
  }

  /**
   * `calculate_trends(activities, nutrition, days)` with `today` in place of
   * the clock.  Empty inputs give all zeros; otherwise `days == 0` divides by
   * zero; otherwise every average is a total spread over all `days` of the
   * window and every trend a newer-minus-older difference per row.
   */
  method CalculateTrends(activities: seq<ActivityRecord>, nutrition: seq<NutritionRecord>, days: int, today: int)
    returns (r: Result<TrendSummary>)
    ensures activities == [] && nutrition == [] ==> r == Ok(NoTrends)
    ensures activities != [] || nutrition != [] ==> (r.Err? <==> days == 0)
    ensures r.Err? ==> r.error == ZeroDivisionError
    ensures r.Ok? && (activities != [] || nutrition != []) ==>
      && r.value.avgDailyCaloriesBurned == PerDay(Sum(activities, Burned) as real, days)
      && r.value.avgDailyCaloriesConsumed == PerDay(Sum(nutrition, Consumed) as real, days)
      && r.value.avgDailyProtein == PerDay(Sum(nutrition, ProteinCenti) as real / 100.0, days)
      && r.value.avgActivityDays == PerDay(7.0 * |ActiveDates(activities)| as real, days)
      && r.value.trendCaloriesBurned == SplitTrend(activities, ActivityDate, Burned, today, days / 2)
      && r.value.trendCaloriesConsumed == SplitTrend(nutrition, NutritionDate, Consumed, today, days / 2)
  {
    if activities == [] && nutrition == [] {
      return Ok(NoTrends);
    }
    if days == 0 {
      return Err(ZeroDivisionError);
    }
    var burned, consumed, protein := DailyAverages(activities, nutrition, days);
    var perWeek := ActivityDaysPerWeek(activities, days);
    var mid := days / 2;
    var trendBurned := RecencyTrend(activities, ActivityDate, Burned, today, mid);
    var trendConsumed := RecencyTrend(nutrition, NutritionDate, Consumed, today, mid);
    r := Ok(TrendSummary(burned, consumed, protein, perWeek, trendBurned, trendConsumed));
  }

  // ---------------------------------------------------------------------------
  // calculate_trend, the branch taken without numpy

  /** Mean of the second half of the series minus mean of the first, split at `len // 2`. */
  function CalculateTrend(series: seq<real>): (r: real)
    ensures |series| < 2 ==> r == 0.0
  {
    if |series| < 2 then 0.0
    else
      var h := |series| / 2;
      var firstHalf := Total(series[..h]) / Max(1, h) as real;
      var secondHalf := Total(series[h..]) / Max(1, |series| - h) as real;
      secondHalf - firstHalf
  }

  /** For two or more points the trend is the difference of the two halves' means. */
  lemma TrendIsMeanDifference(series: seq<real>)
    ensures |series| < 2 ==> CalculateTrend(series) == 0.0
    ensures |series| >= 2 ==>
      CalculateTrend(series) == Mean(series[|series| / 2..]) - Mean(series[..|series| / 2])
  {
  }

  /** A constant series has no trend. */
  lemma ConstantSeriesHasNoTrend(series: seq<real>, c: real)
    requires forall k :: 0 <= k < |series| ==> series[k] == c
    ensures CalculateTrend(series) == 0.0
  {
    if |series| >= 2 {
      var h := |series| / 2;
      MeanBetween(series[..h], c, c);
      MeanBetween(series[h..], c, c);
    }
  }

  /** A non-decreasing series never has a negative trend. */
  lemma NondecreasingSeriesTrend(series: seq<real>)
    requires forall i, j :: 0 <= i <= j < |series| ==> series[i] <= series[j]
    ensures CalculateTrend(series) >= 0.0
  {
    if |series| >= 2 {
      var h := |series| / 2;
      var pivot := series[h];
      MeanBetween(series[..h], series[0], pivot);
      MeanBetween(series[h..], pivot, series[|series| - 1]);
    }
  }

  /** Raising every point by the same amount leaves the trend unchanged. */
  lemma ShiftedSeriesTrend(series: seq<real>, shifted: seq<real>, c: real)
    requires |shifted| == |series|
    requires forall k :: 0 <= k < |series| ==> shifted[k] == series[k] + c
    ensures CalculateTrend(shifted) == CalculateTrend(series)
  {
    if |series| >= 2 {
      var h := |series| / 2;
      MeanShifted(series[..h], shifted[..h], c);
      MeanShifted(series[h..], shifted[h..], c);
    }
  }
}
