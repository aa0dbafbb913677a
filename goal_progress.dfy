/**
 * The goal progress report `generate_goal_progress_chart`: for each of the
 * last `days` days, the day's calories burned, calories consumed and protein
 * as fractions of the goal's targets; then the average of each fraction over
 * the window and a three-level indicator per average.
 */
module GoalProgress {
  import opened Records
  import opened Sums
  import opened Series

  /** The indicator glyphs: ✓, ⚠ and ✗. */
  datatype Indicator = OnTrack | Caution | OffTrack

  /** How far an indicator is from ✓. */
  function Severity(i: Indicator): nat
  {
    match i
    case OnTrack => 0
    case Caution => 1
    case OffTrack => 2
  }

  /**
   * For burned calories: ✓ from 80% of the target on, ⚠ from 50%, ✗ below.
   * The protein line evidently intends the same thresholds; see `ProteinIndicator`.
   */
  function TargetIndicator(avg: real): (r: Indicator)
    ensures r == OnTrack <==> avg >= 0.8
    ensures r == OffTrack <==> avg < 0.5
  {
    if avg >= 0.8 then OnTrack else if avg >= 0.5 then Caution else OffTrack
  }

  /** For calorie intake: ✓ up to 120% of the target, ⚠ up to 150%, ✗ above. */
  function IntakeIndicator(avg: real): (r: Indicator)
    ensures r == OnTrack <==> avg <= 1.2
    ensures r == OffTrack <==> avg > 1.5
  {
    if avg <= 1.2 then OnTrack else if avg <= 1.5 then Caution else OffTrack
  }

  /** The thresholds are exact: each boundary value belongs to the better level. */
  lemma IndicatorThresholds(avg: real)
    ensures TargetIndicator(avg) == OnTrack <==> avg >= 0.8
    ensures TargetIndicator(avg) == Caution <==> 0.5 <= avg < 0.8
    ensures TargetIndicator(avg) == OffTrack <==> avg < 0.5
    ensures IntakeIndicator(avg) == OnTrack <==> avg <= 1.2
    ensures IntakeIndicator(avg) == Caution <==> 1.2 < avg <= 1.5
    ensures IntakeIndicator(avg) == OffTrack <==> avg > 1.5
  {
  }

  /** Doing more against a target never worsens its indicator. */
  lemma TargetIndicatorMonotone(a: real, b: real)
    requires a <= b
    ensures Severity(TargetIndicator(b)) <= Severity(TargetIndicator(a))
  {
  }

  /** Eating more never improves the intake indicator. */
  lemma IntakeIndicatorMonotone(a: real, b: real)
    requires a <= b
    ensures Severity(IntakeIndicator(a)) <= Severity(IntakeIndicator(b))
  {
  }

  /**
   * The double nearest to 0.8: 3602879701896397 / 2^52, slightly above 0.8.
   * The protein average is a `Decimal`, and Python compares a `Decimal` with
   * the float literal `0.8` by exact value, so this is the protein ✓ threshold.
   * 0.5 is exact as a double.
   */
  const ProteinOnTrackFrom: real := 3602879701896397.0 / 4503599627370496.0

  /** The protein indicator as the report computes it: ✓ from the double 0.8 on, ⚠ from 0.5, ✗ below. */
  function ProteinIndicator(avg: real): (r: Indicator)
    ensures r == OnTrack <==> avg >= ProteinOnTrackFrom
    ensures r == OffTrack <==> avg < 0.5
  {
    if avg >= ProteinOnTrackFrom then OnTrack else if avg >= 0.5 then Caution else OffTrack
  }

  /** The protein thresholds: each boundary value belongs to the better level. */
  lemma ProteinIndicatorThresholds(avg: real)
    ensures ProteinIndicator(avg) == OnTrack <==> avg >= ProteinOnTrackFrom
    ensures ProteinIndicator(avg) == Caution <==> 0.5 <= avg < ProteinOnTrackFrom
    ensures ProteinIndicator(avg) == OffTrack <==> avg < 0.5
  {
  }

  /**
   * The protein indicator differs from the calories-burned one exactly on
   * averages from 0.8 up to the double 0.8, where it shows ⚠ instead of ✓.
   */
  lemma ProteinIndicatorBoundary(avg: real)
    ensures 0.8 < ProteinOnTrackFrom < 0.8 + 1.0 / 1000000000000000.0
    ensures ProteinIndicator(avg) != TargetIndicator(avg) <==> 0.8 <= avg < ProteinOnTrackFrom
    ensures 0.8 <= avg < ProteinOnTrackFrom ==> ProteinIndicator(avg) == Caution && TargetIndicator(avg) == OnTrack
  {
  }

  /** More protein never worsens the protein indicator. */
  lemma ProteinIndicatorMonotone(a: real, b: real)
    requires a <= b
    ensures Severity(ProteinIndicator(b)) <= Severity(ProteinIndicator(a))
  {
  }

  /** `value / target if target > 0 else 0`. */
  function Ratio(value: int, target: int): (r: real)
    ensures target > 0 ==> r * target as real == value as real
    ensures target <= 0 ==> r == 0.0
  {
    if target > 0 then value as real / target as real else 0.0
  }

  /** How many days `range(days)` visits. */
  function WindowLength(days: int): nat
  {
    if days > 0 then days else 0
  }

  /** The `n` days ending on `today`, oldest first. */
  function WindowDates(today: int, n: nat): seq<int>
  {
    seq(n, k => today - (n - 1) + k)
  }

  /** Day `d`'s total as a fraction of `target`. */
  function DayRatio<T(==,!new)>(rows: seq<T>, dateOf: T -> int, f: T -> int, target: int, d: int): real
  {
    Ratio(DayTotal(rows, dateOf, f, d), target)
  }

  /** Each of the `n` days ending on `today`, oldest first: that day's total as a fraction of `target`. */
  function WindowRatios<T(==,!new)>(rows: seq<T>, dateOf: T -> int, f: T -> int, target: int, today: int, n: nat): seq<real>
  {
    seq(n, k => DayRatio(rows, dateOf, f, target, today - (n - 1) + k))
  }

  /** The same fractions in the order the loop appends them: `today` first. */
  function NewestFirst<T(==,!new)>(rows: seq<T>, dateOf: T -> int, f: T -> int, target: int, today: int, n: nat): seq<real>
  {
    seq(n, j => DayRatio(rows, dateOf, f, target, today - j))
  }

  /** One more pass appends the next older day. */
  lemma NewestFirstSnoc<T(!new)>(rows: seq<T>, dateOf: T -> int, f: T -> int, target: int, today: int, i: nat)
    ensures NewestFirst(rows, dateOf, f, target, today, i + 1)
         == NewestFirst(rows, dateOf, f, target, today, i) + [DayRatio(rows, dateOf, f, target, today - i)]
  {
  }

  /** Reversing the loop's list gives the window oldest first. */
  lemma ReversedNewestFirst<T(!new)>(rows: seq<T>, dateOf: T -> int, f: T -> int, target: int, today: int, n: nat)
    ensures Reversed(NewestFirst(rows, dateOf, f, target, today, n)) == WindowRatios(rows, dateOf, f, target, today, n)
  {
  }

  /** The newest-first list has the same mean as the window: the reversal does not change the averages. */
  lemma NewestFirstMean<T(!new)>(rows: seq<T>, dateOf: T -> int, f: T -> int, target: int, today: int, n: nat)
    ensures Mean(NewestFirst(rows, dateOf, f, target, today, n)) == Mean(WindowRatios(rows, dateOf, f, target, today, n))
  {
    ReversedNewestFirst(rows, dateOf, f, target, today, n);
    TotalReversed(NewestFirst(rows, dateOf, f, target, today, n));
  }

  /** Some row dated `d` holds a null in the summed field. */
  predicate NullOn<T>(rows: seq<T>, dateOf: T -> int, isNull: T -> bool, d: int)
  {
    exists k :: 0 <= k < |rows| && dateOf(rows[k]) == d && isNull(rows[k])
  }

  /** A row appended after `rows` holds a null on `d` exactly when it is dated `d` and null. */
  lemma NullOnSnoc<T>(rows: seq<T>, x: T, dateOf: T -> int, isNull: T -> bool, d: int)
    ensures NullOn(rows + [x], dateOf, isNull, d) <==> NullOn(rows, dateOf, isNull, d) || (dateOf(x) == d && isNull(x))
  {
    var all := rows + [x];
    if NullOn(all, dateOf, isNull, d) {
      var k :| 0 <= k < |all| && dateOf(all[k]) == d && isNull(all[k]);
      if k < |rows| {
        assert rows[k] == all[k];
      }
    }
    if NullOn(rows, dateOf, isNull, d) {
      var k :| 0 <= k < |rows| && dateOf(rows[k]) == d && isNull(rows[k]);
      assert all[k] == rows[k];
    }
    if dateOf(x) == d && isNull(x) {
      assert all[|rows|] == x;
    }
  }

  /**
   * `sum(row.get(field, 0) for row in day_rows)`: the day's total, or a
   * TypeError when one of the day's rows holds a null (`0 + None`).  Rows of
   * other days never matter.
   */
  function CheckedDayTotal<T(==,!new)>(rows: seq<T>, dateOf: T -> int, f: T -> int, isNull: T -> bool, d: int)
    : (r: Result<int>)
    ensures r.Err? <==> NullOn(rows, dateOf, isNull, d)
    ensures r.Err? ==> r.error == TypeError
    ensures r.Ok? ==> r.value == DayTotal(rows, dateOf, f, d)
  {
    if rows == [] then Ok(0)
    else
      var init, x := rows[..|rows| - 1], rows[|rows| - 1];
      assert rows == init + [x];
      var prev := CheckedDayTotal(init, dateOf, f, isNull, d);
      DayTotalSnoc(init, x, dateOf, f, d);
      NullOnSnoc(init, x, dateOf, isNull, d);
      if prev.Err? || dateOf(x) != d then prev
      else if isNull(x) then Err(TypeError)
      else Ok(prev.value + f(x))
  }

  /** Some day of the window holds a row whose calories burned or protein is null. */
  ghost predicate WindowHasNull(activities: seq<ActivityRecord>, nutrition: seq<NutritionRecord>, today: int, days: int)
  {
    exists d :: today - days < d <= today && DayHasNull(activities, nutrition, d)
  }

  ghost predicate DayHasNull(activities: seq<ActivityRecord>, nutrition: seq<NutritionRecord>, d: int)
  {
    NullOn(activities, ActivityDate, BurnedIsNull, d) || NullOn(nutrition, NutritionDate, ProteinIsNull, d)
  }

  /** The four lists after the loop and the four `reverse()` calls: oldest day first. */
  datatype DailyProgress = DailyProgress(dates: seq<int>, burned: seq<real>, consumed: seq<real>, protein: seq<real>)

  /** One day's three fractions. */
  datatype DayProgress = DayProgress(burned: real, consumed: real, protein: real)

  /** One pass of the day loop: the day's sums, each divided by its target. */
  method DayFractions(goal: Goal, activities: seq<ActivityRecord>, nutrition: seq<NutritionRecord>, date: int)
    returns (r: Result<DayProgress>)
    ensures r.Err? <==> DayHasNull(activities, nutrition, date)
    ensures r.Err? ==> r.error == TypeError
    ensures r.Ok? ==> r.value == DayProgress(
                        DayRatio(activities, ActivityDate, Burned, goal.targetCaloriesBurn, date),
                        DayRatio(nutrition, NutritionDate, Consumed, goal.targetCaloriesConsume, date),
                        DayRatio(nutrition, NutritionDate, ProteinCenti, goal.targetProteinCenti, date))
  {
    var burned := CheckedDayTotal(activities, ActivityDate, Burned, BurnedIsNull, date);
    if burned.Err? {
      return Err(TypeError);
    }
    var consumed := DayTotal(nutrition, NutritionDate, Consumed, date);
    var protein := CheckedDayTotal(nutrition, NutritionDate, ProteinCenti, ProteinIsNull, date);
    if protein.Err? {
      return Err(TypeError);
    }
    return Ok(DayProgress(Ratio(burned.value, goal.targetCaloriesBurn),
                          Ratio(consumed, goal.targetCaloriesConsume),
                          Ratio(protein.value, goal.targetProteinCenti)));
  }

  /** The dates the loop appends, `today` first. */
  function NewestDates(today: int, n: nat): seq<int>
  {
    seq(n, j => today - j)
  }

  lemma NewestDatesSnoc(today: int, i: nat)
    ensures NewestDates(today, i + 1) == NewestDates(today, i) + [today - i]
  {
  }

  lemma ReversedNewestDates(today: int, n: nat)
    ensures Reversed(NewestDates(today, n)) == WindowDates(today, n)
  {
  }

  /**
   * The day loop: walks the days from `today` backwards, appending each day's
   * three fractions, then reverses the lists.  A null calories burned or
   * protein on any day of the window raises a TypeError.
   */
  method CollectProgress(goal: Goal, activities: seq<ActivityRecord>, nutrition: seq<NutritionRecord>, today: int, days: int)
    returns (r: Result<DailyProgress>)
    ensures r.Err? <==> WindowHasNull(activities, nutrition, today, days)
    ensures r.Err? ==> r.error == TypeError
    ensures r.Ok? ==> r.value.dates == WindowDates(today, WindowLength(days))
    ensures r.Ok? ==> r.value.burned
                      == WindowRatios(activities, ActivityDate, Burned, goal.targetCaloriesBurn, today, WindowLength(days))
    ensures r.Ok? ==> r.value.consumed
                      == WindowRatios(nutrition, NutritionDate, Consumed, goal.targetCaloriesConsume, today, WindowLength(days))
    ensures r.Ok? ==> r.value.protein
                      == WindowRatios(nutrition, NutritionDate, ProteinCenti, goal.targetProteinCenti, today, WindowLength(days))
  {
    var n := WindowLength(days);
    var dates: seq<int> := [];
    var burned: seq<real> := [];
    var consumed: seq<real> := [];
    var protein: seq<real> := [];
    for i := 0 to n
      invariant dates == NewestDates(today, i)
      invariant burned == NewestFirst(activities, ActivityDate, Burned, goal.targetCaloriesBurn, today, i)
      invariant consumed == NewestFirst(nutrition, NutritionDate, Consumed, goal.targetCaloriesConsume, today, i)
      invariant protein == NewestFirst(nutrition, NutritionDate, ProteinCenti, goal.targetProteinCenti, today, i)
      invariant forall d :: today - i < d <= today ==> !DayHasNull(activities, nutrition, d)
    {
      var date := today - i;
      var day := DayFractions(goal, activities, nutrition, date);
      if day.Err? {
        return Err(TypeError);
      }
      NewestDatesSnoc(today, i);
      NewestFirstSnoc(activities, ActivityDate, Burned, goal.targetCaloriesBurn, today, i);
      NewestFirstSnoc(nutrition, NutritionDate, Consumed, goal.targetCaloriesConsume, today, i);
      NewestFirstSnoc(nutrition, NutritionDate, ProteinCenti, goal.targetProteinCenti, today, i);
      dates := dates + [date];
      burned := burned + [day.value.burned];
      consumed := consumed + [day.value.consumed];
      protein := protein + [day.value.protein];
    }
    ReversedNewestDates(today, n);
    ReversedNewestFirst(activities, ActivityDate, Burned, goal.targetCaloriesBurn, today, n);
    ReversedNewestFirst(nutrition, NutritionDate, Consumed, goal.targetCaloriesConsume, today, n);
    ReversedNewestFirst(nutrition, NutritionDate, ProteinCenti, goal.targetProteinCenti, today, n);
    r := Ok(DailyProgress(Reversed(dates), Reversed(burned), Reversed(consumed), Reversed(protein)));
  }

  /** The report: the window, the goal's targets, the three averages and their indicators. */
  datatype GoalReport = GoalReport(
    days: int,
    goal: Goal,
    avgBurned: real,
    avgConsumed: real,
    avgProtein: real,
    burned: Indicator,
    consumed: Indicator,
    protein: Indicator)

  /**
   * `generate_goal_progress_chart(user, days)` with the stored goal (if any),
   * the fetched rows and `today` as parameters: no report without a goal;
   * a TypeError for a null in the window; otherwise each average is the mean
   * of the day fractions over the window (0 for an empty window), with its
   * indicator.
   */
  method GoalProgressChart(goal: Option<Goal>, activities: seq<ActivityRecord>, nutrition: seq<NutritionRecord>,
                           today: int, days: int)
    returns (r: Result<Option<GoalReport>>)
    ensures goal.None? ==> r == Ok(None)
    ensures goal.Some? ==> (r.Err? <==> WindowHasNull(activities, nutrition, today, days))
    ensures r.Err? ==> r.error == TypeError
    ensures r.Ok? && goal.Some? ==> r.value.Some? && r.value.value.days == days && r.value.value.goal == goal.value
    ensures r.Ok? && goal.Some? ==>
              var g, rep := goal.value, r.value.value;
              && rep.avgBurned == Mean(WindowRatios(activities, ActivityDate, Burned, g.targetCaloriesBurn, today, WindowLength(days)))
              && rep.avgConsumed == Mean(WindowRatios(nutrition, NutritionDate, Consumed, g.targetCaloriesConsume, today, WindowLength(days)))
              && rep.avgProtein == Mean(WindowRatios(nutrition, NutritionDate, ProteinCenti, g.targetProteinCenti, today, WindowLength(days)))
    ensures r.Ok? && goal.Some? ==>
              var rep := r.value.value;
              && rep.burned == TargetIndicator(rep.avgBurned)
              && rep.consumed == IntakeIndicator(rep.avgConsumed)
              && rep.protein == ProteinIndicator(rep.avgProtein)
  {
    if goal.None? {
      return Ok(None);
    }
    var progress := CollectProgress(goal.value, activities, nutrition, today, days);
    if progress.Err? {
      return Err(progress.error);
    }
    var p := progress.value;
    var avgBurned := if |p.burned| > 0 then Total(p.burned) / |p.burned| as real else 0.0;
    var avgConsumed := if |p.consumed| > 0 then Total(p.consumed) / |p.consumed| as real else 0.0;
    var avgProtein := if |p.protein| > 0 then Total(p.protein) / |p.protein| as real else 0.0;
    var report := GoalReport(days, goal.value, avgBurned, avgConsumed, avgProtein,
                             TargetIndicator(avgBurned), IntakeIndicator(avgConsumed), ProteinIndicator(avgProtein));
    return Ok(Some(report));
  }

  // ---------------------------------------------------------------------------
  // What the averages and indicators mean

  /** With no target set (0), every fraction is 0: ✗ for burned calories and protein, ✓ for intake. */
  lemma UnsetTargetAverages<T(!new)>(rows: seq<T>, dateOf: T -> int, f: T -> int, target: int, today: int, n: nat)
    requires target <= 0
    ensures Mean(WindowRatios(rows, dateOf, f, target, today, n)) == 0.0
    ensures TargetIndicator(Mean(WindowRatios(rows, dateOf, f, target, today, n))) == OffTrack
    ensures ProteinIndicator(Mean(WindowRatios(rows, dateOf, f, target, today, n))) == OffTrack
    ensures IntakeIndicator(Mean(WindowRatios(rows, dateOf, f, target, today, n))) == OnTrack
  {
    var s := WindowRatios(rows, dateOf, f, target, today, n);
    if n > 0 {
      forall k | 0 <= k < n
        ensures 0.0 <= s[k] <= 0.0
      {
        assert s[k] == DayRatio(rows, dateOf, f, target, today - (n - 1) + k);
      }
      MeanBetween(s, 0.0, 0.0);
    }
  }

  /** Reaching the target on every day of a non-empty window averages at least 1, which is ✓ for burned calories and protein. */
  lemma DailyTargetMetIsOnTrack<T(!new)>(rows: seq<T>, dateOf: T -> int, f: T -> int, target: int, today: int, n: nat)
    requires target > 0 && n > 0
    requires forall d :: today - n < d <= today ==> DayTotal(rows, dateOf, f, d) >= target
    ensures Mean(WindowRatios(rows, dateOf, f, target, today, n)) >= 1.0
    ensures TargetIndicator(Mean(WindowRatios(rows, dateOf, f, target, today, n))) == OnTrack
    ensures ProteinIndicator(Mean(WindowRatios(rows, dateOf, f, target, today, n))) == OnTrack
  {
    var s := WindowRatios(rows, dateOf, f, target, today, n);
    forall k | 0 <= k < n
      ensures 1.0 <= s[k]
    {
      var d := today - (n - 1) + k;
      assert DayTotal(rows, dateOf, f, d) >= target;
      RatioAtLeast(DayTotal(rows, dateOf, f, d), target, 1.0);
      assert s[k] == DayRatio(rows, dateOf, f, target, d);
    }
    MeanAtLeast(s, 1.0);
  }

  /** Eating more than 150% of the target every day of a non-empty window is ✗. */
  lemma DailyOverIntakeIsOffTrack<T(!new)>(rows: seq<T>, dateOf: T -> int, f: T -> int, target: int, today: int, n: nat, lo: real)
    requires target > 0 && n > 0 && lo > 1.5
    requires forall d :: today - n < d <= today ==> DayTotal(rows, dateOf, f, d) as real >= lo * target as real
    ensures Mean(WindowRatios(rows, dateOf, f, target, today, n)) >= lo
    ensures IntakeIndicator(Mean(WindowRatios(rows, dateOf, f, target, today, n))) == OffTrack
  {
    var s := WindowRatios(rows, dateOf, f, target, today, n);
    forall k | 0 <= k < n
      ensures lo <= s[k]
    {
      var d := today - (n - 1) + k;
      assert DayTotal(rows, dateOf, f, d) as real >= lo * target as real;
      RatioAtLeast(DayTotal(rows, dateOf, f, d), target, lo);
      assert s[k] == DayRatio(rows, dateOf, f, target, d);
    }
    MeanAtLeast(s, lo);
  }

  lemma RatioAtLeast(value: int, target: int, lo: real)
    requires target > 0 && value as real >= lo * target as real
    ensures Ratio(value, target) >= lo
  {
    var r := Ratio(value, target);
    assert r * target as real == value as real;
    assert (r - lo) * target as real >= 0.0;
  }

  /**
   * Eating exactly 80% of the protein target: a target of 100.00 g, one entry
   * of 80.00 g today and a one-day window average exactly 0.8, which the
   * report shows as ⚠ although it is 80% of the target.
   */
  lemma ProteinAtEightyPercentIsCaution()
    ensures var rows := [NutritionRecord(50, 0, Some(8000))];
            var avg := Mean(WindowRatios(rows, NutritionDate, ProteinCenti, 10000, 50, 1));
            avg == 0.8 && ProteinIndicator(avg) == Caution && TargetIndicator(avg) == OnTrack
  {
    var x := NutritionRecord(50, 0, Some(8000));
    var rows := [x];
    assert rows[..0] == [];
    assert OnDate(rows, NutritionDate, 50) == [x];
    assert ProteinCenti(x) == 8000;
    assert Sum([x], ProteinCenti) == 8000 by {
      assert [x][..0] == [];
    }
    assert DayTotal(rows, NutritionDate, ProteinCenti, 50) == 8000;
    var s := WindowRatios(rows, NutritionDate, ProteinCenti, 10000, 50, 1);
    assert s[0] == DayRatio(rows, NutritionDate, ProteinCenti, 10000, 50);
    assert s == [0.8];
    assert Total(s) == 0.8 by {
      assert s[..0] == [];
    }
  }
}
