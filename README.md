# HealthTracker analytics, modelled in Dafny

This project models the analytics module of HealthTracker (`app/health/analytics.py`), a
Django application that logs activities, nutrition entries and a user goal. The module
turns the rows it has fetched into derived values. The model covers the definitions that
Python binds last, so it leaves out the earlier copies that are shadowed:

- `calculate_trends`: daily averages over the window, active days per week, and the
  trend of each metric (newer half minus older half, per row).
- `calculate_trend`: the branch taken without numpy.
- `generate_activity_chart` and `generate_nutrition_chart`: date totals, sorted, trailing
  dates only, and bars of at most 20 glyphs.
- `generate_goal_progress_chart`: per-day fractions of the goal's targets, their averages
  and the ✓/⚠/✗ indicators.
- `generate_recommendations`: the ordered rule table with its success fallback.

Conventions used throughout:

- Dates are integer day ordinals. The current date is a parameter `today`.
- The fetched rows are sequences of records. The stored goal is an `Option<Goal>`.
- Protein is a `DecimalField` with two decimal places, so it is modelled exactly as an
  integer count of hundredths of a gram. The protein target is modelled the same way.
- Python exceptions that escape a function become `Err(ZeroDivisionError)` or
  `Err(TypeError)` in a `Result`.
- Modules:
  - `records.dfy`: rows and goal.
  - `sums.dfy`: sums and per-date totals.
  - `series.dfy`: totals, means and reversal of number lists.
  - `trends.dfy`, `charts.dfy`, `goal_progress.dfy`, `recommendations.dfy`: the four
    parts of the module.
- Loops in the source are methods with loop invariants. Each one is proved equal to a
  specification function, and the properties are proved about that function.

Where the code and its documentation differ, the model follows the code. The chart bars
are scaled against the largest total of *all* dates (`max(date_totals.values())`, lines
118 and 152). They are not scaled against the largest of the dates shown. When no kept
date reaches the peak, no bar is full.

The protein indicator of the goal report compares a `Decimal` average with the float
literal `0.8` (line 465). Python compares the two by exact value, and the double nearest
to 0.8 lies slightly above 0.8, so an average of exactly 0.8 gets ⚠. The report follows
the code as written (`ProteinIndicator`); see "## Findings".

## Model

| member | source | states |
|---|---|---|
| Sums.DayTotalSnoc | app/health/analytics.py:105-110 | adding one row adds its metric to its own date's total and changes no other date's total |
| Sums.DayTotalAbsent | app/health/analytics.py:107-108 | a date with no row has total 0, so the dictionary entry starts at 0 |
| Sums.DayTotalNonNegative | app/health/models.py:68 | a day's total of a non-negative metric is non-negative |
| Sums.SumAppend | app/health/analytics.py:356-357 | the sum over two lists of rows is the sum of their sums |
| Series.Reversed | app/health/analytics.py:441-444 | `reverse()` keeps the length and puts element `k` at position `n-1-k` |
| Series.TotalReversed | app/health/analytics.py:441-454 | reversing a list changes neither its total nor its mean |
| Series.MeanBetween | app/health/analytics.py:452-454 | the mean of a non-empty list lies between any bounds on its elements |
| Series.MeanAtLeast | app/health/analytics.py:452-454 | the mean of a non-empty list is at least any lower bound on its elements |
| Series.MeanAtMost | app/health/analytics.py:452-454 | the mean of a non-empty list is at most any upper bound on its elements |
| Series.MeanShifted | app/health/analytics.py:396-397 | adding `c` to every element of a non-empty list adds `c` to its mean |
| Trends.CollectActiveDates | app/health/analytics.py:336-339 | the loop collects exactly the dates that have an activity with positive duration |
| Trends.RepeatedDateCountsOnce | app/health/analytics.py:336-339 | another activity on a date that is already active adds no active date |
| Trends.ActiveDatesAtMostRecords | app/health/analytics.py:336-340 | there are never more active dates than activities |
| Trends.Older | app/health/analytics.py:349-352 | every row in the first half is at least `mid` days old |
| Trends.Newer | app/health/analytics.py:349-354 | every row in the second half is less than `mid` days old |
| Trends.SplitCounts | app/health/analytics.py:359 | the two halves together have exactly as many rows as the input |
| Trends.SplitIsPartition | app/health/analytics.py:346-354 | the two halves hold every row exactly once (multiset union equals the input) |
| Trends.SplitSums | app/health/analytics.py:356-357 | the sums of the two halves add up to the sum over all rows |
| Trends.SplitByRecency | app/health/analytics.py:346-354 | the split loop produces exactly the older and the newer half, order preserved; also lines 363-371 |
| Trends.SplitTrendOfSums | app/health/analytics.py:356-360 | the trend is the newer sum minus the older sum, divided by `max(1, rows)`, the two counts adding up to the rows |
| Trends.SplitTrendByOlder | app/health/analytics.py:356-360 | the trend is the rest of the rows' sum minus the older half's sum, divided by `max(1, rows)` |
| Trends.AllRecentTrend | app/health/analytics.py:349-360 | when every row is recent, the trend is the whole sum divided by `max(1, rows)`: the plain per-row average |
| Trends.NewerHoldsAll | app/health/analytics.py:356-357 | with no old rows, the older sum is 0 and the newer sum is the whole sum |
| Trends.OlderHoldsAll | app/health/analytics.py:356-357 | with no recent rows, the newer sum is 0 and the older sum is the whole sum |
| Trends.AllOlderTrend | app/health/analytics.py:349-360 | when every row is old, the trend is 0 minus the whole sum, divided by `max(1, rows)`: minus the per-row average |
| Trends.RecencyTrend | app/health/analytics.py:346-360 | one trend block equals the newer-minus-older difference per row of the split |
| Trends.PerDay | app/health/analytics.py:331-333 | a per-day average times the number of days gives back the total |
| Trends.DailyAverages | app/health/analytics.py:327-333 | each average is its whole total (null as 0, protein in grams) spread over `days` |
| Trends.ActivityDaysPerWeek | app/health/analytics.py:336-340 | active days per week times `days` equals 7 times the number of active dates |
| Trends.CalculateTrends | app/health/analytics.py:314-386 | empty inputs give all zeros; otherwise `days == 0` gives a ZeroDivisionError; otherwise every field is its average or trend over all rows, with the split at `days // 2` |
| Trends.SplitTrend | app/health/analytics.py:356-360 | with no row in either half the trend is 0, as `max(1, …)` keeps the division defined |
| Trends.CalculateTrend | app/health/analytics.py:388-398 | a series shorter than 2 has trend 0 |
| Trends.TrendIsMeanDifference | app/health/analytics.py:390-398 | a series shorter than 2 has trend 0; otherwise the trend is mean(second half) minus mean(first half), split at `len // 2` |
| Trends.ConstantSeriesHasNoTrend | app/health/analytics.py:390-398 | a constant series has trend 0 |
| Trends.NondecreasingSeriesTrend | app/health/analytics.py:395-398 | a non-decreasing series never has a negative trend |
| Trends.ShiftedSeriesTrend | app/health/analytics.py:395-398 | raising every point by the same amount leaves the trend unchanged |
| Charts.BarLength | app/health/analytics.py:123 | a total within the peak draws 0 to 20 glyphs; a total equal to a positive peak draws exactly 20 |
| Charts.KeptCount | app/health/analytics.py:121 | never more dates than there are; all of them when `days` is 0 or at least their number |
| Charts.BarMonotone | app/health/analytics.py:123 | a larger total never gets a shorter bar |
| Charts.BarBounds | app/health/analytics.py:123 | a total within the peak draws 0 to 20 glyphs, and a zero total draws none |
| Charts.FullBarExactlyAtPeak | app/health/analytics.py:123 | with a positive peak, a bar is 20 glyphs exactly when its total equals the peak |
| Charts.BarScale | app/health/analytics.py:123 | a total within the peak draws 0 to 20 glyphs, and exactly 20 when it is a positive peak |
| Charts.Insert | app/health/analytics.py:113 | inserting a new date into ascending dates keeps them ascending and adds exactly that date |
| Charts.SortDates | app/health/analytics.py:113 | `sorted` of distinct dates is strictly ascending and a permutation of its input |
| Charts.PySliceFrom | app/health/analytics.py:121 | Python's `s[start:]` is a suffix of `s` |
| Charts.KeptSliceSize | app/health/analytics.py:121 | `sorted_dates[-min(days, n):]` keeps the last `days` dates for positive `days`, all of them for 0, and all but the first `-days` for negative `days` |
| Charts.PeakOver | app/health/analytics.py:118 | the peak is at least every date's total and, for rows that exist, equals some date's total |
| Charts.MaxOfTotals | app/health/analytics.py:118 | `max(date_totals.values())` is at least every grouped total and equals one of them |
| Charts.PeakBoundsDayTotal | app/health/analytics.py:118 | no date's total exceeds the peak |
| Charts.PeakIsReached | app/health/analytics.py:118 | for non-empty rows some date's total equals the peak |
| Charts.BarOfDate | app/health/analytics.py:118-123 | for a non-negative metric, a date's bar has 0 to 20 glyphs and has 20 exactly when its total is a positive peak |
| Charts.GroupByDate | app/health/analytics.py:105-110 | the grouping loop maps each date of the rows, and nothing else, to its total, with every date listed once |
| Charts.GroupedPeak | app/health/analytics.py:118 | the largest grouped total is the largest day total of the rows |
| Charts.KeysCountDates | app/health/analytics.py:105-113 | there are as many dictionary keys as distinct dates |
| Charts.SortedKeys | app/health/analytics.py:113 | the sorted keys are exactly the keys, as many of them |
| Charts.SuffixIncreasing | app/health/analytics.py:121 | the kept slice of ascending dates is ascending |
| Charts.KeptDates | app/health/analytics.py:113-121 | the kept dates number `KeptCount(days, n)`, ascend, are all dates of the rows, and include every date from the first kept one on |
| Charts.LinesIncreasing | app/health/analytics.py:121-125 | lines drawn for ascending dates come in ascending date order |
| Charts.TrailingDatesShown | app/health/analytics.py:121 | a suffix of the ascending dates holds every date from its first date on |
| Charts.DrawLines | app/health/analytics.py:120-125 | one line per kept date, in order, with that date's total and its bar scaled against the peak |
| Charts.DrawChart | app/health/analytics.py:112-125 | the lines show the trailing kept dates in strictly ascending order, each with its total and its bar |
| Charts.BuildChart | app/health/analytics.py:97-130 | no chart for no rows; otherwise `KeptCount` lines in strictly ascending date order, each with its date's total and a bar scaled against the peak of all dates, and no date after the first shown date is left out |
| Charts.ActivityChart | app/health/analytics.py:97-130 | the calories-burned chart (null as 0), whose bars have 0 to 20 glyphs and are full exactly at a positive peak |
| Charts.NutritionChart | app/health/analytics.py:132-164 | the calorie-intake chart, whose bars have 0 to 20 glyphs and are full exactly at a positive peak |
| GoalProgress.TargetIndicator | app/health/analytics.py:463 | the burned indicator is ✓ exactly from 0.8 on and ✗ exactly below 0.5 |
| GoalProgress.IntakeIndicator | app/health/analytics.py:464 | the intake indicator is ✓ exactly up to 1.2 and ✗ exactly above 1.5 |
| GoalProgress.IndicatorThresholds | app/health/analytics.py:463-464 | burned: ✓ iff average ≥ 0.8, ⚠ iff 0.5 ≤ average < 0.8, ✗ otherwise; intake: ✓ iff ≤ 1.2, ⚠ iff 1.2 < average ≤ 1.5, ✗ otherwise |
| GoalProgress.TargetIndicatorMonotone | app/health/analytics.py:463 | a higher average never worsens the burned indicator |
| GoalProgress.ProteinIndicator | app/health/analytics.py:465 | the protein indicator is ✓ exactly from the double nearest 0.8 on and ✗ exactly below 0.5 |
| GoalProgress.ProteinIndicatorThresholds | app/health/analytics.py:465 | protein: ✓ iff average ≥ the double 0.8, ⚠ iff 0.5 ≤ average < it, ✗ otherwise |
| GoalProgress.ProteinIndicatorBoundary | app/health/analytics.py:463-465 | the double 0.8 lies within 10^-15 above 0.8; the protein and burned indicators differ exactly for averages from 0.8 up to it, where protein shows ⚠ and burned ✓ |
| GoalProgress.ProteinIndicatorMonotone | app/health/analytics.py:465 | a higher average never worsens the protein indicator |
| GoalProgress.IntakeIndicatorMonotone | app/health/analytics.py:464 | a higher average never improves the intake indicator |
| GoalProgress.Ratio | app/health/analytics.py:431 | the ratio is 0 when the target is not positive; otherwise the ratio times the target gives back the value |
| GoalProgress.CheckedDayTotal | app/health/analytics.py:428-430 | a day's sum is a TypeError exactly when one of that day's rows holds a null; otherwise it is the day's total |
| GoalProgress.DayFractions | app/health/analytics.py:426-439 | one pass of the loop raises a TypeError exactly when the day has a null calories burned or protein; otherwise it gives the day's three fractions |
| GoalProgress.NewestFirstSnoc | app/health/analytics.py:424-439 | each pass appends the next older day's fraction |
| GoalProgress.ReversedNewestFirst | app/health/analytics.py:441-444 | reversing the newest-first list gives the window oldest first |
| GoalProgress.NewestFirstMean | app/health/analytics.py:441-454 | the reversal does not change the averages |
| GoalProgress.NewestDatesSnoc | app/health/analytics.py:424-426 | each pass appends the next older date |
| GoalProgress.ReversedNewestDates | app/health/analytics.py:441 | the reversed dates are the window's days oldest first |
| GoalProgress.CollectProgress | app/health/analytics.py:418-444 | a TypeError exactly when some window day has a null; otherwise `max(0, days)` dates and fractions, oldest first, each fraction the day's total over its target |
| GoalProgress.GoalProgressChart | app/health/analytics.py:408-470 | no goal gives no report; a null in the window gives a TypeError; otherwise each average is the mean of the window's fractions (0 for an empty window), with the burned, intake and protein indicators of lines 463-465, protein against the double 0.8 |
| GoalProgress.ProteinAtEightyPercentIsCaution | app/health/analytics.py:426-465 | a protein target of 100.00 g with one 80.00 g entry today over one day averages exactly 0.8, which the protein line shows as ⚠ while the burned thresholds give ✓ |
| GoalProgress.UnsetTargetAverages | app/health/analytics.py:431 | with a target of 0 every fraction and the average are 0, so the indicator is ✗ for burned and protein and ✓ for intake |
| GoalProgress.DailyTargetMetIsOnTrack | app/health/analytics.py:452-465 | reaching the target on every day of a non-empty window averages at least 1, which is ✓ for burned and for protein |
| GoalProgress.DailyOverIntakeIsOffTrack | app/health/analytics.py:453-464 | eating more than 150% of the target on every day of a non-empty window is ✗ |
| Recommendations.Concern | app/health/analytics.py:478-527 | only a warning or info check can fire, and each goal-based check needs a goal |
| Recommendations.IssuedByCheck | app/health/analytics.py:476-527 | the issued list is the six checks' outputs in rule order |
| Recommendations.IssuedMentions | app/health/analytics.py:476-527 | a title is issued exactly when it is one of the checks and its condition holds |
| Recommendations.IssuedInOrder | app/health/analytics.py:476-527 | issued entries carry their title's kind and come in rule order |
| Recommendations.AtMostFourIssued | app/health/analytics.py:478-527 | at most one goal type matches, so at most four checks fire together |
| Recommendations.NothingIssued | app/health/analytics.py:476-529 | nothing is issued exactly when no condition holds |
| Recommendations.Recommend | app/health/analytics.py:529-535 | the list is never empty: with no check firing it is the success entry |
| Recommendations.RecommendMentions | app/health/analytics.py:476-535 | a warning or info title is present iff its condition holds; "Great Progress!" is present iff nothing else fires, and then it is alone |
| Recommendations.RecommendOrder | app/health/analytics.py:474-537 | never empty and at most four entries, each with its title's kind, in rule order, so goal-based ones come before the general ones |
| Recommendations.GoalChecks | app/health/analytics.py:476-510 | the goal-based block issues, in rule order, exactly the goal-specific checks whose conditions hold |
| Recommendations.GenerateRecommendations | app/health/analytics.py:472-537 | the appending method returns exactly the specified recommendation list |
| Recommendations.OverIntakeComesFirst | app/health/analytics.py:478-484 | for weight loss with intake above the target, the first entry is "Calorie Intake Too High" |
| Recommendations.OnlyOwnGoalChecks | app/health/analytics.py:476-510 | a goal-specific title appears only with a goal, and only when the goal has that title's type |

## Left out

- `get_user_data` (lines 24-41) and `UserGoal.objects.get` (lines 410-413) are ORM queries. Their results are the `activities`, `nutrition` and `goal` parameters.
- The window filter of `get_user_data` is not modelled. Every result depends only on the rows the source looks at: rows outside the goal window never matter, and `calculate_trends` and the charts use every fetched row.
- `datetime.now()` (lines 350, 367, 423) is replaced by the `today` parameter.
- The numpy/scikit-learn branch of `calculate_trend` (lines 401-406) calls a foreign library. Only the fallback branch is modelled.
- Trends.CalculateTrends: does not model `round(…, 1)` and `round(…, 2)` (lines 380-385); the fields are exact reals, because rounding to decimal places has no exact counterpart over `real`.
- Recommendations.Concern: compares exact trends, not rounded ones, so a comparison that lies within a rounding step of its threshold can come out differently from the source.
- GoalProgress.GoalProgressChart: computes the burned and intake fractions and their averages as exact reals, while the source uses floats (lines 431, 436, 452-453); an average within float rounding of 0.5, 0.8, 1.2 or 1.5 can fall on the other side of its threshold (target 10 with 7, 8 and 9 burned over 3 days gives the float mean 0.7999999999999999, ⚠, where the model has exactly 0.8, ✓). The 28-digit rounding of `Decimal` division and addition for the protein fractions is not modelled either.
- GoalProgress.DailyOverIntakeIsOffTrack: is stated about the exact-real mean, so float rounding of the intake fractions near 1.5 is not covered.
- Charts.BarLength: uses exact integer arithmetic `(20 * total) / max(peak, 1)` instead of `int((total / peak) * 20)` over floats, so float rounding near a glyph boundary is idealised.
- The chart text, the report text (`:.2f` formatting) and the recommendation message and action strings are not modelled. A chart is a list of (date, bar length, total) lines, a report holds the averages and indicators, and a recommendation is its kind and title.
- The `except` handlers that print and return `None` (lines 128-130, 162-164, 468-470) are not modelled. No statement inside those `try` blocks can raise for the modelled inputs. The TypeError of the goal report comes from lines 430 and 438, which lie outside that `try`, and is modelled.
- The shadowed definitions (lines 43-95 and 166-295) and the unreachable lines 296-312 are not modelled.
- The distance, carbs and fat fields are fetched but never used by the live functions, so they are not modelled.
- The `dates` list of the goal report is built and reversed but never printed. It is modelled in `CollectProgress` and does not appear in the report.

## Findings

| source | as written | input that shows it | evidently intended | confidence | as-written member | corrected member |
|---|---|---|---|---|---|---|
| app/health/analytics.py:465 | the `Decimal` protein average is compared with the float `0.8`, whose exact value is slightly above 0.8, so an average of exactly 0.8 is ⚠ | protein target 100.00 g, one entry of 80.00 g today, `days=1`: the average is exactly 0.8 and the protein indicator is ⚠ | ✓ from 80% of the target on, as for burned calories on line 463 | not executed | GoalProgress.ProteinAtEightyPercentIsCaution | GoalProgress.TargetIndicator |

The report itself follows the code as written (`ProteinIndicator`). `TargetIndicator` is the
intended threshold; `IndicatorThresholds` proves that 0.8 itself is ✓ under it, and
`ProteinIndicatorBoundary` proves that the two differ exactly on averages from 0.8 up to the
double 0.8.
