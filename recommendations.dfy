/**
 * `generate_recommendations`: goal-specific checks for the user's goal type,
 * then two general checks on the trends, and a single congratulation when no
 * check fires.  A recommendation is kept as its kind and title; the message
 * and action texts are fixed per title.
 */
module Recommendations {
  import opened Records
  import opened Trends

  datatype Kind = Warning | Info | Success

  datatype Title =
    | CalorieIntakeTooHigh
    | IncreaseActivityFrequency
    | IncreaseProteinIntake
    | ActivityLevelDeclining
    | LowActivityLevel
    | RisingCalorieIntake
    | GreatProgress

  datatype Recommendation = Recommendation(kind: Kind, title: Title)

  /** The kind each title is issued with. */
  function KindOf(t: Title): Kind
  {
    match t
    case CalorieIntakeTooHigh => Warning
    case IncreaseActivityFrequency => Info
    case IncreaseProteinIntake => Info
    case ActivityLevelDeclining => Warning
    case LowActivityLevel => Info
    case RisingCalorieIntake => Warning
    case GreatProgress => Success
  }

  /** The position of each title's check in the order the checks run. */
  function Rank(t: Title): nat
  {
    match t
    case CalorieIntakeTooHigh => 0
    case IncreaseActivityFrequency => 1
    case IncreaseProteinIntake => 2
    case ActivityLevelDeclining => 3
    case LowActivityLevel => 4
    case RisingCalorieIntake => 5
    case GreatProgress => 6
  }

  /** The goal-specific titles, issued only for a matching goal type. */
  predicate GoalSpecific(t: Title)
  {
    Rank(t) < 4
  }

  /**
   * The condition under which the check behind a warning or info title fires.
   * Protein is compared in grams; the stored target is in hundredths.
   */
  predicate Concern(t: Title, trends: TrendSummary, goal: Option<Goal>)
    ensures Concern(t, trends, goal) ==> t != GreatProgress
    ensures Concern(t, trends, goal) && t != LowActivityLevel && t != RisingCalorieIntake ==> goal.Some?
  {
    match t
    case CalorieIntakeTooHigh =>
      goal.Some? && goal.value.goalType == WeightLoss
      && trends.avgDailyCaloriesConsumed > goal.value.targetCaloriesConsume as real
    case IncreaseActivityFrequency =>
      goal.Some? && goal.value.goalType == WeightLoss
      && trends.avgActivityDays < goal.value.targetActivityDays as real
    case IncreaseProteinIntake =>
      goal.Some? && goal.value.goalType == MuscleGain
      && trends.avgDailyProtein < goal.value.targetProteinCenti as real / 100.0
    case ActivityLevelDeclining =>
      goal.Some? && goal.value.goalType == IncreaseFitness && trends.trendCaloriesBurned <= 0.0
    case LowActivityLevel => trends.avgDailyCaloriesBurned < 500.0
    case RisingCalorieIntake => trends.trendCaloriesConsumed > 50.0
    case GreatProgress => false
  }

  /** Some recommendation in the list carries title `t`. */
  predicate Mentions(recs: seq<Recommendation>, t: Title)
  {
    exists k :: 0 <= k < |recs| && recs[k].title == t
  }

  /** The checks in the order they run. */
  const CheckOrder: seq<Title> :=
    [CalorieIntakeTooHigh, IncreaseActivityFrequency, IncreaseProteinIntake, ActivityLevelDeclining,
     LowActivityLevel, RisingCalorieIntake]

  /** The recommendation one check issues: its title with its kind when it fires, nothing otherwise. */
  function Issue(t: Title, trends: TrendSummary, goal: Option<Goal>): seq<Recommendation>
  {
    if Concern(t, trends, goal) then [Recommendation(KindOf(t), t)] else []
  }

  /** The recommendations the checks of `ts` issue, in the order of `ts`. */
  function Issued(ts: seq<Title>, trends: TrendSummary, goal: Option<Goal>): seq<Recommendation>
  {
    if ts == [] then [] else Issued(ts[..|ts| - 1], trends, goal) + Issue(ts[|ts| - 1], trends, goal)
  }

  lemma IssuedSnoc(ts: seq<Title>, t: Title, trends: TrendSummary, goal: Option<Goal>)
    ensures Issued(ts + [t], trends, goal) == Issued(ts, trends, goal) + Issue(t, trends, goal)
  {
    assert (ts + [t])[..|ts|] == ts;
  }

  /** The six checks one after the other. */
  lemma IssuedByCheck(trends: TrendSummary, goal: Option<Goal>)
    ensures Issued(CheckOrder, trends, goal)
         == Issue(CalorieIntakeTooHigh, trends, goal) + Issue(IncreaseActivityFrequency, trends, goal)
            + Issue(IncreaseProteinIntake, trends, goal) + Issue(ActivityLevelDeclining, trends, goal)
            + Issue(LowActivityLevel, trends, goal) + Issue(RisingCalorieIntake, trends, goal)
  {
    var ts: seq<Title> := [];
    IssuedSnoc(ts, CalorieIntakeTooHigh, trends, goal);
    ts := ts + [CalorieIntakeTooHigh];
    IssuedSnoc(ts, IncreaseActivityFrequency, trends, goal);
    ts := ts + [IncreaseActivityFrequency];
    IssuedSnoc(ts, IncreaseProteinIntake, trends, goal);
    ts := ts + [IncreaseProteinIntake];
    IssuedSnoc(ts, ActivityLevelDeclining, trends, goal);
    ts := ts + [ActivityLevelDeclining];
    IssuedSnoc(ts, LowActivityLevel, trends, goal);
    ts := ts + [LowActivityLevel];
    IssuedSnoc(ts, RisingCalorieIntake, trends, goal);
    ts := ts + [RisingCalorieIntake];
    assert ts == CheckOrder;
  }

  /** A title is issued exactly when it is one of the checks and its check fires. */
  lemma {:induction false} IssuedMentions(ts: seq<Title>, trends: TrendSummary, goal: Option<Goal>, t: Title)
    ensures Mentions(Issued(ts, trends, goal), t) <==> t in ts && Concern(t, trends, goal)
  {
    if ts != [] {
      var init, last := ts[..|ts| - 1], ts[|ts| - 1];
      IssuedMentions(init, trends, goal, t);
      var prev := Issued(init, trends, goal);
      var r := Issued(ts, trends, goal);
      assert ts == init + [last];
      assert r == prev + Issue(last, trends, goal);
      if Mentions(r, t) {
        var k :| 0 <= k < |r| && r[k].title == t;
        if k < |prev| {
          assert prev[k] == r[k];
        }
      }
      if Mentions(prev, t) {
        var k :| 0 <= k < |prev| && prev[k].title == t;
        assert r[k] == prev[k];
      }
      if t == last && Concern(t, trends, goal) {
        assert r[|r| - 1].title == t;
      }
    }
  }

  /** Issued recommendations carry their title's kind and come in the order of the checks. */
  lemma {:induction false} IssuedInOrder(ts: seq<Title>, trends: TrendSummary, goal: Option<Goal>)
    requires forall i, j :: 0 <= i < j < |ts| ==> Rank(ts[i]) < Rank(ts[j])
    ensures forall k :: 0 <= k < |Issued(ts, trends, goal)| ==>
              Issued(ts, trends, goal)[k].kind == KindOf(Issued(ts, trends, goal)[k].title)
              && Issued(ts, trends, goal)[k].title in ts
    ensures forall i, j :: 0 <= i < j < |Issued(ts, trends, goal)| ==>
              Rank(Issued(ts, trends, goal)[i].title) < Rank(Issued(ts, trends, goal)[j].title)
  {
    if ts != [] {
      var init, last := ts[..|ts| - 1], ts[|ts| - 1];
      IssuedInOrder(init, trends, goal);
      var prev := Issued(init, trends, goal);
      forall k | 0 <= k < |prev|
        ensures Rank(prev[k].title) < Rank(last)
      {
        var i :| 0 <= i < |init| && init[i] == prev[k].title;
        assert ts[i] == init[i];
      }
    }
  }

  /** At most one goal type matches, so at most four of the six checks can fire together. */
  lemma AtMostFourIssued(trends: TrendSummary, goal: Option<Goal>)
    ensures |Issued(CheckOrder, trends, goal)| <= 4
  {
    IssuedByCheck(trends, goal);
  }

  /** Nothing is issued exactly when no check fires. */
  lemma NothingIssued(trends: TrendSummary, goal: Option<Goal>)
    ensures Issued(CheckOrder, trends, goal) == [] <==> forall t :: !Concern(t, trends, goal)
  {
    IssuedByCheck(trends, goal);
    if Issued(CheckOrder, trends, goal) == [] {
      forall t
        ensures !Concern(t, trends, goal)
      {
        IssuedMentions(CheckOrder, trends, goal, t);
      }
    }
  }

  /** The issued checks in order, or the single "Great Progress!" success when none fires. */
  function Recommend(trends: TrendSummary, goal: Option<Goal>): (r: seq<Recommendation>)
    ensures r != []
  {
    var issued := Issued(CheckOrder, trends, goal);
    if issued == [] then [Recommendation(Success, GreatProgress)] else issued
  }

  /**
   * What the recommendations say: a warning or info title exactly when its
   * check fires; "Great Progress!" exactly when no check fires, and then alone.
   */
  lemma RecommendMentions(trends: TrendSummary, goal: Option<Goal>)
    ensures var recs := Recommend(trends, goal);
            && (forall t :: t != GreatProgress ==> (Mentions(recs, t) <==> Concern(t, trends, goal)))
            && (Mentions(recs, GreatProgress) <==> forall t :: !Concern(t, trends, goal))
            && (Mentions(recs, GreatProgress) ==> recs == [Recommendation(Success, GreatProgress)])
  {
    var recs := Recommend(trends, goal);
    NothingIssued(trends, goal);
    forall t
      ensures Mentions(Issued(CheckOrder, trends, goal), t) <==> t in CheckOrder && Concern(t, trends, goal)
    {
      IssuedMentions(CheckOrder, trends, goal, t);
    }
    if recs == [Recommendation(Success, GreatProgress)] {
      assert recs[0].title == GreatProgress;
    } else {
      assert GreatProgress !in CheckOrder;
    }
  }

  /**
   * How the recommendations are laid out: one to four entries, each with its
   * title's kind, in the order the checks run.
   */
  lemma RecommendOrder(trends: TrendSummary, goal: Option<Goal>)
    ensures var recs := Recommend(trends, goal);
            && (forall k :: 0 <= k < |recs| ==> recs[k].kind == KindOf(recs[k].title))
            && (forall i, j :: 0 <= i < j < |recs| ==> Rank(recs[i].title) < Rank(recs[j].title))
            && 1 <= |recs| <= 4
  {
    AtMostFourIssued(trends, goal);
    IssuedInOrder(CheckOrder, trends, goal);
  }

  /** The goal-based block: only the checks of the goal's own type run, in order. */
  method GoalChecks(trends: TrendSummary, goal: Option<Goal>) returns (recs: seq<Recommendation>)
    ensures recs == Issue(CalorieIntakeTooHigh, trends, goal) + Issue(IncreaseActivityFrequency, trends, goal)
                    + Issue(IncreaseProteinIntake, trends, goal) + Issue(ActivityLevelDeclining, trends, goal)
  {
    recs := [];
    if goal.Some? {
      var g := goal.value;
      if g.goalType == WeightLoss {
        if trends.avgDailyCaloriesConsumed > g.targetCaloriesConsume as real {
          recs := recs + [Recommendation(Warning, CalorieIntakeTooHigh)];
        }
        if trends.avgActivityDays < g.targetActivityDays as real {
          recs := recs + [Recommendation(Info, IncreaseActivityFrequency)];
        }
      } else if g.goalType == MuscleGain {
        if trends.avgDailyProtein < g.targetProteinCenti as real / 100.0 {
          recs := recs + [Recommendation(Info, IncreaseProteinIntake)];
        }
      } else if g.goalType == IncreaseFitness {
        if trends.trendCaloriesBurned <= 0.0 {
          recs := recs + [Recommendation(Warning, ActivityLevelDeclining)];
        }
      }
    }
  }

  /** `generate_recommendations(user, trends, goal)`: the checks run in order, appending as they fire. */
  method GenerateRecommendations(trends: TrendSummary, goal: Option<Goal>) returns (recs: seq<Recommendation>)
    ensures recs == Recommend(trends, goal)
  {
    recs := GoalChecks(trends, goal);
    if trends.avgDailyCaloriesBurned < 500.0 {
      recs := recs + [Recommendation(Info, LowActivityLevel)];
    }
    if trends.trendCaloriesConsumed > 50.0 {
      recs := recs + [Recommendation(Warning, RisingCalorieIntake)];
    }
    if recs == [] {
      recs := [Recommendation(Success, GreatProgress)];
    }
    IssuedByCheck(trends, goal);
  }

  /** For weight loss, eating over the target makes the intake warning the first recommendation. */
  lemma OverIntakeComesFirst(trends: TrendSummary, goal: Goal)
    requires goal.goalType == WeightLoss
    requires trends.avgDailyCaloriesConsumed > goal.targetCaloriesConsume as real
    ensures Recommend(trends, Some(goal))[0] == Recommendation(Warning, CalorieIntakeTooHigh)
  {
    IssuedByCheck(trends, Some(goal));
  }

  /** Only the checks of the user's own goal type can fire; without a goal, only the general ones. */
  lemma OnlyOwnGoalChecks(trends: TrendSummary, goal: Option<Goal>, t: Title)
    requires GoalSpecific(t) && Mentions(Recommend(trends, goal), t)
    ensures goal.Some?
    ensures goal.value.goalType == WeightLoss <==> t in {CalorieIntakeTooHigh, IncreaseActivityFrequency}
    ensures goal.value.goalType == MuscleGain <==> t == IncreaseProteinIntake
    ensures goal.value.goalType == IncreaseFitness <==> t == ActivityLevelDeclining
  {
    RecommendMentions(trends, goal);
  }
}
