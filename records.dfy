/**
 * The rows the analytics module receives from the persistence layer, the
 * stored goal, and the two Python exceptions the module can raise.
 *
 * Dates are day ordinals (consecutive calendar days differ by 1).  Field
 * types follow app/health/models.py: PositiveIntegerField becomes `nat`, a
 * nullable field an `Option`, and a DecimalField with two decimal places an
 * exact `int` count of hundredths.
 */
module Records {

  datatype Option<+T> = None | Some(value: T) {
    /** The value, or `default` when absent (Python's `x or 0` on a null). */
    function GetOr(default: T): T {
      match this
      case Some(v) => v
      case None => default
    }
  }

  /** The Python exceptions that escape the modelled functions. */
  datatype Error = ZeroDivisionError | TypeError

  datatype Result<+T> = Ok(value: T) | Err(error: Error)

  /** One Activity row as fetched: date, duration in minutes, optional calories burned. */
  datatype ActivityRecord = ActivityRecord(date: int, duration: nat, caloriesBurned: Option<nat>)

  /** One NutritionEntry row as fetched: date, calories, optional protein in hundredths of a gram. */
  datatype NutritionRecord = NutritionRecord(date: int, calories: nat, proteinCenti: Option<int>)

  datatype GoalType =
    | WeightLoss
    | WeightGain
    | MuscleGain
    | MaintainWeight
    | IncreaseFitness
    | ImproveEndurance

  /** A UserGoal row; the protein target is in hundredths of a gram. */
  datatype Goal = Goal(
    goalType: GoalType,
    targetCaloriesBurn: nat,
    targetCaloriesConsume: nat,
    targetProteinCenti: int,
    targetActivityDays: nat)

  function ActivityDate(a: ActivityRecord): int { a.date }

  function NutritionDate(n: NutritionRecord): int { n.date }

  /** Calories burned, a null counting as 0. */
  function Burned(a: ActivityRecord): int { a.caloriesBurned.GetOr(0) }

  /** The row's calories_burned is null. */
  function BurnedIsNull(a: ActivityRecord): bool { a.caloriesBurned.None? }

  function Consumed(n: NutritionRecord): int { n.calories }

  /** Protein in hundredths of a gram, a null counting as 0. */
  function ProteinCenti(n: NutritionRecord): int { n.proteinCenti.GetOr(0) }

  /** The row's protein is null. */
  function ProteinIsNull(n: NutritionRecord): bool { n.proteinCenti.None? }

  function Max(a: int, b: int): int { if a < b then b else a }

  function Min(a: int, b: int): int { if a < b then a else b }
}
