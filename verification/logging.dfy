/** The two ways rows enter the log. Both only append: rows already in the
    table are never changed or removed. */
module Logging {
  import opened Rows
  import Schedule

  /** The row a body-weight reading is stored as: the sentinel exercise with
      zeroed Sets, Reps and Weight. */
  function BodyWeightRow(date: string, weekday: int, bodyWeight: real): (x: Row)
    requires 0 <= weekday <= 6
    ensures x.exercise == BodyWeightLog && x.sets == 0 && x.reps == 0 && x.weight == 0
    ensures x.bodyWeight == Some(bodyWeight) && x.date == date
  {
    Row(date, Schedule.TodaysWorkout(weekday), BodyWeightLog, 0, 0, 0, Some(bodyWeight))
  }

  /** Records a body-weight reading (the number input allows 0..300 kg). */
  function LogBodyWeight(table: seq<Row>, date: string, weekday: int, bodyWeight: real): (r: seq<Row>)
    requires 0 <= weekday <= 6
    requires 0.0 <= bodyWeight <= 300.0
    ensures |r| == |table| + 1
    ensures r[..|table|] == table
    ensures r[|table|] == BodyWeightRow(date, weekday, bodyWeight)
    ensures r[|table|].day == Schedule.TodaysWorkout(weekday)
  {
    table + [BodyWeightRow(date, weekday, bodyWeight)]
  }

  /** `rows` are the rows of one logging of `exercise`: set i (1-based) with
      the i-th reps and weight entered, and no body weight. */
  ghost predicate LoggedSets(rows: seq<Row>, date: string, day: string, exercise: string,
                             reps: seq<int>, weights: seq<int>)
  {
    && |rows| == |reps| == |weights|
    && forall i :: 0 <= i < |rows| ==>
         rows[i] == Row(date, day, exercise, i + 1, reps[i], weights[i], None)
  }

  /** Records the sets of one scheduled exercise, one row per set, appended in
      set order. The inputs' bounds are those of the number widgets. */
  method LogExercise(table: seq<Row>, date: string, weekday: int, exercise: string,
                     sets: int, reps: seq<int>, weights: seq<int>)
    returns (r: seq<Row>)
    requires 0 <= weekday < 5
    requires exercise in Schedule.Routine(weekday).value
    requires 1 <= sets <= 10
    requires |reps| == sets && |weights| == sets
    requires forall i :: 0 <= i < sets ==> 0 <= reps[i] <= 20 && 0 <= weights[i] <= 1000
    ensures |r| == |table| + sets
    ensures r[..|table|] == table
    ensures LoggedSets(r[|table|..], date, Schedule.TodaysWorkout(weekday), exercise, reps, weights)
  {
    var day := Schedule.TodaysWorkout(weekday);
    r := table;
    var i := 0;
    while i < sets
      invariant 0 <= i <= sets
      invariant |r| == |table| + i
      invariant r[..|table|] == table
      invariant forall j :: 0 <= j < i ==>
                  r[|table| + j] == Row(date, day, exercise, j + 1, reps[j], weights[j], None)
    {
      r := r + [Row(date, day, exercise, i + 1, reps[i], weights[i], None)];
      i := i + 1;
    }
  }

  /** A logged exercise is one of the day's scheduled exercises, never the
      body-weight sentinel, and the rows carry that day's label. */
  lemma LoggedExerciseIsScheduled(weekday: int, exercise: string)
    requires 0 <= weekday < 5
    requires exercise in Schedule.Routine(weekday).value
    ensures exercise != BodyWeightLog
    ensures Schedule.TodaysWorkout(weekday) in Schedule.WorkoutSchedule
    ensures exercise in Schedule.WorkoutSchedule[Schedule.TodaysWorkout(weekday)]
  {
    Schedule.TodaysWorkoutLabel(weekday);
    Schedule.BodyWeightLogNotScheduled(weekday);
  }
}
