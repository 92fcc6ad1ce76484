/** The weekly routine: five numbered training days, Monday to Friday, and a
    rest day at the weekend. */
module Schedule {
  import opened Rows

  const RestDay: string := "Rest Day"

  /** The exercises of each training day, in the order they are shown. */
  const WorkoutSchedule: map<string, seq<string>> := map[
    "Day 1" := ["Bench Press", "Incline Dumbbell Press", "Lateral Raises", "Tricep Dips", "Cable Crunches"],
    "Day 2" := ["Pull-Ups", "Barbell Row", "Face Pulls", "Barbell Curls", "Plank Hold"],
    "Day 3" := ["Back Squats", "Bulgarian Split Squats", "Romanian Deadlifts", "Seated Calf Raises", "Hanging Leg Raises"],
    "Day 4" := ["Deadlifts", "Hip Thrusts", "Front Squats", "Donkey Calf Raises", "Russian Twists"],
    "Day 5" := ["Bench Press", "Pull-Ups", "Overhead Press", "Lunges", "Cable Woodchoppers"]
  ]

  /** Reference list of the training-day labels, Monday first. */
  const DayLabels: seq<string> := ["Day 1", "Day 2", "Day 3", "Day 4", "Day 5"]

  /** Decimal rendering of a natural number, as an f-string prints an int. */
  function NatToString(n: nat): (s: string)
    ensures |s| > 0
    ensures forall c :: c in s ==> '0' <= c <= '9'
  {
    if n < 10 then ["0123456789"[n]]
    else NatToString(n / 10) + ["0123456789"[n % 10]]
  }

  /** The label of the day's routine for a weekday index (Monday = 0). */
  function TodaysWorkout(weekday: int): (name: string)
    requires 0 <= weekday <= 6
    ensures name == RestDay <==> 5 <= weekday
    ensures weekday < 5 ==> |name| == 5 && name[..4] == "Day "
  {
    if weekday < 5 then "Day " + NatToString(weekday + 1) else RestDay
  }

  /** Mon-Fri map to "Day 1".."Day 5", each a key of the schedule; the
      weekend maps to the rest day, which is not. */
  lemma TodaysWorkoutLabel(weekday: int)
    requires 0 <= weekday <= 6
    ensures weekday < 5 ==> TodaysWorkout(weekday) == DayLabels[weekday]
    ensures TodaysWorkout(weekday) in WorkoutSchedule <==> weekday < 5
  {
    if weekday < 5 {
      assert NatToString(weekday + 1) == ["0123456789"[weekday + 1]];
      if weekday == 0 {
        assert TodaysWorkout(0) == "Day 1";
      } else if weekday == 1 {
        assert TodaysWorkout(1) == "Day 2";
      } else if weekday == 2 {
        assert TodaysWorkout(2) == "Day 3";
      } else if weekday == 3 {
        assert TodaysWorkout(3) == "Day 4";
      } else {
        assert TodaysWorkout(4) == "Day 5";
      }
    } else {
      assert RestDay !in WorkoutSchedule;
    }
  }

  /** The exercises offered on a weekday, or None on a rest day. */
  function Routine(weekday: int): (r: Option<seq<string>>)
    requires 0 <= weekday <= 6
    ensures r.Some? <==> weekday < 5
    ensures r.Some? ==> |r.value| == 5 && r.value == WorkoutSchedule[DayLabels[weekday]]
  {
    var name := TodaysWorkout(weekday);
    if name == RestDay then None
    else
      TodaysWorkoutLabel(weekday);
      Some(WorkoutSchedule[name])
  }

  /** Monday gets the Day 1 list, Friday exactly the Day 5 list, and the
      weekend nothing. */
  lemma RoutineExamples()
    ensures Routine(0) == Some(["Bench Press", "Incline Dumbbell Press", "Lateral Raises", "Tricep Dips", "Cable Crunches"])
    ensures Routine(4) == Some(["Bench Press", "Pull-Ups", "Overhead Press", "Lunges", "Cable Woodchoppers"])
    ensures Routine(5) == None && Routine(6) == None
  {
    TodaysWorkoutLabel(0);
    TodaysWorkoutLabel(4);
  }

  /** No training day schedules the body-weight sentinel as an exercise. */
  lemma BodyWeightLogNotScheduled(weekday: int)
    requires 0 <= weekday < 5
    ensures BodyWeightLog !in Routine(weekday).value
  {
  }
}
