/** The per-exercise targets and the score of a session against them. */
module Scoring {

  /** A target session: `sets` sets of `reps` repetitions at `weight` kg. */
  datatype Target = Target(sets: int, reps: int, weight: int)

  /** The target an exercise without an entry of its own is held to. */
  const DefaultTarget: Target := Target(4, 8, 60)

  const TargetValues: map<string, Target> := map[
    "Bench Press" := Target(4, 8, 60),
    "Incline Dumbbell Press" := Target(4, 10, 25),
    "Lateral Raises" := Target(3, 12, 10),
    "Tricep Dips" := Target(3, 10, 0),
    "Cable Crunches" := Target(3, 20, 30)
  ]

  /** The exercise's own target when it has one, the default otherwise. */
  function TargetFor(exercise: string): (t: Target)
    ensures exercise in TargetValues ==> t == TargetValues[exercise]
    ensures exercise !in TargetValues ==> t == DefaultTarget
  {
    if exercise in TargetValues then TargetValues[exercise] else DefaultTarget
  }

  /** The target's volume sets * reps * weight: the score's denominator. */
  function TargetScore(exercise: string): (v: int)
    ensures 0 <= v
    ensures v == 0 <==> exercise == "Tricep Dips"
  {
    var t := TargetFor(exercise);
    t.sets * t.reps * t.weight
  }

  /** The performed volume totalReps * avgWeight as a percentage of the
      target volume; 0 when the target volume is 0. Not clamped. */
  function Score(exercise: string, totalReps: int, avgWeight: real): (s: real)
    ensures TargetScore(exercise) == 0 ==> s == 0.0
    ensures TargetScore(exercise) != 0 ==>
      s * TargetScore(exercise) as real == totalReps as real * avgWeight * 100.0
    ensures s == 100.0 <==>
      TargetScore(exercise) != 0 && totalReps as real * avgWeight == TargetScore(exercise) as real
    ensures 0 <= totalReps && 0.0 <= avgWeight ==> 0.0 <= s
  {
    var ts := TargetScore(exercise);
    if ts == 0 then 0.0
    else
      var volume := totalReps as real * avgWeight;
      ScaleFacts(volume, ts as real);
      volume / ts as real * 100.0
  }

  /** Division by a positive denominator, scaled by 100, undone by multiplying back. */
  lemma ScaleFacts(volume: real, denominator: real)
    requires 0.0 < denominator
    ensures (volume / denominator * 100.0) * denominator == volume * 100.0
    ensures volume / denominator * 100.0 == 100.0 <==> volume == denominator
    ensures 0.0 <= volume ==> 0.0 <= volume / denominator * 100.0
  {
    var q := volume / denominator;
    assert q * denominator == volume;
    if q * 100.0 == 100.0 {
      assert q == 1.0;
    }
  }

  /** An exercise without a target entry is scored against 4 x 8 x 60 = 1920. */
  lemma UnknownExerciseUsesDefault(exercise: string, totalReps: int, avgWeight: real)
    requires exercise !in TargetValues
    ensures TargetScore(exercise) == 1920
    ensures Score(exercise, totalReps, avgWeight) * 1920.0 == totalReps as real * avgWeight * 100.0
  {
  }

  /** A target with zero weight makes every score 0, whatever was done. */
  lemma ZeroTargetScoresZero(totalReps: int, avgWeight: real)
    ensures Score("Tricep Dips", totalReps, avgWeight) == 0.0
  {
  }

  /** Meeting the Bench Press target exactly scores 100; doubling it scores
      200, so the score is not capped. */
  lemma BenchPressExamples()
    ensures Score("Bench Press", 32, 60.0) == 100.0
    ensures Score("Bench Press", 64, 60.0) == 200.0
  {
  }
}
