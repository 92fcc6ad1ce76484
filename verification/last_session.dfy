/** The "Last time" summary shown beside each exercise of the day: the rows of
    the exercise on its latest logged date, reduced to the largest set index
    and the truncated mean reps and weight. */
module LastSession {
  import opened Rows
  import opened Seqs
  import StringOrder
  import Logging

  datatype Summary = Summary(totalSets: int, avgReps: int, avgWeight: int)

  /** The rows logged under `exercise`. */
  function ExerciseRows(t: seq<Row>, exercise: string): seq<Row>
  {
    Filter(t, (x: Row) => x.exercise == exercise)
  }

  /** The rows dated `date`. */
  function RowsOn(rows: seq<Row>, date: string): seq<Row>
  {
    Filter(rows, (x: Row) => x.date == date)
  }

  /** The largest Date among some rows, in string order. */
  function LatestDate(rows: seq<Row>): (d: string)
    requires |rows| > 0
    ensures exists x :: x in rows && x.date == d
    ensures forall x :: x in rows ==> StringOrder.LessEq(x.date, d)
  {
    if |rows| == 1 then
      StringOrder.LessEqReflexive(rows[0].date);
      rows[0].date
    else
      var rest := LatestDate(rows[1..]);
      LatestDateStep(rows, rest);
      if StringOrder.LessEq(rows[0].date, rest) then rest else rows[0].date
  }

  lemma LatestDateStep(rows: seq<Row>, rest: string)
    requires |rows| > 1
    requires forall x :: x in rows[1..] ==> StringOrder.LessEq(x.date, rest)
    ensures forall x :: x in rows ==>
      StringOrder.LessEq(x.date, if StringOrder.LessEq(rows[0].date, rest) then rest else rows[0].date)
  {
    var first := rows[0].date;
    StringOrder.LessEqReflexive(first);
    StringOrder.LessEqTotal(first, rest);
    forall x | x in rows
      ensures StringOrder.LessEq(x.date, if StringOrder.LessEq(first, rest) then rest else first)
    {
      if x != rows[0] {
        assert x in rows[1..];
        if !StringOrder.LessEq(first, rest) {
          StringOrder.LessEqTransitive(x.date, rest, first);
        }
      }
    }
  }

  /** The latest date the exercise was logged on. */
  function LastDate(t: seq<Row>, exercise: string): (d: string)
    requires exists x :: x in t && x.exercise == exercise
    ensures exists x :: x in t && x.exercise == exercise && x.date == d
    ensures forall x :: x in t && x.exercise == exercise ==> StringOrder.LessEq(x.date, d)
  {
    var x :| x in t && x.exercise == exercise;
    assert x in ExerciseRows(t, exercise);
    LatestDate(ExerciseRows(t, exercise))
  }

  /** The rows of the exercise's most recent session. */
  function SessionRows(t: seq<Row>, exercise: string): (s: seq<Row>)
    requires exists x :: x in t && x.exercise == exercise
    ensures |s| > 0
    ensures forall x :: x in s <==> x in t && x.exercise == exercise && x.date == LastDate(t, exercise)
  {
    var d := LastDate(t, exercise);
    SessionMembership(t, exercise, d);
    RowsOn(ExerciseRows(t, exercise), d)
  }

  lemma SessionMembership(t: seq<Row>, exercise: string, d: string)
    requires exists x :: x in t && x.exercise == exercise && x.date == d
    ensures |RowsOn(ExerciseRows(t, exercise), d)| > 0
    ensures forall x :: x in RowsOn(ExerciseRows(t, exercise), d) <==> x in t && x.exercise == exercise && x.date == d
  {
    var w :| w in t && w.exercise == exercise && w.date == d;
    assert w in ExerciseRows(t, exercise);
    assert w in RowsOn(ExerciseRows(t, exercise), d);
  }

  /** Under the widgets' bounds the session means are not negative. */
  lemma SessionMeansNonNegative(t: seq<Row>, exercise: string)
    requires exists x :: x in t && x.exercise == exercise
    ensures NonNegative(t) ==>
      0.0 <= MeanInt(Reps(SessionRows(t, exercise))) && 0.0 <= MeanInt(Weights(SessionRows(t, exercise)))
  {
    var s := SessionRows(t, exercise);
    if NonNegative(t) {
      forall v | v in Reps(s) ensures 0 <= v {
        var i :| 0 <= i < |Reps(s)| && Reps(s)[i] == v;
        assert s[i] in s;
      }
      forall v | v in Weights(s) ensures 0 <= v {
        var i :| 0 <= i < |Weights(s)| && Weights(s)[i] == v;
        assert s[i] in s;
      }
      MeanIntNonNegative(Reps(s));
      MeanIntNonNegative(Weights(s));
    }
  }

  /** The largest set index of a session is one of its rows' and bounds them all. */
  lemma MaxSetsOfSession(s: seq<Row>)
    requires |s| > 0
    ensures forall x :: x in s ==> x.sets <= MaxInt(SetIndexes(s))
    ensures exists x :: x in s && x.sets == MaxInt(SetIndexes(s))
  {
    var sets := MaxInt(SetIndexes(s));
    var i :| 0 <= i < |SetIndexes(s)| && SetIndexes(s)[i] == sets;
    assert s[i] in s;
    forall x | x in s ensures x.sets <= sets {
      var j :| 0 <= j < |s| && s[j] == x;
      assert SetIndexes(s)[j] in SetIndexes(s);
    }
  }

  /** The summary of the exercise's latest session, or None when it was never logged. */
  function LastSession(t: seq<Row>, exercise: string): (r: Option<Summary>)
    ensures r.None? <==> forall x :: x in t ==> x.exercise != exercise
    ensures r.Some? ==>
      && (exists x :: x in t && x.exercise == exercise)
      && (forall x :: x in SessionRows(t, exercise) ==> x.sets <= r.value.totalSets)
      && (exists x :: x in SessionRows(t, exercise) && x.sets == r.value.totalSets)
    ensures r.Some? && NonNegative(t) ==>
      && 0 <= r.value.avgReps
      && r.value.avgReps as real <= MeanInt(Reps(SessionRows(t, exercise))) < r.value.avgReps as real + 1.0
      && 0 <= r.value.avgWeight
      && r.value.avgWeight as real <= MeanInt(Weights(SessionRows(t, exercise))) < r.value.avgWeight as real + 1.0
  {
    var rows := ExerciseRows(t, exercise);
    if |rows| == 0 then
      None
    else
      assert rows[0] in rows;
      var s := SessionRows(t, exercise);
      SessionMeansNonNegative(t, exercise);
      MaxSetsOfSession(s);
      Some(Summary(MaxInt(SetIndexes(s)), Trunc(MeanInt(Reps(s))), Trunc(MeanInt(Weights(s)))))
  }

  /** Logging adds nothing to the other exercises' histories, so their
      summaries stay as they were. */
  lemma OtherExerciseUnchanged(t: seq<Row>, added: seq<Row>, exercise: string)
    requires forall x :: x in added ==> x.exercise != exercise
    ensures LastSession(t + added, exercise) == LastSession(t, exercise)
  {
    FilterAppend(t, added, (x: Row) => x.exercise == exercise);
    FilterNone(added, (x: Row) => x.exercise == exercise);
    assert ExerciseRows(t + added, exercise) == ExerciseRows(t, exercise);
  }

  /** Every row of one logging carries the logged exercise and date. */
  lemma LoggedRowsShareKey(added: seq<Row>, date: string, day: string,
                           exercise: string, reps: seq<int>, weights: seq<int>)
    requires Logging.LoggedSets(added, date, day, exercise, reps, weights)
    ensures forall x :: x in added ==> x.exercise == exercise && x.date == date
  {
    forall x | x in added ensures x.exercise == exercise && x.date == date {
      var i :| 0 <= i < |added| && added[i] == x;
    }
  }

  /** The columns of one logging are the inputs it was given, set indexes 1..n. */
  lemma LoggedRowsColumns(added: seq<Row>, date: string, day: string,
                          exercise: string, reps: seq<int>, weights: seq<int>)
    requires Logging.LoggedSets(added, date, day, exercise, reps, weights)
    requires |reps| > 0
    ensures MaxInt(SetIndexes(added)) == |reps|
    ensures Reps(added) == reps && Weights(added) == weights
  {
    var sets := SetIndexes(added);
    assert sets[|added| - 1] == |reps|;
    assert |reps| in sets;
    assert forall v :: v in sets ==> v <= |reps| by {
      forall v | v in sets ensures v <= |reps| {
        var i :| 0 <= i < |sets| && sets[i] == v;
      }
    }
    var m := MaxInt(sets);
    assert m <= |reps| && |reps| <= m;
    assert Reps(added) == reps;
    assert Weights(added) == weights;
  }

  /** Rows of the exercise appended under one date: the exercise's rows are
      its earlier rows followed by them. */
  lemma AppendedExerciseRows(t: seq<Row>, added: seq<Row>, date: string, exercise: string)
    requires forall x :: x in added ==> x.exercise == exercise && x.date == date
    ensures ExerciseRows(t + added, exercise) == ExerciseRows(t, exercise) + added
  {
    FilterAppend(t, added, (x: Row) => x.exercise == exercise);
    FilterAll(added, (x: Row) => x.exercise == exercise);
  }

  /** Rows appended under a date later than all the exercise's earlier dates
      make that date the exercise's latest. */
  lemma AppendedDateIsLast(t: seq<Row>, added: seq<Row>, date: string, exercise: string)
    requires |added| > 0
    requires forall x :: x in added ==> x.exercise == exercise && x.date == date
    requires forall x :: x in t && x.exercise == exercise ==> StringOrder.Less(x.date, date)
    ensures exists x :: x in t + added && x.exercise == exercise
    ensures LastDate(t + added, exercise) == date
  {
    var t' := t + added;
    assert added[0] in t';
    var d := LastDate(t', exercise);
    assert StringOrder.LessEq(date, d);
    var w :| w in t' && w.exercise == exercise && w.date == d;
    if w in t {
      StringOrder.LessAsymmetric(w.date, date);
    } else {
      assert w in added;
    }
  }

  /** ... and makes its latest session exactly those rows. */
  lemma AppendedSessionIsLast(t: seq<Row>, added: seq<Row>, date: string, exercise: string)
    requires |added| > 0
    requires forall x :: x in added ==> x.exercise == exercise && x.date == date
    requires forall x :: x in t && x.exercise == exercise ==> StringOrder.Less(x.date, date)
    ensures exists x :: x in t + added && x.exercise == exercise
    ensures SessionRows(t + added, exercise) == added
  {
    AppendedDateIsLast(t, added, date, exercise);
    AppendedExerciseRows(t, added, date, exercise);
    var earlier := ExerciseRows(t, exercise);
    FilterAppend(earlier, added, (x: Row) => x.date == date);
    FilterNone(earlier, (x: Row) => x.date == date);
    FilterAll(added, (x: Row) => x.date == date);
    assert RowsOn(earlier + added, date) == added;
  }

  /** After logging an exercise on a date later than all its earlier dates,
      the summary reports exactly that logging: its number of sets and the
      truncated means of the reps and weights entered. */
  lemma LoggedSessionIsLast(t: seq<Row>, added: seq<Row>, date: string, day: string,
                            exercise: string, reps: seq<int>, weights: seq<int>)
    requires Logging.LoggedSets(added, date, day, exercise, reps, weights)
    requires |reps| > 0
    requires forall x :: x in t && x.exercise == exercise ==> StringOrder.Less(x.date, date)
    ensures LastSession(t + added, exercise)
            == Some(Summary(|reps|, Trunc(MeanInt(reps)), Trunc(MeanInt(weights))))
  {
    LoggedRowsShareKey(added, date, day, exercise, reps, weights);
    AppendedSessionIsLast(t, added, date, exercise);
    LoggedRowsColumns(added, date, day, exercise, reps, weights);
    assert added[0] in ExerciseRows(t + added, exercise);
  }
}
