/** The workout log: one flat table of rows with the columns
    Date, Day, Exercise, Sets, Reps, Weight and BodyWeight. */
module Rows {
  import StringOrder

  /** A cell that may be blank (NaN after a concat or a CSV read). */
  datatype Option<T> = None | Some(value: T)

  /** One row of the log. `sets` is the 1-based index of the set within its
      logging, `weight` the kilograms lifted in that set; `bodyWeight` is
      present only on body-weight readings. */
  datatype Row = Row(
    date: string,
    day: string,
    exercise: string,
    sets: int,
    reps: int,
    weight: int,
    bodyWeight: Option<real>)

  /** The exercise name under which body-weight readings are logged. */
  const BodyWeightLog: string := "Body Weight Log"

  /** The (Date, Exercise) pair the progress view groups by. */
  datatype Key = Key(date: string, exercise: string)

  function KeyOf(x: Row): Key
  {
    Key(x.date, x.exercise)
  }

  /** The tuple order `groupby` sorts its keys in: Date first, then Exercise. */
  predicate KeyLess(a: Key, b: Key)
  {
    StringOrder.Less(a.date, b.date)
    || (a.date == b.date && StringOrder.Less(a.exercise, b.exercise))
  }

  /** A key list sorted strictly ascending, hence free of duplicates. */
  predicate StrictlySorted(ks: seq<Key>)
  {
    forall i, j :: 0 <= i < j < |ks| ==> KeyLess(ks[i], ks[j])
  }

  lemma KeyLessIrreflexive(a: Key)
    ensures !KeyLess(a, a)
  {
  }

  lemma KeyLessTransitive(a: Key, b: Key, c: Key)
    requires KeyLess(a, b) && KeyLess(b, c)
    ensures KeyLess(a, c)
  {
    if StringOrder.Less(a.date, b.date) && StringOrder.Less(b.date, c.date) {
      StringOrder.LessTransitive(a.date, b.date, c.date);
    } else if a.date == b.date && b.date == c.date {
      StringOrder.LessTransitive(a.exercise, b.exercise, c.exercise);
    }
  }

  lemma KeyLessTotal(a: Key, b: Key)
    ensures a == b || KeyLess(a, b) || KeyLess(b, a)
  {
    StringOrder.LessTrichotomy(a.date, b.date);
    StringOrder.LessTrichotomy(a.exercise, b.exercise);
  }

  /** The Reps column of some rows. */
  function Reps(rows: seq<Row>): seq<int>
  {
    seq(|rows|, i requires 0 <= i < |rows| => rows[i].reps)
  }

  /** The Weight column of some rows. */
  function Weights(rows: seq<Row>): seq<int>
  {
    seq(|rows|, i requires 0 <= i < |rows| => rows[i].weight)
  }

  /** The Sets column of some rows. */
  function SetIndexes(rows: seq<Row>): seq<int>
  {
    seq(|rows|, i requires 0 <= i < |rows| => rows[i].sets)
  }

  /** Every row respects the input widgets' lower bounds. */
  predicate NonNegative(t: seq<Row>)
  {
    forall x :: x in t ==> 0 <= x.sets && 0 <= x.reps && 0 <= x.weight
  }
}
