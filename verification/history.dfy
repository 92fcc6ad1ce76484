/** The body-weight history: the (Date, BodyWeight) columns with every row
    whose BodyWeight is blank dropped. */
module History {
  import opened Rows
  import Logging

  datatype Reading = Reading(date: string, bodyWeight: real)

  /** The readings of every row that has a body weight, in log order. The
      Date is never blank in rows the log is made of, so only BodyWeight
      decides which rows stay. */
  function WeightHistory(t: seq<Row>): (h: seq<Reading>)
    ensures |h| <= |t|
    ensures forall x :: x in t && x.bodyWeight.Some? ==> Reading(x.date, x.bodyWeight.value) in h
    ensures forall p :: p in h ==> exists x :: x in t && x.date == p.date && x.bodyWeight == Some(p.bodyWeight)
  {
    if |t| == 0 then []
    else
      var rest := WeightHistory(t[1..]);
      assert forall x :: x in t ==> x == t[0] || x in t[1..];
      match t[0].bodyWeight
      case Some(w) => [Reading(t[0].date, w)] + rest
      case None => rest
  }

  /** Appending rows appends their readings: order is kept and nothing else moves. */
  lemma {:induction false} WeightHistoryAppend(a: seq<Row>, b: seq<Row>)
    ensures WeightHistory(a + b) == WeightHistory(a) + WeightHistory(b)
  {
    if |a| == 0 {
      assert a + b == b;
    } else {
      assert (a + b)[1..] == a[1..] + b;
      assert (a + b)[0] == a[0];
      WeightHistoryAppend(a[1..], b);
    }
  }

  /** Rows without a body weight contribute no reading. */
  lemma {:induction false} NoReadings(t: seq<Row>)
    requires forall x :: x in t ==> x.bodyWeight.None?
    ensures WeightHistory(t) == []
  {
    if |t| > 0 {
      assert t[0] in t;
      assert forall x :: x in t[1..] ==> x in t;
      NoReadings(t[1..]);
    }
  }

  /** A body-weight logging adds exactly its reading, at the end. */
  lemma LogBodyWeightExtendsHistory(table: seq<Row>, date: string, weekday: int, bodyWeight: real)
    requires 0 <= weekday <= 6
    requires 0.0 <= bodyWeight <= 300.0
    ensures WeightHistory(Logging.LogBodyWeight(table, date, weekday, bodyWeight))
            == WeightHistory(table) + [Reading(date, bodyWeight)]
  {
    var x := Logging.BodyWeightRow(date, weekday, bodyWeight);
    WeightHistoryAppend(table, [x]);
    assert WeightHistory([x]) == [Reading(date, bodyWeight)] by {
      assert [x][1..] == [];
    }
  }

  /** An exercise logging leaves the body-weight history as it was. */
  lemma LogExerciseKeepsHistory(table: seq<Row>, added: seq<Row>, date: string, day: string,
                                exercise: string, reps: seq<int>, weights: seq<int>)
    requires Logging.LoggedSets(added, date, day, exercise, reps, weights)
    ensures WeightHistory(table + added) == WeightHistory(table)
  {
    WeightHistoryAppend(table, added);
    forall x | x in added ensures x.bodyWeight.None? {
      var i :| 0 <= i < |added| && added[i] == x;
    }
    NoReadings(added);
    assert table + [] == table;
  }
}
