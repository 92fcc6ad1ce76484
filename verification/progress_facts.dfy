/** Properties of the progress view: every row lands in exactly one group,
    single-row groups, the body-weight sentinel's group, score signs, and a
    worked example. */
module ProgressFacts {
  import opened Rows
  import opened Seqs
  import opened Progress
  import Scoring
  import Logging

  predicate Distinct(ks: seq<Key>)
  {
    forall i, j :: 0 <= i < j < |ks| ==> ks[i] != ks[j]
  }

  /** The group totals added up over a list of keys. */
  function SumOfTotals(t: seq<Row>, ks: seq<Key>): int
  {
    if |ks| == 0 then 0 else TotalReps(t, ks[0]) + SumOfTotals(t, ks[1..])
  }

  /** `v` once for every occurrence of `k` in `ks`. */
  function Hits(ks: seq<Key>, k: Key, v: int): int
  {
    if |ks| == 0 then 0 else (if ks[0] == k then v else 0) + Hits(ks[1..], k, v)
  }

  lemma {:induction false} HitsAbsent(ks: seq<Key>, k: Key, v: int)
    requires k !in ks
    ensures Hits(ks, k, v) == 0
  {
    if |ks| > 0 {
      HitsAbsent(ks[1..], k, v);
    }
  }

  lemma {:induction false} HitsOnce(ks: seq<Key>, k: Key, v: int)
    requires Distinct(ks) && k in ks
    ensures Hits(ks, k, v) == v
  {
    var tail := ks[1..];
    assert Distinct(tail) by {
      forall i, j | 0 <= i < j < |tail| ensures tail[i] != tail[j] {
        assert tail[i] == ks[i + 1] && tail[j] == ks[j + 1];
      }
    }
    if ks[0] == k {
      HitsAbsent(tail, k, v);
    } else {
      HitsOnce(tail, k, v);
    }
  }

  /** Splitting off the first row: it adds its reps to its own group only. */
  lemma TotalRepsStep(t: seq<Row>, k: Key)
    requires |t| > 0
    ensures TotalReps(t, k) == (if KeyOf(t[0]) == k then t[0].reps else 0) + TotalReps(t[1..], k)
  {
    var rest := GroupRows(t[1..], k);
    if KeyOf(t[0]) == k {
      assert GroupRows(t, k) == [t[0]] + rest;
      assert Reps([t[0]] + rest) == [t[0].reps] + Reps(rest);
      assert ([t[0].reps] + Reps(rest))[1..] == Reps(rest);
    } else {
      assert GroupRows(t, k) == rest;
    }
  }

  lemma {:induction false} SumOfTotalsStep(t: seq<Row>, ks: seq<Key>)
    requires |t| > 0
    ensures SumOfTotals(t, ks) == Hits(ks, KeyOf(t[0]), t[0].reps) + SumOfTotals(t[1..], ks)
  {
    if |ks| > 0 {
      TotalRepsStep(t, ks[0]);
      SumOfTotalsStep(t, ks[1..]);
    }
  }

  lemma {:induction false} SumOfTotalsEmpty(ks: seq<Key>)
    ensures SumOfTotals([], ks) == 0
  {
    if |ks| > 0 {
      SumOfTotalsEmpty(ks[1..]);
    }
  }

  /** Over a duplicate-free key list covering every row, the group totals
      add up to the table's total reps: each row is counted in exactly one
      group. */
  lemma {:induction false} RepsPartition(t: seq<Row>, ks: seq<Key>)
    requires Distinct(ks)
    requires forall x :: x in t ==> KeyOf(x) in ks
    ensures SumOfTotals(t, ks) == SumInt(Reps(t))
  {
    if |t| == 0 {
      SumOfTotalsEmpty(ks);
      assert t == [];
    } else {
      assert t[0] in t;
      assert forall x :: x in t[1..] ==> x in t;
      RepsPartition(t[1..], ks);
      SumOfTotalsStep(t, ks);
      HitsOnce(ks, KeyOf(t[0]), t[0].reps);
      SumRepsStep(t);
    }
  }

  lemma SumRepsStep(t: seq<Row>)
    requires |t| > 0
    ensures SumInt(Reps(t)) == t[0].reps + SumInt(Reps(t[1..]))
  {
    assert Reps(t)[1..] == Reps(t[1..]);
  }

  /** The Total Reps of the progress table's groups add up to all reps logged. */
  lemma TotalRepsPartition(t: seq<Row>)
    ensures SumOfTotals(t, EntryKeys(ProgressTable(t))) == SumInt(Reps(t))
  {
    var ks := EntryKeys(ProgressTable(t));
    assert Distinct(ks) by {
      forall i, j | 0 <= i < j < |ks| ensures ks[i] != ks[j] {
        KeyLessIrreflexive(ks[i]);
      }
    }
    assert forall x :: x in t ==> KeyOf(x) in ks;
    RepsPartition(t, ks);
  }

  lemma LoneRowGroup(before: seq<Row>, x: Row, after: seq<Row>)
    requires forall y :: y in before + after ==> KeyOf(y) != KeyOf(x)
    ensures GroupRows(before + [x] + after, KeyOf(x)) == [x]
  {
    var p := (y: Row) => KeyOf(y) == KeyOf(x);
    FilterAppend(before + [x], after, p);
    FilterAppend(before, [x], p);
    FilterNone(before, p);
    FilterNone(after, p);
    assert Filter([x], p) == [x];
  }

  /** A row alone under its key: Total Reps is its reps, Avg Weight its
      weight, and the group score that of the row by itself. */
  lemma SingleRowGroup(before: seq<Row>, x: Row, after: seq<Row>)
    requires forall y :: y in before + after ==> KeyOf(y) != KeyOf(x)
    ensures |GroupRows(before + [x] + after, KeyOf(x))| > 0
    ensures TotalReps(before + [x] + after, KeyOf(x)) == x.reps
    ensures AvgWeight(before + [x] + after, KeyOf(x)) == x.weight as real
    ensures GroupScore(before + [x] + after, KeyOf(x)) == Scoring.Score(x.exercise, x.reps, x.weight as real)
  {
    LoneRowGroup(before, x, after);
    assert Reps([x]) == [x.reps];
    assert Weights([x]) == [x.weight];
    assert SumInt([x.reps]) == x.reps + SumInt([]);
    assert SumInt([x.weight]) == x.weight + SumInt([]);
  }

  /** Rows appended under a key the table did not have form that key's group alone. */
  lemma AppendedGroup(t: seq<Row>, added: seq<Row>, k: Key)
    requires forall x :: x in t ==> KeyOf(x) != k
    requires forall x :: x in added ==> KeyOf(x) == k
    ensures GroupRows(t + added, k) == added
  {
    var p := (y: Row) => KeyOf(y) == k;
    FilterAppend(t, added, p);
    FilterNone(t, p);
    FilterAll(added, p);
  }

  /** Logging an exercise on a date it has no rows for yet creates a group
      of exactly those sets: its score is that of the reps entered in total
      and the mean of the weights entered. */
  lemma LoggedGroupScore(t: seq<Row>, added: seq<Row>, date: string, day: string,
                         exercise: string, reps: seq<int>, weights: seq<int>)
    requires Logging.LoggedSets(added, date, day, exercise, reps, weights)
    requires |reps| > 0
    requires forall x :: x in t ==> KeyOf(x) != Key(date, exercise)
    ensures |GroupRows(t + added, Key(date, exercise))| > 0
    ensures TotalReps(t + added, Key(date, exercise)) == SumInt(reps)
    ensures GroupScore(t + added, Key(date, exercise))
            == Scoring.Score(exercise, SumInt(reps), MeanInt(weights))
  {
    var k := Key(date, exercise);
    forall x | x in added ensures KeyOf(x) == k {
      var i :| 0 <= i < |added| && added[i] == x;
    }
    AppendedGroup(t, added, k);
    assert Reps(added) == reps;
    assert Weights(added) == weights;
  }

  /** Every body-weight reading has zero reps. */
  predicate ReadingsHaveNoReps(t: seq<Row>)
  {
    forall x :: x in t && x.exercise == BodyWeightLog ==> x.reps == 0
  }

  /** Both ways of logging keep readings free of reps. */
  lemma LoggingKeepsReadingsRepFree(t: seq<Row>, date: string, weekday: int, bodyWeight: real,
                                    added: seq<Row>, day: string, exercise: string,
                                    reps: seq<int>, weights: seq<int>)
    requires ReadingsHaveNoReps(t)
    requires 0 <= weekday <= 6 && 0.0 <= bodyWeight <= 300.0
    requires Logging.LoggedSets(added, date, day, exercise, reps, weights)
    requires exercise != BodyWeightLog
    ensures ReadingsHaveNoReps(Logging.LogBodyWeight(t, date, weekday, bodyWeight))
    ensures ReadingsHaveNoReps(t + added)
  {
    forall x | x in added ensures x.exercise != BodyWeightLog {
      var i :| 0 <= i < |added| && added[i] == x;
    }
  }

  /** The sentinel's group scores 0 when readings carry no reps. */
  lemma ReadingGroupScoresZero(t: seq<Row>, k: Key)
    requires ReadingsHaveNoReps(t)
    requires k.exercise == BodyWeightLog && |GroupRows(t, k)| > 0
    ensures GroupScore(t, k) == 0.0
  {
    var g := GroupRows(t, k);
    forall v | v in Reps(g) ensures v == 0 {
      var i :| 0 <= i < |g| && Reps(g)[i] == v;
      assert g[i] in g;
    }
    SumIntZero(Reps(g));
    Scoring.UnknownExerciseUsesDefault(BodyWeightLog, 0, AvgWeight(t, k));
  }

  /** The code groups body-weight readings too: they show up in the progress
      table under the sentinel exercise, always with score 0, since they carry
      no reps and the sentinel is scored against the default target. */
  lemma BodyWeightLogScoresZero(t: seq<Row>)
    requires ReadingsHaveNoReps(t)
    ensures forall e :: e in ProgressTable(t) && e.exercise == BodyWeightLog ==> e.score == 0.0
  {
    forall e | e in ProgressTable(t) && e.exercise == BodyWeightLog
      ensures e.score == 0.0
    {
      ReadingGroupScoresZero(t, EntryKey(e));
    }
  }

  /** Under the widgets' bounds no score is negative. */
  lemma ScoresNonNegative(t: seq<Row>)
    requires NonNegative(t)
    ensures forall e :: e in ProgressTable(t) ==> 0.0 <= e.score
  {
    forall e | e in ProgressTable(t) ensures 0.0 <= e.score {
      var g := GroupRows(t, EntryKey(e));
      forall v | v in Reps(g) ensures 0 <= v {
        var i :| 0 <= i < |g| && Reps(g)[i] == v;
        assert g[i] in g;
      }
      forall v | v in Weights(g) ensures 0 <= v {
        var i :| 0 <= i < |g| && Weights(g)[i] == v;
        assert g[i] in g;
      }
      SumIntNonNegative(Reps(g));
      MeanIntNonNegative(Weights(g));
    }
  }

  /** Two sets of 5 Squats at 100 kg on one date: one group with Total Reps
      10 and Avg Weight 100, and one line in the progress table. */
  lemma SquatExample()
    ensures var t := [Row("2024-01-01", "Day 3", "Squat", 1, 5, 100, None),
                      Row("2024-01-01", "Day 3", "Squat", 2, 5, 100, None)];
            && TotalReps(t, Key("2024-01-01", "Squat")) == 10
            && |GroupRows(t, Key("2024-01-01", "Squat"))| > 0
            && AvgWeight(t, Key("2024-01-01", "Squat")) == 100.0
            && |ProgressTable(t)| == 1
  {
    var t := [Row("2024-01-01", "Day 3", "Squat", 1, 5, 100, None),
              Row("2024-01-01", "Day 3", "Squat", 2, 5, 100, None)];
    var k := Key("2024-01-01", "Squat");
    FilterAll(t, (y: Row) => KeyOf(y) == k);
    assert GroupRows(t, k) == t;
    assert Reps(t) == [5, 5];
    assert Weights(t) == [100, 100];
    assert forall x :: x in t ==> KeyOf(x) == k;
    assert EntryKeys(ProgressTable(t)) == [k] by {
      var ks := EntryKeys(ProgressTable(t));
      assert k in ks by {
        assert t[0] in t;
      }
    }
  }
}
