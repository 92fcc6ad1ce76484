/** The progress view: every row gets the Total Reps and Avg Weight of its
    (Date, Exercise) group and the Score those earn; the progress table then
    holds one mean Score per group, in `groupby`'s sorted key order. All rows
    are grouped, body-weight readings included. */
module Progress {
  import opened Rows
  import opened Seqs
  import Scoring
  import StringOrder

  /** The rows sharing the key `k`: one group of the `groupby`. */
  function GroupRows(t: seq<Row>, k: Key): seq<Row>
  {
    Filter(t, (x: Row) => KeyOf(x) == k)
  }

  /** Sum of Reps over the group. */
  function TotalReps(t: seq<Row>, k: Key): int
  {
    SumInt(Reps(GroupRows(t, k)))
  }

  /** Mean of Weight over the group. */
  function AvgWeight(t: seq<Row>, k: Key): real
    requires |GroupRows(t, k)| > 0
  {
    MeanInt(Weights(GroupRows(t, k)))
  }

  /** The score the group's totals earn. */
  function GroupScore(t: seq<Row>, k: Key): real
    requires |GroupRows(t, k)| > 0
  {
    Scoring.Score(k.exercise, TotalReps(t, k), AvgWeight(t, k))
  }

  /** A row of the table with the three derived columns. */
  datatype ScoredRow = ScoredRow(row: Row, totalReps: int, avgWeight: real, score: real)

  function ScoredRowOf(t: seq<Row>, x: Row): ScoredRow
    requires x in t
  {
    var k := KeyOf(x);
    assert x in GroupRows(t, k);
    ScoredRow(x, TotalReps(t, k), AvgWeight(t, k), Scoring.Score(x.exercise, TotalReps(t, k), AvgWeight(t, k)))
  }

  /** Adds the Total Reps, Avg Weight and Score columns to every row. */
  function ScoreRows(t: seq<Row>): (s: seq<ScoredRow>)
    ensures |s| == |t|
    ensures forall i :: 0 <= i < |t| ==> s[i].row == t[i]
    ensures forall i, j :: 0 <= i < |t| && 0 <= j < |t| && KeyOf(t[i]) == KeyOf(t[j]) ==>
      s[i].totalReps == s[j].totalReps && s[i].avgWeight == s[j].avgWeight && s[i].score == s[j].score
    ensures forall i :: 0 <= i < |t| ==>
      && |GroupRows(t, KeyOf(t[i]))| > 0
      && s[i].totalReps == TotalReps(t, KeyOf(t[i]))
      && s[i].avgWeight == AvgWeight(t, KeyOf(t[i]))
      && s[i].score == GroupScore(t, KeyOf(t[i]))
  {
    assert forall i :: 0 <= i < |t| ==> t[i] in GroupRows(t, KeyOf(t[i]));
    seq(|t|, i requires 0 <= i < |t| => ScoredRowOf(t, t[i]))
  }

  /** The Score column of some scored rows. */
  function Scores(ss: seq<ScoredRow>): seq<real>
  {
    seq(|ss|, i requires 0 <= i < |ss| => ss[i].score)
  }

  /** The scored rows of group `k`. */
  function ScoredGroup(t: seq<Row>, k: Key): seq<ScoredRow>
  {
    Filter(ScoreRows(t), (s: ScoredRow) => KeyOf(s.row) == k)
  }

  lemma ScoredGroupFacts(t: seq<Row>, k: Key)
    requires |GroupRows(t, k)| > 0
    ensures |Scores(ScoredGroup(t, k))| > 0
    ensures forall v :: v in Scores(ScoredGroup(t, k)) ==> v == GroupScore(t, k)
  {
    var all := ScoreRows(t);
    var g := ScoredGroup(t, k);
    var x := GroupRows(t, k)[0];
    assert x in GroupRows(t, k);
    var i :| 0 <= i < |t| && t[i] == x;
    assert all[i] in g;
    forall v | v in Scores(g) ensures v == GroupScore(t, k) {
      var j :| 0 <= j < |g| && Scores(g)[j] == v;
      assert g[j] in g;
      var m :| 0 <= m < |all| && all[m] == g[j];
    }
  }

  /** The mean Score of a group. Every row of the group carries the same
      score, so the mean is the score of the group's totals. */
  function MeanScore(t: seq<Row>, k: Key): (m: real)
    requires |GroupRows(t, k)| > 0
    ensures m == GroupScore(t, k)
  {
    ScoredGroupFacts(t, k);
    MeanRealConstant(Scores(ScoredGroup(t, k)), GroupScore(t, k));
    MeanReal(Scores(ScoredGroup(t, k)))
  }

  /** Sorted-key insertion, skipping a key already present. */
  function Insert(ks: seq<Key>, k: Key): (r: seq<Key>)
    requires StrictlySorted(ks)
    ensures StrictlySorted(r)
    ensures forall y :: y in r <==> y in ks || y == k
  {
    if |ks| == 0 then [k]
    else if k == ks[0] then ks
    else if KeyLess(k, ks[0]) then
      PrependSorted(k, ks);
      [k] + ks
    else
      KeyLessTotal(k, ks[0]);
      TailSorted(ks);
      var rest := Insert(ks[1..], k);
      assert forall y :: y in ks[1..] ==> KeyLess(ks[0], y) by {
        forall y | y in ks[1..] ensures KeyLess(ks[0], y) {
          var j :| 0 <= j < |ks[1..]| && ks[1..][j] == y;
          assert ks[j + 1] == y;
        }
      }
      ConsSorted(ks[0], rest);
      assert forall y :: y in ks ==> y == ks[0] || y in ks[1..];
      [ks[0]] + rest
  }

  lemma TailSorted(ks: seq<Key>)
    requires |ks| > 0 && StrictlySorted(ks)
    ensures StrictlySorted(ks[1..])
  {
    forall i, j | 0 <= i < j < |ks[1..]| ensures KeyLess(ks[1..][i], ks[1..][j]) {
      assert ks[1..][i] == ks[i + 1] && ks[1..][j] == ks[j + 1];
    }
  }

  lemma ConsSorted(h: Key, rest: seq<Key>)
    requires StrictlySorted(rest)
    requires forall y :: y in rest ==> KeyLess(h, y)
    ensures StrictlySorted([h] + rest)
  {
    var r := [h] + rest;
    forall i, j | 0 <= i < j < |r| ensures KeyLess(r[i], r[j]) {
      assert r[j] == rest[j - 1];
      if 0 < i {
        assert r[i] == rest[i - 1];
      }
    }
  }

  lemma PrependSorted(k: Key, ks: seq<Key>)
    requires StrictlySorted(ks) && |ks| > 0 && KeyLess(k, ks[0])
    ensures StrictlySorted([k] + ks)
  {
    forall y | y in ks ensures KeyLess(k, y) {
      var j :| 0 <= j < |ks| && ks[j] == y;
      if 0 < j {
        KeyLessTransitive(k, ks[0], y);
      }
    }
    ConsSorted(k, ks);
  }

  /** The distinct (Date, Exercise) keys of the table, sorted as `groupby` sorts them. */
  function SortedKeys(t: seq<Row>): (ks: seq<Key>)
    ensures StrictlySorted(ks)
    ensures forall k :: k in ks <==> exists x :: x in t && KeyOf(x) == k
  {
    if |t| == 0 then []
    else
      assert forall x :: x in t <==> x == t[0] || x in t[1..];
      Insert(SortedKeys(t[1..]), KeyOf(t[0]))
  }

  /** One line of the progress table. */
  datatype Entry = Entry(date: string, exercise: string, score: real)

  function EntryKey(e: Entry): Key
  {
    Key(e.date, e.exercise)
  }

  /** The key column of a progress table. */
  function EntryKeys(p: seq<Entry>): seq<Key>
  {
    seq(|p|, i requires 0 <= i < |p| => EntryKey(p[i]))
  }

  lemma KeyedGroupsNonEmpty(t: seq<Row>)
    ensures forall k :: k in SortedKeys(t) ==> |GroupRows(t, k)| > 0
  {
    forall k | k in SortedKeys(t) ensures |GroupRows(t, k)| > 0 {
      var x :| x in t && KeyOf(x) == k;
      assert x in GroupRows(t, k);
    }
  }

  /** One entry per key, in the keys' order, holding the group's mean score. */
  function Entries(t: seq<Row>, ks: seq<Key>): (p: seq<Entry>)
    requires forall k :: k in ks ==> |GroupRows(t, k)| > 0
    ensures EntryKeys(p) == ks
    ensures forall e :: e in p ==> |GroupRows(t, EntryKey(e))| > 0 && e.score == GroupScore(t, EntryKey(e))
  {
    var p := seq(|ks|, j requires 0 <= j < |ks| => Entry(ks[j].date, ks[j].exercise, MeanScore(t, ks[j])));
    assert EntryKeys(p) == ks;
    p
  }

  /** The progress table: exactly one entry per distinct (Date, Exercise)
      pair of the log, in ascending key order, each holding the score of
      its group's totals. An empty log gives an empty table. */
  function ProgressTable(t: seq<Row>): (p: seq<Entry>)
    ensures |t| == 0 ==> p == []
    ensures StrictlySorted(EntryKeys(p))
    ensures forall k :: k in EntryKeys(p) <==> exists x :: x in t && KeyOf(x) == k
    ensures forall e :: e in p ==> |GroupRows(t, EntryKey(e))| > 0 && e.score == GroupScore(t, EntryKey(e))
  {
    if |t| == 0 then []
    else
      KeyedGroupsNonEmpty(t);
      Entries(t, SortedKeys(t))
  }

  /** The mask selecting one exercise's entries. */
  function OfExercise(exercise: string): Entry -> bool
  {
    (e: Entry) => e.exercise == exercise
  }

  /** Sorted entries stay sorted when one exercise is selected; within one
      exercise, key order is date order. */
  lemma SelectionByDate(p: seq<Entry>, exercise: string, s: seq<Entry>)
    requires StrictlySorted(EntryKeys(p))
    requires s == Filter(p, OfExercise(exercise))
    ensures forall i, j :: 0 <= i < j < |s| ==> StringOrder.Less(s[i].date, s[j].date)
  {
    var before := (a: Entry, b: Entry) => KeyLess(EntryKey(a), EntryKey(b));
    forall i, j | 0 <= i < j < |p| ensures before(p[i], p[j]) {
      assert EntryKeys(p)[i] == EntryKey(p[i]) && EntryKeys(p)[j] == EntryKey(p[j]);
    }
    FilterKeepsOrder(p, OfExercise(exercise), before);
    forall i, j | 0 <= i < j < |s| ensures StringOrder.Less(s[i].date, s[j].date) {
      assert before(s[i], s[j]);
      assert s[i] in s && s[j] in s;
    }
  }

  /** The points plotted for one exercise: its entries of the progress
      table, in strictly increasing date order. */
  function ExerciseSeries(t: seq<Row>, exercise: string): (s: seq<Entry>)
    ensures forall e :: e in s <==> e in ProgressTable(t) && e.exercise == exercise
    ensures forall i, j :: 0 <= i < j < |s| ==> StringOrder.Less(s[i].date, s[j].date)
  {
    var p := ProgressTable(t);
    var s := Filter(p, OfExercise(exercise));
    SelectionByDate(p, exercise, s);
    assert forall e :: e in s <==> e in p && e.exercise == exercise by {
      forall e ensures e in s <==> e in p && e.exercise == exercise {
        assert OfExercise(exercise)(e) == (e.exercise == exercise);
      }
    }
    s
  }
}
