# Workout tracker — a Dafny model of its logging and scoring logic

The workout tracker is a single Streamlit script. It shows the day's routine from a
fixed weekly schedule, and it logs each set of an exercise and each body-weight
reading as a row of a flat table. It then derives three views from that table:

- a "Last time" summary per exercise;
- a progress table that scores each (Date, Exercise) group against a per-exercise target;
- the body-weight history.

This project models that logic as pure functions over an immutable `seq<Row>`
table. It proves what the functions compute and how logging, summarising and
scoring relate to each other.

Modules, following the script's parts:

- `Schedule`: the weekly schedule, the weekday-to-day selector, and the day's routine.
- `Scoring`: the target table with its default, and the score formula.
- `Rows`: the row record, the (Date, Exercise) key and its sort order.
- `Logging`: appending a body-weight reading, and appending one row per set of an exercise.
- `LastSession`: the latest-session summary.
- `Progress`: the derived Total Reps / Avg Weight / Score columns and the grouped progress table.
- `ProgressFacts`: lemmas about the progress table.
- `History`: the body-weight history.
- `Seqs` and `StringOrder`: helpers. `StringOrder` is Python's `str` ordering, which both
  `max()` on the Date column and `groupby`'s key sort use.

Modelling choices:

- The weekday and the date string are parameters. The model does not read a clock.
- Floats are `real`. `int()` of a mean is `Trunc`, which truncates toward zero.
- The Weight column holds integers, because the weight widget is an integer input and
  body-weight rows store `0`. Its means are `real`.
- A blank BodyWeight cell is `None`.
- The widgets' numeric bounds become the logging functions' preconditions.

Two behaviours of the code worth naming:

- Body-weight readings are grouped like any other row: the code (`WorkOut.py:153-159`) groups
  every row, so `Progress.ProgressTable` has an entry under "Body Weight Log" for each date a
  reading was logged. In a table whose readings carry zero reps, which both loggings keep
  (`ProgressFacts.LoggingKeepsReadingsRepFree`), `ProgressFacts.BodyWeightLogScoresZero` shows
  every such entry scores 0.
- `groupby` sorts its keys by default, so `Progress.ProgressTable` is proved strictly ascending
  in (Date, Exercise).

## Model

| member | source | states |
|---|---|---|
| Schedule.TodaysWorkout | WorkOut.py:47-52 | The result is the rest-day label exactly on weekdays 5 and 6; on weekdays 0-4 it is a five-character label starting "Day ". |
| Schedule.TodaysWorkoutLabel | WorkOut.py:47-52 | Weekday w in 0..4 gives "Day w+1", matching a reference list of day labels. The label is a key of the schedule iff w < 5, so the rest day never indexes it. |
| Schedule.Routine | WorkOut.py:94-99 | A routine exists exactly on weekdays 0-4; it is the schedule's list for that day's label and holds five exercises. |
| Schedule.RoutineExamples | WorkOut.py:27-33 | Monday yields the Day 1 list, Friday exactly the Day 5 list, and Saturday and Sunday nothing. |
| Schedule.BodyWeightLogNotScheduled | WorkOut.py:27-33 | No training day schedules the "Body Weight Log" sentinel. |
| Scoring.TargetFor | WorkOut.py:57 | An exercise in the target table gets its own target; any other gets the default 4 x 8 x 60. |
| Scoring.TargetScore | WorkOut.py:57-58 | The target volume is never negative, and it is zero for exactly one exercise, "Tricep Dips". |
| Scoring.Score | WorkOut.py:56-61 | The score is 0 on a zero target volume. Otherwise score x target volume = reps x weight x 100, with no clamp. It is 100 iff the performed volume equals the target volume, and non-negative for non-negative inputs. |
| Scoring.UnknownExerciseUsesDefault | WorkOut.py:57-58 | An exercise without a target entry has target volume 1920 and is scored against it. |
| Scoring.ZeroTargetScoresZero | WorkOut.py:59-60 | "Tricep Dips" scores 0 for every reps total and average weight. |
| Scoring.BenchPressExamples | WorkOut.py:61 | Bench Press with 32 reps at 60 kg scores 100; with 64 reps it scores 200, so the score is uncapped. |
| Logging.BodyWeightRow | WorkOut.py:77-85 | A reading is stored under the sentinel exercise with Sets, Reps and Weight zero and the reading as BodyWeight. |
| Logging.LogBodyWeight | WorkOut.py:76-87 | Logging a reading appends exactly one row: the reading's row, with the day's label. Earlier rows are unchanged. |
| Logging.LogExercise | WorkOut.py:128-139 | Logging an exercise appends exactly `sets` rows, set i carrying Sets = i+1 and the i-th reps and weight, with no body weight. Earlier rows are unchanged. |
| Logging.LoggedExerciseIsScheduled | WorkOut.py:94-102 | A logged exercise is in the schedule under the day's label, and it is never the body-weight sentinel. |
| History.WeightHistory | WorkOut.py:179 | The history holds a reading for every row with a body weight, and only such readings. |
| History.WeightHistoryAppend | WorkOut.py:179 | The history of appended tables is the concatenation of the histories, so log order is kept. |
| History.LogBodyWeightExtendsHistory | WorkOut.py:77-86 | Logging a reading adds exactly that reading at the end of the history. |
| History.LogExerciseKeepsHistory | WorkOut.py:129-138 | Logging an exercise leaves the body-weight history unchanged. |
| Seqs.Trunc | WorkOut.py:111-112 | `int()` of a mean truncates toward zero: for x >= 0 the result n satisfies n <= x < n+1, and mirrored for negatives. |
| Seqs.MaxInt | WorkOut.py:110 | The maximum is an element of the column and no element exceeds it. |
| LastSession.LatestDate | WorkOut.py:108 | The latest date is one of the rows' dates, and every row's date is at most it in string order. |
| LastSession.LastDate | WorkOut.py:106-108 | Among the exercise's rows, the result is a date some row has and no row's date exceeds. |
| LastSession.SessionRows | WorkOut.py:106-109 | The session is non-empty and holds exactly the exercise's rows dated on its latest date. |
| LastSession.LastSession | WorkOut.py:106-113 | There is a summary iff the exercise has a row. Its set count is the largest Sets in the session. Under the widget bounds, its averages are the truncated session means of Reps and Weight. |
| LastSession.OtherExerciseUnchanged | WorkOut.py:106-107 | Appending rows of other exercises, readings included, leaves an exercise's summary unchanged. |
| LastSession.AppendedSessionIsLast | WorkOut.py:106-109 | Rows appended under a date later than the exercise's earlier dates become exactly its latest session. |
| LastSession.LoggedSessionIsLast | WorkOut.py:106-113 | After logging n sets on a later date, the summary is n sets with the truncated means of the reps and weights entered. |
| Progress.ScoreRows | WorkOut.py:153-156 | Each row gets its group's Total Reps, Avg Weight and score, so rows sharing (Date, Exercise) get identical derived columns. |
| Progress.MeanScore | WorkOut.py:159 | The mean of a group's per-row scores equals the score of the group's totals. |
| Progress.SortedKeys | WorkOut.py:159 | The group keys are strictly ascending in (Date, Exercise) order, and they are exactly the keys present in the table. |
| Progress.ProgressTable | WorkOut.py:151-159 | There is one entry per distinct (Date, Exercise) pair and no other entry, strictly sorted. Each entry's score is its group's score. An empty table gives an empty result. |
| Progress.ExerciseSeries | WorkOut.py:165-168 | The plotted points are exactly the exercise's progress entries, with strictly increasing dates. |
| ProgressFacts.RepsPartition | WorkOut.py:153 | Over a duplicate-free key list covering all rows, the group Total Reps add up to the table's total reps, so every row is in exactly one group. |
| ProgressFacts.TotalRepsPartition | WorkOut.py:153 | The Total Reps of the progress table's groups add up to all reps logged. |
| ProgressFacts.SingleRowGroup | WorkOut.py:153-155 | A group of one row has that row's reps as total, its weight as mean, and the score of those. |
| ProgressFacts.LoggedGroupScore | WorkOut.py:153-155 | Sets logged under a fresh (Date, Exercise) pair form one group. Its total is the sum of the reps entered and its score is that of the mean weight entered. |
| ProgressFacts.LoggingKeepsReadingsRepFree | WorkOut.py:77-86 | Both kinds of logging keep every body-weight row at zero reps. |
| ProgressFacts.BodyWeightLogScoresZero | WorkOut.py:153-159 | In a table whose readings carry zero reps (both loggings keep this, see `LoggingKeepsReadingsRepFree`), every "Body Weight Log" entry of the progress table scores 0. |
| ProgressFacts.ScoresNonNegative | WorkOut.py:155-159 | Under the widget bounds, no progress score is negative. |
| ProgressFacts.SquatExample | WorkOut.py:153-154 | Two sets of 5 reps at 100 kg on one date form one group with Total Reps 10 and Avg Weight 100, and one progress entry. |

## Left out

- LastSession: the bounds on the two averages are stated only for tables within the widgets' non-negative bounds. For negative means, `Seqs.Trunc`'s contract gives the mirrored bound, but `LastSession` does not restate it.
- Streamlit widgets, sidebar, headers, messages and `st.dataframe`: these are presentation only. The widgets' numeric bounds appear as preconditions.
- The exercise picker's list `df["Exercise"].unique()` (line 162): this is presentation; `Progress.ExerciseSeries` takes the chosen exercise as a parameter.
- CSV creation, `load_data` and `save_data` (lines 10-23): these are file I/O. The table is an in-memory `seq<Row>`.
- `datetime.today()`: the weekday and the date string are parameters. The code calls it once per set row (line 131), so a logging that spans midnight could mix two dates. The model uses one date per logging.
- Matplotlib and `st.line_chart` plotting: rendering only.
- Floating-point rounding: scores and means are exact `real` values. In floats, the mean of a group's equal per-row scores could differ from that score in the last bit.
- Pandas dtype coercion and NaN handling beyond a blank BodyWeight. Rows the script writes always have a Date, so `dropna` on (Date, BodyWeight) reduces to BodyWeight being present. `groupby` dropping rows with a blank key is not modelled.
- The ISO date strings' string order is taken as given. Whether it matches calendar order is not modelled.
