/** The statistics the dashboard derives from the logs it fetches (at most 30,
    oldest first): the weekly wellness scores, the current streak, the
    personal best and the trailing seven-day averages. */
module Dashboard {
  import opened HealthTypes

  // ---------------------------------------------------------------------
  // Wellness score: three threshold bands
  // ---------------------------------------------------------------------

  /** Steps band: 40 from 10000, 30 from 7000, 20 from 5000, else 10. */
  function StepsPoints(steps: int): int
  {
    if steps >= 10000 then 40
    else if steps >= 7000 then 30
    else if steps >= 5000 then 20
    else 10
  }

  /** Sleep band: 30 within [7, 9] hours, 20 within [6, 10], else 10. */
  function SleepPoints(hours: real): int
  {
    if 7.0 <= hours <= 9.0 then 30
    else if 6.0 <= hours <= 10.0 then 20
    else 10
  }

  /** Calories band: 30 within [1800, 2200], 20 within [1500, 2500], else 10. */
  function CaloriesPoints(calories: int): int
  {
    if 1800 <= calories <= 2200 then 30
    else if 1500 <= calories <= 2500 then 20
    else 10
  }

  predicate Optimal(steps: int, hours: real, calories: int)
  {
    steps >= 10000 && 7.0 <= hours <= 9.0 && 1800 <= calories <= 2200
  }

  /** The score of one log: always in [30, 100], and 100 exactly when every band is at its best. */
  function Score(log: LogEntry): (score: int)
    ensures 30 <= score <= 100
    ensures score == 100 <==> Optimal(log.steps, log.sleepHours, log.calories)
    ensures score == 30 <==> log.steps < 5000 && !(6.0 <= log.sleepHours <= 10.0) && !(1500 <= log.calories <= 2500)
  {
    StepsPoints(log.steps) + SleepPoints(log.sleepHours) + CaloriesPoints(log.calories)
  }

  /** More steps, with the rest unchanged, never lowers the score. */
  lemma ScoreMonotoneInSteps(log: LogEntry, more: int)
    requires more >= log.steps
    ensures Score(log) <= Score(log.(steps := more))
  {
  }

  /** The example day {10000 steps, 8 h, 2000 kcal} scores 100. */
  lemma ScoreOfExampleDay(id: nat, date: int)
    ensures Score(LogEntry(id, 10000, 8.0, 2000, date)) == 100
  {
  }

  // ---------------------------------------------------------------------
  // logs.slice(-7)
  // ---------------------------------------------------------------------

  /** The last (at most) seven elements, in order. */
  function Last7<T>(s: seq<T>): (r: seq<T>)
    ensures |r| == Min(7, |s|)
    ensures forall i :: 0 <= i < |r| ==> r[i] == s[|s| - |r| + i]
  {
    if |s| <= 7 then s else s[|s| - 7..]
  }

  /** The weekly scores: the scores of the last min(7, |logs|) logs, in order. */
  function WeeklyScores(logs: seq<LogEntry>): (r: seq<int>)
    ensures |r| == Min(7, |logs|)
    ensures forall i :: 0 <= i < |r| ==> r[i] == Score(logs[|logs| - |r| + i])
    ensures forall i :: 0 <= i < |r| ==> 30 <= r[i] <= 100
  {
    var w := Last7(logs);
    seq(|w|, i requires 0 <= i < |w| => Score(w[i]))
  }

  /** A new log becomes the last weekly score. */
  lemma WeeklyScoresEndWithNewLog(logs: seq<LogEntry>, x: LogEntry)
    ensures WeeklyScores(logs + [x])[|WeeklyScores(logs + [x])| - 1] == Score(x)
  {
    var s := logs + [x];
    assert s[|s| - 1] == x;
  }

  /** With seven or more logs, a new log pushes the oldest weekly score out. */
  lemma WeeklyScoresShift(logs: seq<LogEntry>, x: LogEntry)
    requires |logs| >= 7
    ensures WeeklyScores(logs + [x])[..6] == WeeklyScores(logs)[1..]
  {
    var s := logs + [x];
    var a, b := WeeklyScores(s), WeeklyScores(logs);
    forall i | 0 <= i < 6 ensures a[i] == b[i + 1] {
      assert s[|s| - 7 + i] == logs[|logs| - 6 + i];
    }
  }

  /** With fewer than seven logs, a new log's score is appended. */
  lemma WeeklyScoresGrow(logs: seq<LogEntry>, x: LogEntry)
    requires |logs| < 7
    ensures WeeklyScores(logs + [x]) == WeeklyScores(logs) + [Score(x)]
  {
    var s := logs + [x];
    var a, b := WeeklyScores(s), WeeklyScores(logs);
    forall i | 0 <= i < |b| ensures a[i] == b[i] {
      assert s[i] == logs[i];
    }
    assert s[|s| - 1] == x;
  }

  // ---------------------------------------------------------------------
  // Streak: walking the logs backwards over day gaps
  // ---------------------------------------------------------------------

  function DatesOf(logs: seq<LogEntry>): (d: seq<int>)
    ensures |d| == |logs| && forall i :: 0 <= i < |d| ==> d[i] == logs[i].logDate
  {
    seq(|logs|, i requires 0 <= i < |logs| => logs[i].logDate)
  }

  /** The increments the backward walk collects below position `k`, which holds
      the previous date: a gap of one day adds one, a gap over one day ends the
      walk, and a gap of zero or less (same day, out of order) neither. */
  function Walk(d: seq<int>, k: nat): nat
    requires k < |d|
  {
    if k == 0 then 0
    else
      var gap := d[k] - d[k - 1];
      if gap > 1 then 0
      else if gap == 1 then 1 + Walk(d, k - 1)
      else Walk(d, k - 1)
  }

  /** The streak of a list of dates: 0 when empty; the newest date counts one. */
  function StreakOf(d: seq<int>): nat
  {
    if d == [] then 0 else 1 + Walk(d, |d| - 1)
  }

  /** fetchHealthLogs' streak loop, from the newest log backwards with an early break. */
  method Streak(logs: seq<LogEntry>) returns (streak: nat)
    ensures streak == StreakOf(DatesOf(logs))
  {
    ghost var d := DatesOf(logs);
    streak := 0;
    var prev: Option<int> := None;
    var i := |logs| - 1;
    while i >= 0
      invariant -1 <= i < |logs|
      invariant prev.None? <==> i == |logs| - 1
      invariant prev.None? ==> streak == 0
      invariant prev.Some? ==> prev.value == d[i + 1] && streak + Walk(d, i + 1) == StreakOf(d)
    {
      var date := logs[i].logDate;
      if prev.None? {
        streak := 1;
      } else {
        var gap := prev.value - date;
        if gap == 1 {
          streak := streak + 1;
        } else if gap > 1 {
          break;
        }
      }
      prev := Some(date);
      i := i - 1;
    }
  }

  lemma {:induction false} WalkAtMost(d: seq<int>, k: nat)
    requires k < |d|
    ensures Walk(d, k) <= k
  {
    if k > 0 {
      WalkAtMost(d, k - 1);
    }
  }

  /** The streak is 0 exactly for no logs, and otherwise between 1 and the number of logs. */
  lemma StreakBounds(d: seq<int>)
    ensures StreakOf(d) == 0 <==> d == []
    ensures StreakOf(d) <= |d|
  {
    if d != [] {
      WalkAtMost(d, |d| - 1);
    }
  }

  /** When every gap is exactly one day, every log counts. */
  lemma {:induction false} WalkConsecutive(d: seq<int>, k: nat)
    requires k < |d|
    requires forall i :: 0 < i <= k ==> d[i] - d[i - 1] == 1
    ensures Walk(d, k) == k
  {
    if k > 0 {
      WalkConsecutive(d, k - 1);
    }
  }

  lemma StreakConsecutive(d: seq<int>)
    requires forall i :: 0 < i < |d| ==> d[i] - d[i - 1] == 1
    ensures StreakOf(d) == |d|
  {
    if d != [] {
      WalkConsecutive(d, |d| - 1);
    }
  }

  /** Nothing before a gap of more than one day counts: the streak depends only
      on the logs after it. */
  lemma {:induction false} WalkIgnoresBeforeGap(d: seq<int>, g: nat, k: nat)
    requires 0 < g <= k < |d| && d[g] - d[g - 1] > 1
    ensures Walk(d, k) == Walk(d[g..], k - g)
  {
    var e := d[g..];
    if k == g {
    } else {
      assert e[k - g] == d[k] && e[k - g - 1] == d[k - 1];
      WalkIgnoresBeforeGap(d, g, k - 1);
    }
  }

  lemma StreakIgnoresBeforeGap(d: seq<int>, g: nat)
    requires 0 < g < |d| && d[g] - d[g - 1] > 1
    ensures StreakOf(d) == StreakOf(d[g..])
  {
    WalkIgnoresBeforeGap(d, g, |d| - 1);
  }

  /** Dates D-5, D-2, D-1, D (oldest first): the walk counts D, D-1, D-2 and stops at the 3-day gap. */
  lemma StreakExample(day: int)
    ensures StreakOf([day - 5, day - 2, day - 1, day]) == 3
  {
    var d := [day - 5, day - 2, day - 1, day];
    assert Walk(d, 1) == 0;
    assert Walk(d, 2) == 1;
    assert Walk(d, 3) == 2;
  }

  // ---------------------------------------------------------------------
  // Personal best: logs.reduce((max, log) => Math.max(max, log.steps), 0)
  // ---------------------------------------------------------------------

  /** The fold from 0: never negative, at least every log's steps, and either 0 or some log's steps. */
  function PersonalBest(logs: seq<LogEntry>): (best: int)
    ensures best >= 0
    ensures forall i :: 0 <= i < |logs| ==> logs[i].steps <= best
    ensures best == 0 || exists i :: 0 <= i < |logs| && logs[i].steps == best
  {
    if logs == [] then 0
    else
      var init := logs[..|logs| - 1];
      var best := PersonalBest(init);
      assert forall i :: 0 <= i < |init| ==> init[i] == logs[i];
      Max(best, logs[|logs| - 1].steps)
  }

  /** With non-negative step counts on a non-empty list, the personal best is the largest step count. */
  lemma PersonalBestIsMaximum(logs: seq<LogEntry>)
    requires logs != []
    requires forall i :: 0 <= i < |logs| ==> logs[i].steps >= 0
    ensures exists i :: 0 <= i < |logs| && logs[i].steps == PersonalBest(logs)
  {
    if PersonalBest(logs) == 0 {
      assert logs[0].steps == 0;
    }
  }

  // ---------------------------------------------------------------------
  // Trailing averages: sum over slice(-7) / (length || 1)
  // ---------------------------------------------------------------------

  function Sum(xs: seq<real>): real
  {
    if xs == [] then 0.0 else xs[0] + Sum(xs[1..])
  }

  /** `sum / (xs.length || 1)`: the mean, and 0 for no values. */
  function Average(xs: seq<real>): (r: real)
    ensures xs == [] ==> r == 0.0
  {
    Sum(xs) / (if xs == [] then 1 else |xs|) as real
  }

  function StepsColumn(logs: seq<LogEntry>): seq<real>
  {
    seq(|logs|, i requires 0 <= i < |logs| => logs[i].steps as real)
  }

  function SleepColumn(logs: seq<LogEntry>): seq<real>
  {
    seq(|logs|, i requires 0 <= i < |logs| => logs[i].sleepHours)
  }

  function CaloriesColumn(logs: seq<LogEntry>): seq<real>
  {
    seq(|logs|, i requires 0 <= i < |logs| => logs[i].calories as real)
  }

  function WeeklyAvgSteps(logs: seq<LogEntry>): real { Average(StepsColumn(Last7(logs))) }

  function WeeklyAvgSleep(logs: seq<LogEntry>): real { Average(SleepColumn(Last7(logs))) }

  function WeeklyAvgCalories(logs: seq<LogEntry>): real { Average(CaloriesColumn(Last7(logs))) }

  lemma {:induction false} SumBounds(xs: seq<real>, lo: real, hi: real)
    requires forall i :: 0 <= i < |xs| ==> lo <= xs[i] <= hi
    ensures (|xs| as real) * lo <= Sum(xs) <= (|xs| as real) * hi
  {
    if xs != [] {
      assert forall i :: 0 <= i < |xs| - 1 ==> xs[1..][i] == xs[i + 1];
      SumBounds(xs[1..], lo, hi);
      var m := (|xs| - 1) as real;
      assert |xs| as real == m + 1.0 && |xs[1..]| as real == m;
      assert Sum(xs) == xs[0] + Sum(xs[1..]);
      assert (m + 1.0) * lo == m * lo + lo;
      assert (m + 1.0) * hi == m * hi + hi;
    }
  }

  /** The average of values in [lo, hi] lies in [lo, hi]. */
  lemma AverageBetween(xs: seq<real>, lo: real, hi: real)
    requires xs != []
    requires forall i :: 0 <= i < |xs| ==> lo <= xs[i] <= hi
    ensures lo <= Average(xs) <= hi
  {
    SumBounds(xs, lo, hi);
    DivideBetween(Sum(xs), |xs| as real, lo, hi);
  }

  /** Every weekly average is 0 without logs. */
  lemma WeeklyAveragesNoLogs()
    ensures WeeklyAvgSteps([]) == 0.0 && WeeklyAvgSleep([]) == 0.0 && WeeklyAvgCalories([]) == 0.0
  {
    assert Last7<LogEntry>([]) == [];
    assert StepsColumn([]) == [] && SleepColumn([]) == [] && CaloriesColumn([]) == [];
  }

  lemma WeeklyAvgSleepBetween(logs: seq<LogEntry>, lo: real, hi: real)
    requires logs != []
    requires forall x :: x in Last7(logs) ==> lo <= x.sleepHours <= hi
    ensures lo <= WeeklyAvgSleep(logs) <= hi
  {
    var w := Last7(logs);
    assert forall i :: 0 <= i < |w| ==> w[i] in w;
    AverageBetween(SleepColumn(w), lo, hi);
  }

  lemma WeeklyAvgStepsBetween(logs: seq<LogEntry>, lo: int, hi: int)
    requires logs != []
    requires forall x :: x in Last7(logs) ==> lo <= x.steps <= hi
    ensures lo as real <= WeeklyAvgSteps(logs) <= hi as real
  {
    var w := Last7(logs);
    assert forall i :: 0 <= i < |w| ==> w[i] in w;
    AverageBetween(StepsColumn(w), lo as real, hi as real);
  }

  lemma WeeklyAvgCaloriesBetween(logs: seq<LogEntry>, lo: int, hi: int)
    requires logs != []
    requires forall x :: x in Last7(logs) ==> lo <= x.calories <= hi
    ensures lo as real <= WeeklyAvgCalories(logs) <= hi as real
  {
    var w := Last7(logs);
    assert forall i :: 0 <= i < |w| ==> w[i] in w;
    AverageBetween(CaloriesColumn(w), lo as real, hi as real);
  }
}
