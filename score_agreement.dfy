/** The dashboard and the model trainer compute the same wellness score: the
    three bands and their thresholds are identical on both sides. The ML
    service's suggestion levels follow the same thresholds. */
module ScoreAgreement {
  import opened HealthTypes
  import Dashboard
  import Training
  import MlService

  /** The feature row the trainer sees for a logged day. */
  function RowOf(log: LogEntry): Training.FeatureRow
  {
    Training.FeatureRow(Training.Num(log.steps as real), Training.Num(log.sleepHours), Training.Num(log.calories as real))
  }

  /** The dashboard score of a log equals the synthetic training score of the same values. */
  lemma SameScore(log: LogEntry)
    ensures Dashboard.Score(log) == Training.RowScore(RowOf(log))
  {
    assert Dashboard.StepsPoints(log.steps) == Training.StepsBand(Training.Num(log.steps as real));
    assert Dashboard.SleepPoints(log.sleepHours) == Training.SleepBand(Training.Num(log.sleepHours));
    assert Dashboard.CaloriesPoints(log.calories) == Training.CaloriesBand(Training.Num(log.calories as real));
  }

  /** So the weekly scores are the trainer's scores of the last (at most) seven logs. */
  lemma WeeklyScoresAreTrainingScores(logs: seq<LogEntry>)
    ensures var w := Dashboard.WeeklyScores(logs);
      forall i :: 0 <= i < |w| ==> w[i] == Training.RowScore(RowOf(logs[|logs| - |w| + i]))
  {
    var w := Dashboard.WeeklyScores(logs);
    forall i | 0 <= i < |w| ensures w[i] == Training.RowScore(RowOf(logs[|logs| - |w| + i])) {
      SameScore(logs[|logs| - |w| + i]);
    }
  }

  /** The ML service's category levels follow the dashboard's bands: the
      lowest steps band is urgent and the top two are success; the best sleep
      band is success; the two upper calorie bands are success. */
  lemma LevelsFollowDashboardBands(steps: int, hours: real, calories: int, healthScore: real)
    ensures var s := MlService.Suggestions(steps, hours, calories, healthScore);
      && (s[0].level == LevelUrgent <==> Dashboard.StepsPoints(steps) == 10)
      && (s[0].level == LevelSuccess <==> Dashboard.StepsPoints(steps) >= 30)
      && (s[1].level == LevelSuccess <==> Dashboard.SleepPoints(hours) == 30)
      && (s[2].level == LevelSuccess <==> Dashboard.CaloriesPoints(calories) >= 20)
  {
    MlService.SuggestionsFollowThresholds(steps, hours, calories, healthScore);
  }
}
