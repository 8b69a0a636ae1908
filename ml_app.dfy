/** The ML service's decision logic: which uploads count as CSV files, the
    clamp on the predicted score, the four suggestions it derives from a day's
    metrics, and the validation of a prediction request. The trained model is a
    parameter. */
module MlService {
  import opened HealthTypes

  // ---------------------------------------------------------------------
  // allowed_file
  // ---------------------------------------------------------------------

  /** The position of the last '.', as `rsplit('.', 1)` finds it. */
  function LastDot(f: string): (r: Option<nat>)
    ensures r.None? <==> '.' !in f
    ensures r.Some? ==> r.value < |f| && f[r.value] == '.' && forall q :: r.value < q < |f| ==> f[q] != '.'
  {
    if f == [] then None
    else if f[|f| - 1] == '.' then Some(|f| - 1)
    else
      var r := LastDot(f[..|f| - 1]);
      assert forall q :: 0 <= q < |f| - 1 ==> f[..|f| - 1][q] == f[q];
      r
  }

  /** `'.' in filename and filename.rsplit('.', 1)[1].lower() in {'csv'}` */
  predicate AllowedFile(f: string)
  {
    '.' in f && Lower(f[LastDot(f).value + 1..]) == "csv"
  }

  /** A name is accepted exactly when it ends in '.' and three characters that
      lower-case to "csv". */
  lemma AllowedFileIff(f: string)
    ensures AllowedFile(f) <==> |f| >= 4 && f[|f| - 4] == '.' && Lower(f[|f| - 3..]) == "csv"
  {
    if |f| >= 4 && f[|f| - 4] == '.' && Lower(f[|f| - 3..]) == "csv" {
      var p := LastDot(f).value;
      assert p == |f| - 4;
    }
    if AllowedFile(f) {
      var p := LastDot(f).value;
      assert |f[p + 1..]| == 3;
    }
  }

  lemma AllowedFileAcceptsUpperCase()
    ensures AllowedFile("Fitbit.CSV")
  {
    AllowedFileIff("Fitbit.CSV");
  }

  lemma AllowedFileRejectsLaterExtension()
    ensures !AllowedFile("data.csv.txt")
  {
    AllowedFileIff("data.csv.txt");
  }

  // ---------------------------------------------------------------------
  // Numbers: int() and the clamp
  // ---------------------------------------------------------------------

  /** Python's `int(x)` on a float: truncation toward zero. */
  function Trunc(x: real): (r: int)
    ensures x >= 0.0 ==> r as real <= x < r as real + 1.0
    ensures x < 0.0 ==> r as real - 1.0 < x <= r as real
  {
    if x >= 0.0 then x.Floor else -((-x).Floor)
  }

  /** `max(0, min(100, x))`: the value itself within [0, 100], else the nearer bound. */
  function Clamp(x: real): (r: real)
    ensures 0.0 <= r <= 100.0
    ensures 0.0 <= x <= 100.0 ==> r == x
    ensures x > 100.0 ==> r == 100.0
    ensures x < 0.0 ==> r == 0.0
  {
    var m := if x < 100.0 then x else 100.0;
    if m > 0.0 then m else 0.0
  }

  lemma TruncOfClampInRange(x: real)
    ensures 0 <= Trunc(Clamp(x)) <= 100
  {
  }

  // ---------------------------------------------------------------------
  // generate_suggestions
  // ---------------------------------------------------------------------

  function ActivityLevel(steps: int): string
  {
    if steps < 5000 then LevelUrgent else if steps < 7000 then LevelWarning else LevelSuccess
  }

  function SleepLevel(sleepHours: real): string
  {
    if sleepHours < 6.0 then LevelUrgent
    else if sleepHours < 7.0 then LevelWarning
    else if sleepHours <= 9.0 then LevelSuccess
    else LevelInfo
  }

  function NutritionLevel(calories: int): string
  {
    if calories < 1500 then LevelWarning else if calories > 2500 then LevelWarning else LevelSuccess
  }

  function OverallLevel(score: int): string
  {
    if score >= 80 then LevelSuccess
    else if score >= 60 then LevelSuccess
    else if score >= 40 then LevelWarning
    else LevelUrgent
  }

  /** The four suggestions for a day's metrics, one per category; only Overall
      carries a score, the truncated health score. */
  function Suggestions(steps: int, sleepHours: real, calories: int, healthScore: real): seq<Suggestion>
  {
    var score := Trunc(healthScore);
    [Suggestion(Activity, ActivityLevel(steps), None), Suggestion(Sleep, SleepLevel(sleepHours), None),
     Suggestion(Nutrition, NutritionLevel(calories), None), Suggestion(Overall, OverallLevel(score), Some(score))]
  }

  /** Each level follows its category's thresholds, in both directions, and
      only the Overall entry has a score. */
  lemma SuggestionsFollowThresholds(steps: int, sleepHours: real, calories: int, healthScore: real)
    ensures var r := Suggestions(steps, sleepHours, calories, healthScore);
      && StandardCategories(r)
      && (r[0].level == LevelUrgent <==> steps < 5000)
      && (r[0].level == LevelWarning <==> 5000 <= steps < 7000)
      && (r[0].level == LevelSuccess <==> steps >= 7000)
      && (r[1].level == LevelUrgent <==> sleepHours < 6.0)
      && (r[1].level == LevelWarning <==> 6.0 <= sleepHours < 7.0)
      && (r[1].level == LevelSuccess <==> 7.0 <= sleepHours <= 9.0)
      && (r[1].level == LevelInfo <==> sleepHours > 9.0)
      && (r[2].level == LevelWarning <==> calories < 1500 || calories > 2500)
      && (r[2].level == LevelSuccess <==> 1500 <= calories <= 2500)
      && r[3].score == Some(Trunc(healthScore))
      && (r[3].level == LevelSuccess <==> Trunc(healthScore) >= 60)
      && (r[3].level == LevelWarning <==> 40 <= Trunc(healthScore) < 60)
      && (r[3].level == LevelUrgent <==> Trunc(healthScore) < 40)
      && (forall i :: 0 <= i < 3 ==> r[i].score.None?)
  {
  }

  /** generate_suggestions: one append per category, in order. */
  method GenerateSuggestions(steps: int, sleepHours: real, calories: int, healthScore: real)
    returns (suggestions: seq<Suggestion>)
    ensures suggestions == Suggestions(steps, sleepHours, calories, healthScore)
  {
    suggestions := [];
    if steps < 5000 {
      suggestions := suggestions + [Suggestion(Activity, LevelUrgent, None)];
    } else if steps < 7000 {
      suggestions := suggestions + [Suggestion(Activity, LevelWarning, None)];
    } else {
      suggestions := suggestions + [Suggestion(Activity, LevelSuccess, None)];
    }
    ghost var expected := Suggestions(steps, sleepHours, calories, healthScore);
    assert suggestions == [expected[0]];
    if sleepHours < 6.0 {
      suggestions := suggestions + [Suggestion(Sleep, LevelUrgent, None)];
    } else if sleepHours < 7.0 {
      suggestions := suggestions + [Suggestion(Sleep, LevelWarning, None)];
    } else if sleepHours <= 9.0 {
      suggestions := suggestions + [Suggestion(Sleep, LevelSuccess, None)];
    } else {
      suggestions := suggestions + [Suggestion(Sleep, LevelInfo, None)];
    }
    assert suggestions == [expected[0], expected[1]];
    if calories < 1500 {
      suggestions := suggestions + [Suggestion(Nutrition, LevelWarning, None)];
    } else if calories > 2500 {
      suggestions := suggestions + [Suggestion(Nutrition, LevelWarning, None)];
    } else {
      suggestions := suggestions + [Suggestion(Nutrition, LevelSuccess, None)];
    }
    assert suggestions == [expected[0], expected[1], expected[2]];
    var score := Trunc(healthScore);
    var level;
    if score >= 80 {
      level := LevelSuccess;
    } else if score >= 60 {
      level := LevelSuccess;
    } else if score >= 40 {
      level := LevelWarning;
    } else {
      level := LevelUrgent;
    }
    suggestions := suggestions + [Suggestion(Overall, level, Some(score))];
  }

  // ---------------------------------------------------------------------
  // predict
  // ---------------------------------------------------------------------

  /** The JSON body of a prediction request; a field is `None` when the key is absent. */
  datatype PredictRequest = PredictRequest(steps: Option<real>, sleepHours: Option<real>, calories: Option<real>,
                                           date: Option<string>)

  /** What the service answers: the suggestions with the metrics they are based
      on and the model's name, or an error (`None` when the body has no `error`). */
  datatype MlReply =
    | MlSuccess(suggestions: seq<Suggestion>, basedOn: BasedOn, modelUsed: string)
    | MlFailure(error: Option<string>)

  const NotTrainedMessage := "Model not trained yet. Please train the model first."
  const MissingFieldsMessage := "Missing required fields: ['steps', 'sleep_hours', 'calories']"

  predicate HasRequiredFields(data: PredictRequest)
  {
    data.steps.Some? && data.sleepHours.Some? && data.calories.Some?
  }

  /** predict: 400 without a loaded model or with a field missing; otherwise the
      model's score is clamped into [0, 100] and turned into suggestions.
      `model` stands for the scaler and the trained regressor. */
  method Predict(modelLoaded: bool, modelName: Option<string>, data: PredictRequest, model: (real, real, real) -> real)
    returns (status: int, reply: MlReply)
    ensures !modelLoaded ==> status == 400 && reply == MlFailure(Some(NotTrainedMessage))
    ensures modelLoaded && !HasRequiredFields(data) ==> status == 400 && reply == MlFailure(Some(MissingFieldsMessage))
    ensures modelLoaded && HasRequiredFields(data) ==>
      var steps, hours, calories := data.steps.value, data.sleepHours.value, data.calories.value;
      && status == 200
      && reply == MlSuccess(Suggestions(Trunc(steps), hours, Trunc(calories), Clamp(model(steps, hours, calories))),
                            BasedOn(Trunc(steps), hours, Trunc(calories), data.date.GetOr("today")),
                            modelName.GetOr("Unknown"))
  {
    if !modelLoaded {
      return 400, MlFailure(Some(NotTrainedMessage));
    }
    if !HasRequiredFields(data) {
      return 400, MlFailure(Some(MissingFieldsMessage));
    }
    var steps, hours, calories := data.steps.value, data.sleepHours.value, data.calories.value;
    var healthScore := model(steps, hours, calories);
    healthScore := Clamp(healthScore);
    var suggestions := GenerateSuggestions(Trunc(steps), hours, Trunc(calories), healthScore);
    var basedOn := BasedOn(Trunc(steps), hours, Trunc(calories), data.date.GetOr("today"));
    return 200, MlSuccess(suggestions, basedOn, modelName.GetOr("Unknown"));
  }

  /** Whatever the model predicts, a successful reply's Overall score lies in [0, 100]. */
  lemma PredictedScoreInRange(steps: int, hours: real, calories: int, predicted: real)
    ensures var s := Suggestions(steps, hours, calories, Clamp(predicted));
      s[3].score.Some? && 0 <= s[3].score.value <= 100
  {
    SuggestionsFollowThresholds(steps, hours, calories, Clamp(predicted));
    TruncOfClampInRange(predicted);
  }
}
