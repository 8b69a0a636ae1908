# FitTrack-AI decision logic in Dafny

FitTrack-AI is a fitness tracker made of three parts:

- a Node/Express backend where users log their daily steps, sleep hours and calories;
- a React dashboard that derives statistics from those logs;
- a Flask ML service that turns a day's metrics into a predicted health score and four suggestions.

This project models the deterministic decision logic of all three and proves what each piece promises.

- `health_types.dfy` (`HealthTypes`): the records that cross component boundaries. These are the API's log entry, the metrics sent to the ML service, suggestions and their categories and levels, `Option`, and `Outcome` (a value or a thrown error). It also holds JavaScript's `x || fallback` on strings and Python's `lower()` on ASCII.
- `health_store.dfy` (`HealthStore`): the health-log controller.
  - Class `HealthLogTable` holds the `health_logs` rows and the next auto-increment id.
  - `AddHealthLog` validates a submission, then either UPDATEs all of today's rows or INSERTs one.
  - `GetHealthLogs` takes the newest *limit* rows and reverses them in place in an array, as `logs.reverse()` does.
  - Each SQL statement is a filter or a stable sort over the rows. The methods are proved against the pure functions `AddLog` and `RecentLogs`, and the properties are lemmas about those functions.
  - `getLatestLog` and `getHealthStats` are pure reads (`LatestLog`, `HealthStats`).
- `dashboard.dfy` (`Dashboard`): the statistics the dashboard computes after fetching up to 30 logs. These are the three-band wellness score, the weekly scores, the streak (a backward loop with `break`, proved against a recursive walk), the personal best (a fold) and the trailing seven-day averages.
- `training.dfy` (`Training`): the trainer's data preparation.
  - `calculate_health_score` is a loop over rows. pandas NaN is the cell `Missing`, which compares false with everything.
  - Column names are normalised by strip, lower-case and space→underscore.
  - The rename loop over `column_map` is proved equal to one dictionary lookup per column.
  - A synthetic `sleep_hours` column is added when absent, then the required feature columns are checked.
- `score_agreement.dfy` (`ScoreAgreement`): the dashboard score and the trainer's score agree on equal inputs, and the ML suggestion levels follow the same thresholds.
- `ml_app.dfy` (`MlService`): `allowed_file`, Python's `int()` truncation, the `[0, 100]` clamp, `generate_suggestions` (straight-line appends) and the validation branches of `predict`. The trained model is a function parameter.
- `ai_proxy.dfy` (`AiProxy`): the backend's AI-suggestion endpoint. It takes the DB rows (or the thrown DB error) and the HTTP client's result as inputs. The client's behaviour on non-2xx replies (it throws) is modelled by `Post`.
- `suggestion_modal.dfy` (`SuggestionModal`): the modal covers:
  - the show/absent guard;
  - the Overall entry found by `find`;
  - the other entries kept by `filter`;
  - the level-to-colour and level-to-icon switches.

Dates are integer day numbers, and "today" is a parameter. Each endpoint's HTTP response is a datatype carrying its status, flag and message.

## Model

| member | source | states |
|---|---|---|
| HealthStore.RowsOnMembers | backend_fitness/controllers/healthController.js:27-30 | today's rows of a user are exactly the table rows with that user and date |
| HealthStore.OfUser | backend_fitness/controllers/healthController.js:85-92 | `WHERE user_id = ?` keeps exactly the user's rows |
| HealthStore.Window | backend_fitness/controllers/healthController.js:149-160 | the statistics window holds exactly the user's rows dated on or after the start day |
| HealthStore.Overwrite | backend_fitness/controllers/healthController.js:35-38 | the UPDATE gives every (user, today) row the new three values and leaves every other row as it was |
| HealthStore.AddLog | backend_fitness/controllers/healthController.js:10-68 | a missing field gives 400 with its message and an unchanged table; so does a negative value; status 400 and `success` false exactly when the submission is rejected; when rows exist for today, all of them take the new values, no row is added and the reply carries the first such row's id (200); otherwise exactly one row with the next id and date today is appended (201); rows of other users or days are unchanged |
| HealthStore.RowsOnAppend | backend_fitness/controllers/healthController.js:53-56 | selecting today's rows distributes over appending rows |
| HealthStore.RowsOnOverwrite | backend_fitness/controllers/healthController.js:35-38 | the UPDATE keeps the number of today's rows and gives each of them the submitted values |
| HealthStore.SameDayTwiceKeepsLast | backend_fitness/controllers/healthController.js:26-68 | two accepted submissions on one day, from zero or one row, leave exactly one row for that day holding the second submission (last write wins) |
| HealthStore.AddLogKeepsOneRowPerDay | backend_fitness/controllers/healthController.js:26-68 | sequential upserts preserve "at most one row per (user, date)" |
| HealthStore.AddLogKeepsIdsFresh | backend_fitness/controllers/healthController.js:53-62 | ids stay distinct and below the next auto-increment id |
| HealthStore.ConsKeepsOrder | backend_fitness/controllers/healthController.js:89 | a row at least as recent as a newest-first list can be put in front of it |
| HealthStore.InsertByDate | backend_fitness/controllers/healthController.js:89 | inserting into a newest-first list keeps it newest-first and adds exactly that row (multiset) |
| HealthStore.SortNewestFirst | backend_fitness/controllers/healthController.js:89 | `ORDER BY log_date DESC`: the result is newest-first and a permutation of the input |
| HealthStore.Take | backend_fitness/controllers/healthController.js:90 | `LIMIT n` keeps the first min(n, length) rows |
| HealthStore.Entries | backend_fitness/controllers/healthController.js:86 | one API entry per selected row, in order |
| HealthStore.Reversed | backend_fitness/controllers/healthController.js:97 | `reverse()`: element k is the element length−1−k of the input |
| HealthStore.ReversedTwice | backend_fitness/controllers/healthController.js:97 | reversing twice restores the order |
| HealthStore.RecentLogsAt | backend_fitness/controllers/healthController.js:85-97 | entry k of getHealthLogs is the row k places from the end of the newest `limit` rows |
| HealthStore.RecentLogDate | backend_fitness/controllers/healthController.js:85-97 | entry k has the date of the row k places from the end of the newest `limit` rows |
| HealthStore.NewestAreReturned | backend_fitness/controllers/healthController.js:85-97 | each of the user's newest `limit` rows is returned |
| HealthStore.RecentLogsCount | backend_fitness/controllers/healthController.js:83-98 | getHealthLogs returns min(limit, number of the user's rows) entries, and `count` is that number |
| HealthStore.RecentLogsOldestFirst | backend_fitness/controllers/healthController.js:89-97 | the returned logs are in non-decreasing date order |
| HealthStore.RecentLogsOwned | backend_fitness/controllers/healthController.js:85-92 | every returned log is one of the user's rows |
| HealthStore.NewestFirstOwned | backend_fitness/controllers/healthController.js:85-92 | every row of the sorted selection belongs to the user |
| HealthStore.NewestFirstComplete | backend_fitness/controllers/healthController.js:85-92 | every row of the user is in the sorted selection |
| HealthStore.RecentLogsMostRecentAt | backend_fitness/controllers/healthController.js:85-97 | a user row left out is no newer than any returned row |
| HealthStore.RecentLogsMostRecent | backend_fitness/controllers/healthController.js:85-97 | the returned rows are the user's most recent ones: any row left out is no newer than every returned row |
| HealthStore.NewestFirstTop | backend_fitness/controllers/healthController.js:113-118 | the first row of the newest-first order is at least as recent as every row of the user |
| HealthStore.Newest | backend_fitness/controllers/healthController.js:113-120 | `ORDER BY log_date DESC LIMIT 1`: none exactly when the user has no rows, otherwise one of the user's rows with maximal date |
| HealthStore.LatestLog | backend_fitness/controllers/healthController.js:113-133 | always success; a null log exactly when the user has no rows; otherwise a user row whose date is maximal |
| HealthStore.MaxSteps | backend_fitness/controllers/healthController.js:154 | `MAX(steps)` is some row's steps and at least every row's steps |
| HealthStore.MinSteps | backend_fitness/controllers/healthController.js:155 | `MIN(steps)` is some row's steps and at most every row's steps |
| HealthStore.HealthStats | backend_fitness/controllers/healthController.js:147-172 | fails with its message exactly when `days` is not a number; otherwise aggregates the window starting `days` (default 7) before today |
| HealthStore.SumStepsBounds | backend_fitness/controllers/healthController.js:151 | n rows with steps in [lo, hi] sum to between n·lo and n·hi |
| HealthStore.MeanBetween | backend_fitness/controllers/healthController.js:151-153 | an average of values in [lo, hi] lies in [lo, hi] |
| HealthStore.MeanStepsBetween | backend_fitness/controllers/healthController.js:151-155 | `AVG(steps)` lies between `MIN(steps)` and `MAX(steps)` |
| HealthStore.StatsStepsRange | backend_fitness/controllers/healthController.js:149-164 | on a non-empty window, min_steps ≤ avg_steps ≤ max_steps and every row's steps lie in [min_steps, max_steps] |
| HealthStore.FirstLogScenario | backend_fitness/controllers/healthController.js:51-68 | a new user's first log is created with 201, is the latest log with today's date and gives avg_steps 8000 and total_logs 1 over the default window |
| HealthStore.ReverseInPlace | backend_fitness/controllers/healthController.js:97 | `reverse()` in place: the array's new contents are `Reversed` of its old contents |
| HealthStore.HealthLogTable.constructor | backend_fitness/controllers/healthController.js:53-55 | an empty table whose first id is 1 |
| HealthStore.HealthLogTable.AddHealthLog | backend_fitness/controllers/healthController.js:4-69 | the new rows, next id and response are exactly those of `AddLog` on the old state, and ids stay fresh |
| HealthStore.HealthLogTable.GetHealthLogs | backend_fitness/controllers/healthController.js:80-106 | a non-numeric or negative limit gives the error response; otherwise `count` and `logs` are `RecentLogs` of the table with limit default 30 |
| Dashboard.Score | frontend_fitness/src/pages/Dashboard.jsx:72-86 | the score lies in [30, 100]; it is 100 exactly when steps ≥ 10000, sleep in [7, 9] and calories in [1800, 2200]; it is 30 exactly when every band is lowest |
| Dashboard.ScoreMonotoneInSteps | frontend_fitness/src/pages/Dashboard.jsx:74-77 | more steps never lower the score |
| Dashboard.ScoreOfExampleDay | frontend_fitness/src/pages/Dashboard.jsx:72-86 | (10000, 8, 2000) scores 100 |
| Dashboard.Last7 | frontend_fitness/src/pages/Dashboard.jsx:70 | `slice(-7)` is the last min(7, n) elements in order |
| Dashboard.WeeklyScores | frontend_fitness/src/pages/Dashboard.jsx:69-88 | min(7, n) entries, each the score of the corresponding one of the last logs, all in [30, 100] |
| Dashboard.WeeklyScoresEndWithNewLog | frontend_fitness/src/pages/Dashboard.jsx:69-88 | after a new log its score is the last weekly score |
| Dashboard.WeeklyScoresShift | frontend_fitness/src/pages/Dashboard.jsx:69-88 | with seven or more logs, a new log pushes the oldest score out |
| Dashboard.WeeklyScoresGrow | frontend_fitness/src/pages/Dashboard.jsx:69-88 | with fewer than seven logs, a new log's score is appended |
| Dashboard.DatesOf | frontend_fitness/src/pages/Dashboard.jsx:93 | the dates of the logs, position by position |
| Dashboard.Streak | frontend_fitness/src/pages/Dashboard.jsx:90-106 | the backward loop with `break` computes `StreakOf` of the log dates |
| Dashboard.WalkAtMost | frontend_fitness/src/pages/Dashboard.jsx:92-105 | the walk below position k adds at most k |
| Dashboard.StreakBounds | frontend_fitness/src/pages/Dashboard.jsx:90-106 | the streak is 0 exactly for no logs and never exceeds the number of logs |
| Dashboard.WalkConsecutive | frontend_fitness/src/pages/Dashboard.jsx:98-99 | with one-day gaps throughout, the walk counts every position |
| Dashboard.StreakConsecutive | frontend_fitness/src/pages/Dashboard.jsx:90-106 | logs on consecutive days give a streak equal to their number |
| Dashboard.WalkIgnoresBeforeGap | frontend_fitness/src/pages/Dashboard.jsx:100-101 | the walk from any position at or after a gap over one day ignores everything before the gap |
| Dashboard.StreakIgnoresBeforeGap | frontend_fitness/src/pages/Dashboard.jsx:100-101 | only the logs after the last gap over one day count |
| Dashboard.StreakExample | frontend_fitness/src/pages/Dashboard.jsx:90-106 | dates D−5, D−2, D−1, D give 3 |
| Dashboard.PersonalBest | frontend_fitness/src/pages/Dashboard.jsx:108 | the fold from 0 is non-negative, at least every log's steps, and 0 or some log's steps |
| Dashboard.PersonalBestIsMaximum | frontend_fitness/src/pages/Dashboard.jsx:108 | with non-negative steps and at least one log, it is the maximum steps value |
| Dashboard.Average | frontend_fitness/src/pages/Dashboard.jsx:310 | sum divided by (length or 1): 0 when there are no values |
| Dashboard.SumBounds | frontend_fitness/src/pages/Dashboard.jsx:310 | n values in [lo, hi] sum to between n·lo and n·hi |
| Dashboard.AverageBetween | frontend_fitness/src/pages/Dashboard.jsx:310-318 | the average of values in [lo, hi] is in [lo, hi] |
| Dashboard.WeeklyAveragesNoLogs | frontend_fitness/src/pages/Dashboard.jsx:310-318 | all three weekly averages are 0 without logs |
| Dashboard.WeeklyAvgSleepBetween | frontend_fitness/src/pages/Dashboard.jsx:310 | the weekly sleep average lies between bounds of the last seven logs' sleep |
| Dashboard.WeeklyAvgCaloriesBetween | frontend_fitness/src/pages/Dashboard.jsx:314 | the weekly calories average lies between bounds of the last seven logs' calories |
| Dashboard.WeeklyAvgStepsBetween | frontend_fitness/src/pages/Dashboard.jsx:318 | the weekly steps average lies between bounds of the last seven logs' steps |
| Training.RowScore | ml_service/train_model.py:108-139 | the synthetic score lies in [30, 100], and is 100 exactly when all three bands are at their best |
| Training.MissingCellScoresLowest | ml_service/train_model.py:113-137 | a NaN cell gets the 10-point band of its column; an all-NaN row scores 30 |
| Training.ExampleRowScores100 | ml_service/train_model.py:113-137 | (10000, 8, 2000) scores 100 |
| Training.CalculateHealthScore | ml_service/train_model.py:101-141 | one score per row, in row order, each the row's score and in [30, 100] |
| Training.StripLeft | ml_service/train_model.py:46 | drops only leading whitespace and leaves a name starting with a non-space |
| Training.StripRight | ml_service/train_model.py:46 | drops only trailing whitespace and leaves a name ending with a non-space |
| Training.Strip | ml_service/train_model.py:46 | `strip()` leaves no whitespace at either end |
| Training.StripCutsOnlyEdgeSpace | ml_service/train_model.py:46 | `strip()` returns a slice s[i..j] of the name where everything before i and from j on is whitespace |
| Training.Underscore | ml_service/train_model.py:46 | `replace(' ', '_')` changes exactly the spaces, position by position |
| Training.LowerKeepsSpaceStatus | ml_service/train_model.py:46 | lower-casing neither creates nor removes whitespace |
| Training.CleanChars | ml_service/train_model.py:46 | after lower and replace, no character is a space or an upper-case letter |
| Training.NormaliseColumnChars | ml_service/train_model.py:46 | a normalised name has no space and no upper-case ASCII letter |
| Training.EdgeCharStaysNonSpace | ml_service/train_model.py:46 | a non-whitespace character stays non-whitespace through lower and replace |
| Training.CleanEdges | ml_service/train_model.py:46 | lower-casing and replacing spaces keep a name free of edge whitespace |
| Training.NormaliseColumnEdges | ml_service/train_model.py:46 | a normalised name has no whitespace at either end |
| Training.StripNoEdgeSpace | ml_service/train_model.py:46 | strip leaves a name without edge whitespace unchanged |
| Training.NormaliseColumnIdempotent | ml_service/train_model.py:46 | normalising twice is normalising once |
| Training.Lookup | ml_service/train_model.py:49-60 | the dictionary lookup: none exactly when no key matches, otherwise the value of a matching pair |
| Training.LookupFirst | ml_service/train_model.py:49-60 | the lookup returns the value of the first matching key |
| Training.CanonicalCases | ml_service/train_model.py:49-63 | aliases end as steps, sleep_hours or calories; every other name is untouched |
| Training.CanonicalOfTotalSteps | ml_service/train_model.py:50 | totalsteps becomes steps |
| Training.CanonicalOfTotalCalories | ml_service/train_model.py:55 | total_calories becomes calories |
| Training.CanonicalOfSleepTime | ml_service/train_model.py:58 | sleep_time becomes sleep_hours |
| Training.CanonicalOfSteps | ml_service/train_model.py:49-60 | steps is no alias and stays steps |
| Training.RenameAll | ml_service/train_model.py:62-63 | `rename(columns={a: b})` renames every column named a, and only those |
| Training.TargetsStay | ml_service/train_model.py:61-63 | once a name is a feature column, later renames leave it alone |
| Training.ThroughAllIsCanonical | ml_service/train_model.py:61-63 | the ten renames applied in order agree with a single lookup |
| Training.ApplyAliases | ml_service/train_model.py:61-63 | the in-place rename loop maps every column to its canonical name and leaves non-aliases untouched |
| Training.MissingFeaturesMembers | ml_service/train_model.py:74 | a name is reported missing exactly when it is a feature column absent from the columns |
| Training.NormalisedColumns | ml_service/train_model.py:46 | every column name normalised, position by position |
| Training.CanonicalColumns | ml_service/train_model.py:46-63 | every column name normalised and then aliased, position by position |
| Training.StillMissingEmpty | ml_service/train_model.py:74-75 | nothing is missing exactly when steps and calories are present |
| Training.MissingAfterSleepAdded | ml_service/train_model.py:66-76 | once sleep_hours is added, the check reports exactly the missing steps and calories |
| Training.CheckColumns | ml_service/train_model.py:66-76 | ready exactly when steps and calories are present, with sleep_hours appended if absent; otherwise the error lists the missing ones among steps and calories |
| Training.PrepareColumns | ml_service/train_model.py:46-76 | normalise, rename in place, then check: the result of `CheckColumns` on the canonical names |
| Training.PreparedColumnsComplete | ml_service/train_model.py:66-76 | when ready, all three feature columns are present; the error never names sleep_hours |
| ScoreAgreement.SameScore | ml_service/train_model.py:113-137 | the training score of a log's values equals the dashboard score (frontend_fitness/src/pages/Dashboard.jsx:73-86) |
| ScoreAgreement.WeeklyScoresAreTrainingScores | frontend_fitness/src/pages/Dashboard.jsx:69-88 | each weekly score is the trainer's score of the same log |
| ScoreAgreement.LevelsFollowDashboardBands | ml_service/app.py:63-137 | the Activity, Sleep and Nutrition levels follow the dashboard's score bands |
| MlService.LastDot | ml_service/app.py:33 | the position of the last '.': none exactly when there is no '.' |
| MlService.AllowedFileIff | ml_service/app.py:32-33 | accepted exactly when the name ends in '.' and three characters that lower-case to "csv" |
| MlService.AllowedFileAcceptsUpperCase | ml_service/app.py:32-33 | "Fitbit.CSV" is accepted |
| MlService.AllowedFileRejectsLaterExtension | ml_service/app.py:32-33 | "data.csv.txt" is rejected |
| MlService.Trunc | ml_service/app.py:140 | `int()` truncates toward zero: within one unit, never past zero |
| MlService.Clamp | ml_service/app.py:253 | the clamped score lies in [0, 100]; values inside are kept and values outside go to the nearer bound |
| MlService.TruncOfClampInRange | ml_service/app.py:253 | the truncated clamped score is an integer in [0, 100] |
| MlService.SuggestionsFollowThresholds | ml_service/app.py:59-166 | exactly four entries Activity, Sleep, Nutrition, Overall; each level follows its thresholds (both directions); only Overall has a score, the truncated health score, with success at ≥ 60, warning in [40, 60) and urgent below 40 |
| MlService.GenerateSuggestions | ml_service/app.py:59-166 | the successive appends build exactly `Suggestions` |
| MlService.Predict | ml_service/app.py:220-273 | 400 with its message when no model is loaded; 400 with its message when a field is missing; otherwise 200 with suggestions from the clamped prediction, `based_on` with date default "today", and model name default "Unknown" |
| MlService.PredictedScoreInRange | ml_service/app.py:253-261 | whatever the model predicts, the Overall score sent back lies in [0, 100] |
| AiProxy.GetAISuggestion | backend_fitness/controllers/aiController.js:5-55 | the ML service is called exactly when the user has a log, with the metrics of a latest log; no log → 404 without a call; success → suggestions, model and based_on relayed; success false → 500 with its error or "ML service error"; anything thrown → 500 with its message or "Internal server error" |
| AiProxy.StatusCases | backend_fitness/controllers/aiController.js:19-54 | the status is 200, 404 or 500, and 404 exactly when the read succeeded and no call was made |
| AiProxy.StatusText | backend_fitness/controllers/aiController.js:30-34 | a status code is written as three characters '0'..'9' whose decimal value is the status |
| AiProxy.Post | backend_fitness/controllers/aiController.js:30-34 | the HTTP client returns the reply exactly for 2xx statuses and throws otherwise |
| AiProxy.MlRejectionBecomesClientError | backend_fitness/controllers/aiController.js:30-54 | a 400 from the ML service reaches the catch branch: 500 with the client's message, not the service's error |
| SuggestionModal.FindOverall | frontend_fitness/src/components/AISuggestionModal.jsx:33 | none exactly when no entry is Overall; otherwise the first Overall entry |
| SuggestionModal.OtherSuggestions | frontend_fitness/src/components/AISuggestionModal.jsx:34 | exactly the non-Overall entries |
| SuggestionModal.PartitionCount | frontend_fitness/src/components/AISuggestionModal.jsx:33-34 | others plus Overall entries make up every entry |
| SuggestionModal.OthersDistribute | frontend_fitness/src/components/AISuggestionModal.jsx:34 | `filter` distributes over concatenation, so the others keep their original order |
| SuggestionModal.OthersOfNoOverall | frontend_fitness/src/components/AISuggestionModal.jsx:34 | a list without Overall entries is kept whole |
| SuggestionModal.FindSkipsPrefix | frontend_fitness/src/components/AISuggestionModal.jsx:33 | entries before the first Overall one do not affect `find` |
| SuggestionModal.Modal | frontend_fitness/src/components/AISuggestionModal.jsx:5-34 | nothing exactly when not shown or no response; an absent list gives no headline and no others |
| SuggestionModal.StandardListHeadline | frontend_fitness/src/components/AISuggestionModal.jsx:33 | on the ML service's four-entry list `find` picks the fourth entry |
| SuggestionModal.StandardListOthers | frontend_fitness/src/components/AISuggestionModal.jsx:34 | on the ML service's four-entry list `filter` keeps the first three in order |
| SuggestionModal.StandardListView | frontend_fitness/src/components/AISuggestionModal.jsx:33-34 | on the ML service's four-entry list the headline is the fourth entry and the others the first three in order |
| SuggestionModal.LevelColor | frontend_fitness/src/components/AISuggestionModal.jsx:20-31 | success, warning and urgent each have their own colour (both directions); every other level is the default blue |
| SuggestionModal.LevelIcon | frontend_fitness/src/components/AISuggestionModal.jsx:7-18 | check mark for success, warning triangle in two tones for warning and urgent, info icon for every other level |
| SuggestionModal.InfoIsDefault | frontend_fitness/src/components/AISuggestionModal.jsx:7-31 | the `info` level gets the default colour and the info icon |
| HealthTypes.OrDefault | backend_fitness/controllers/aiController.js:46-52 | `text \|\| fallback`: the text unless it is absent or empty |
| HealthTypes.Lower | ml_service/train_model.py:46 | every character lower-cased, position by position |
| HealthStore.Entry | backend_fitness/controllers/healthController.js:86 | reference definition: the columns `id, steps, sleep_hours, calories, log_date` of a row |
| HealthStore.OnDay | backend_fitness/controllers/healthController.js:28 | reference definition: the row belongs to the user and is dated on the day |
| HealthStore.RowsOn | backend_fitness/controllers/healthController.js:27-30 | reference definition of the SELECT of today's rows, in table order; never more rows than the table |
| HealthStore.NewestFirst | backend_fitness/controllers/healthController.js:85-89 | reference definition: the user's rows sorted newest first |
| HealthStore.LimitOf | backend_fitness/controllers/healthController.js:83-91 | reference definition: `limit` defaults to 30; a non-numeric or negative `LIMIT` is an SQL error |
| HealthStore.RecentLogs | backend_fitness/controllers/healthController.js:83-97 | reference definition: the newest `limit` rows of the user, reversed to oldest first |
| HealthStore.SumSteps | backend_fitness/controllers/healthController.js:151 | reference definition: the total steps of the window |
| HealthStore.SumSleep | backend_fitness/controllers/healthController.js:152 | reference definition: the total sleep hours of the window |
| HealthStore.SumCalories | backend_fitness/controllers/healthController.js:153 | reference definition: the total calories of the window |
| HealthStore.Mean | backend_fitness/controllers/healthController.js:151-153 | reference definition: `AVG` is the total divided by the number of rows |
| HealthStore.Aggregate | backend_fitness/controllers/healthController.js:150-156 | reference definition: AVG, MAX, MIN and COUNT, with SQL NULL for an empty window |
| HealthStore.DaysOf | backend_fitness/controllers/healthController.js:147-159 | reference definition: `days` defaults to 7; a non-numeric `INTERVAL` is an SQL error, a negative one is valid |
| Dashboard.StepsPoints | frontend_fitness/src/pages/Dashboard.jsx:73-77 | reference definition: 40 from 10000 steps, 30 from 7000, 20 from 5000, else 10 |
| Dashboard.SleepPoints | frontend_fitness/src/pages/Dashboard.jsx:78-81 | reference definition: 30 in [7, 9] hours, 20 in [6, 10], else 10 |
| Dashboard.CaloriesPoints | frontend_fitness/src/pages/Dashboard.jsx:82-85 | reference definition: 30 in [1800, 2200], 20 in [1500, 2500], else 10 |
| Dashboard.Optimal | frontend_fitness/src/pages/Dashboard.jsx:74-85 | reference definition: all three values in their top band |
| Dashboard.Walk | frontend_fitness/src/pages/Dashboard.jsx:92-105 | reference definition of the backward walk: a gap over one day stops, a gap of one day counts, any other gap is skipped |
| Dashboard.StreakOf | frontend_fitness/src/pages/Dashboard.jsx:90-106 | reference definition: 0 without logs, otherwise 1 plus the walk from the newest log |
| Dashboard.Sum | frontend_fitness/src/pages/Dashboard.jsx:310 | reference definition: the `reduce` sum from 0 |
| Dashboard.WeeklyAvgSleep | frontend_fitness/src/pages/Dashboard.jsx:310 | reference definition: the sleep average of `slice(-7)` |
| Dashboard.WeeklyAvgCalories | frontend_fitness/src/pages/Dashboard.jsx:314 | reference definition: the calories average of `slice(-7)` |
| Dashboard.WeeklyAvgSteps | frontend_fitness/src/pages/Dashboard.jsx:318 | reference definition: the steps average of `slice(-7)` |
| Training.StepsBand | ml_service/train_model.py:113-121 | reference definition: 40, 30, 20 or 10 points; a NaN cell gets 10 |
| Training.SleepBand | ml_service/train_model.py:123-129 | reference definition: 30, 20 or 10 points; a NaN cell gets 10 |
| Training.CaloriesBand | ml_service/train_model.py:131-137 | reference definition: 30, 20 or 10 points; a NaN cell gets 10 |
| Training.IsSpace | ml_service/train_model.py:46 | reference definition: the characters Python's `isspace` accepts, which `strip()` removes |
| Training.NormaliseColumn | ml_service/train_model.py:46 | reference definition: strip, then lower, then spaces to underscores |
| Training.Canonical | ml_service/train_model.py:49-63 | reference definition: a name's alias target, or the name itself when it is no alias |
| Training.Through | ml_service/train_model.py:61-63 | reference definition: one name taken through the first k renames, in `column_map` order |
| Training.MissingFeatures | ml_service/train_model.py:74 | reference definition: the feature columns absent from the columns, in feature order |
| Training.StillMissing | ml_service/train_model.py:66-76 | reference definition: the missing ones among steps and calories, since sleep_hours is added when absent |
| MlService.AllowedFile | ml_service/app.py:32-33 | reference definition: a '.' exists and the text after the last one lower-cases to `csv` |
| MlService.ActivityLevel | ml_service/app.py:64-84 | reference definition: urgent below 5000 steps, warning below 7000, else success |
| MlService.SleepLevel | ml_service/app.py:87-114 | reference definition: urgent below 6 hours, warning below 7, success up to 9, else info |
| MlService.NutritionLevel | ml_service/app.py:117-137 | reference definition: warning below 1500 or above 2500 calories, else success |
| MlService.OverallLevel | ml_service/app.py:140-164 | reference definition: success from 60 (both branches from 80 and from 60), warning from 40, else urgent |
| MlService.Suggestions | ml_service/app.py:59-166 | reference definition: the four entries in category order; only Overall has a score |
| MlService.HasRequiredFields | ml_service/app.py:234-235 | reference definition: all three required keys are present |
| SuggestionModal.CountOverall | frontend_fitness/src/components/AISuggestionModal.jsx:33-34 | reference definition: the number of Overall entries |

## Left out

- User interface, styling, routing, authentication, browser storage and the HTTP wrappers are not modelled. React rendering, toasts, the forms, `theme.js`, `tailwind.config.js`, `server.js`, the route files, `auth.js` and `healthApi.js` hold no decision logic.
- The sklearn pipeline is not modelled, for the same reason as floating-point numerics and foreign libraries. This covers training, the scaler, `model.predict`, the z-score outlier filter, `fillna` medians, joblib and `load_model`. `Predict` takes the model as a function parameter.
- The random synthetic `sleep_hours` values (train_model.py:68) are not modelled. Only the column's presence afterwards is.
- Message and tip texts of the suggestions are not modelled, nor is `toFixed`/`toLocaleString` formatting. Categories, levels and scores are.
- Dates and time zones are day numbers. `toISOString` (UTC) versus `CURDATE()` and millisecond `Date` arithmetic are not modelled. The INSERT's default `log_date` is taken to be today.
- Concurrent requests are not modelled. Requests are applied one after another, so the read-then-write race of the upsert is left out.
- The backend's catch branches for thrown database errors are not modelled, except in getAISuggestion. Those are the 500 responses of addHealthLog, getLatestLog and getHealthStats. `GetHealthLogs` models only the SQL error of a non-numeric or negative `limit`, and `HealthStats` only that of a non-numeric `days`; a negative `days` is valid SQL and is modelled as valid.
- MySQL `AVG` returns a rounded decimal; the model uses exact real averages.
- AddLog: a `null` or non-numeric field is not modelled, because the submission's fields are numbers or absent. In the code `null` passes the `undefined` check, and strings are compared after coercion.
- Predict: non-number JSON values are not modelled: numbers are reals and absent keys are `None`. In the code `null` and non-numeric strings make `float()` throw (500). A numeric string is accepted as its number, except that `int()` rejects a decimal string such as "5000.5" (500) where the number 5000.5 gives 200. The rows the backend forwards can arrive as such strings. A `model_info` without `model_name` (a `KeyError`) is not modelled.
- Lower: only ASCII letters are lower-cased. Python's `lower()` also lower-cases other scripts. For `allowed_file` the result is the same, since no non-ASCII character lower-cases to 'c', 's' or 'v'.
- GetAISuggestion: when several rows share the latest date, the model sends the first in table order. MySQL leaves the order among ties unspecified.
- GetHealthLogs: rows with equal `log_date` are ordered by the model in table order (a stable sort), which also fixes which of them `LIMIT` keeps; `ORDER BY log_date DESC` leaves both unspecified. The same holds for `RecentLogs`.
- LatestLog: among rows sharing the latest date the model returns the first in table order; `LIMIT 1` after `ORDER BY log_date DESC` may return any of them.
- AddLog: the 200 reply carries the id of the first of today's rows in table order; the SELECT at healthController.js:27-30 has no `ORDER BY`, so with several such rows the database may return another one first.
- CalculateHealthScore: a CSV holding two columns that map to the same feature (say `Steps` and `TotalSteps`) is not modelled. The rename at train_model.py:61-63 then yields two `steps` columns, `PrepareColumns` correctly reports them ready, but `row['steps']` becomes a Series and the comparison at train_model.py:114 raises; a `FeatureRow` holds one cell per feature and cannot express that error.
- GetAISuggestion: the backend's `response.data.error` branch (aiController.js:43-47) is reached only by a 2xx reply with `success` false. The HTTP client (axios) throws on any non-2xx status (aiController.js:30-34), so `predict`'s 400 replies reach the catch branch and answer 500 with the client's own message (`AiProxy.MlRejectionBecomesClientError`).
