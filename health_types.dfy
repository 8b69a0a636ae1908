/** Records that travel between the components of the fitness tracker: the
    health-log entry the REST API returns, the suggestion records the ML
    service produces, and the small wrappers used for absent values and
    thrown errors. */
module HealthTypes {

  datatype Option<+T> = None | Some(value: T) {
    function GetOr(default: T): T
    {
      match this
      case Some(v) => v
      case None => default
    }
  }

  /** The outcome of a call that may throw: its value, or the thrown error's message. */
  datatype Outcome<+T> = Done(value: T) | Thrown(message: string)

  /** JavaScript's `text || fallback` on a string: the empty string is falsy. */
  function OrDefault(text: Option<string>, fallback: string): (r: string)
    ensures text.Some? && text.value != "" ==> r == text.value
    ensures text.None? || text.value == "" ==> r == fallback
  {
    if text.Some? && text.value != "" then text.value else fallback
  }

  /** A health log as the API returns it: `{id, steps, sleep_hours, calories, log_date}`.
      Dates are day numbers. */
  datatype LogEntry = LogEntry(id: nat, steps: int, sleepHours: real, calories: int, logDate: int)

  /** The metrics sent to the ML service: `{steps, sleep_hours, calories}`. */
  datatype Metrics = Metrics(steps: int, sleepHours: real, calories: int)

  /** One suggestion of the ML service: `{category, level, score?}`.
      The message and tip texts are not modelled. */
  datatype Suggestion = Suggestion(category: string, level: string, score: Option<int>)

  /** The `based_on` record of a prediction. */
  datatype BasedOn = BasedOn(steps: int, sleepHours: real, calories: int, date: string)

  const Activity := "Activity"
  const Sleep := "Sleep"
  const Nutrition := "Nutrition"
  const Overall := "Overall"

  const LevelSuccess := "success"
  const LevelWarning := "warning"
  const LevelUrgent := "urgent"
  const LevelInfo := "info"

  /** The shape of every list the ML service produces: Activity, Sleep,
      Nutrition and Overall, in that order. */
  predicate StandardCategories(s: seq<Suggestion>)
  {
    |s| == 4
    && s[0].category == Activity && s[1].category == Sleep
    && s[2].category == Nutrition && s[3].category == Overall
  }

  /** Python's `str.lower()` on one character, for the ASCII letters. */
  function LowerChar(c: char): char
  {
    if 'A' <= c <= 'Z' then (c as int + 32) as char else c
  }

  /** `str.lower()` on ASCII letters. */
  function Lower(s: string): (r: string)
    ensures |r| == |s| && forall i :: 0 <= i < |s| ==> r[i] == LowerChar(s[i])
  {
    seq(|s|, i requires 0 <= i < |s| => LowerChar(s[i]))
  }

  /** A total bounded by m·lo and m·hi, divided by m > 0, lies in [lo, hi]. */
  lemma DivideBetween(s: real, m: real, lo: real, hi: real)
    requires m > 0.0 && m * lo <= s <= m * hi
    ensures lo <= s / m <= hi
  {
    var q := s / m;
    assert q * m == s;
    assert lo * m <= q * m <= hi * m;
  }

  function Min(a: int, b: int): int { if a <= b then a else b }

  function Max(a: int, b: int): int { if a >= b then a else b }
}
