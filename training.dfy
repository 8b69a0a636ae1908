/** The data preparation of the model trainer: the synthetic health score it
    computes for rows without one, and the clean-up of CSV column names
    (normalisation, aliasing, the synthetic sleep column and the check for the
    required feature columns). */
module Training {
  import opened HealthTypes

  // ---------------------------------------------------------------------
  // calculate_health_score
  // ---------------------------------------------------------------------

  /** A numeric CSV cell; `Missing` is pandas' NaN, which compares false with everything. */
  datatype Cell = Num(x: real) | Missing

  predicate AtLeast(c: Cell, bound: real) { c.Num? && c.x >= bound }

  predicate Within(c: Cell, lo: real, hi: real) { c.Num? && lo <= c.x <= hi }

  /** One row of the feature frame `X`. */
  datatype FeatureRow = FeatureRow(steps: Cell, sleepHours: Cell, calories: Cell)

  function StepsBand(c: Cell): int
  {
    if AtLeast(c, 10000.0) then 40
    else if AtLeast(c, 7000.0) then 30
    else if AtLeast(c, 5000.0) then 20
    else 10
  }

  function SleepBand(c: Cell): int
  {
    if Within(c, 7.0, 9.0) then 30
    else if Within(c, 6.0, 10.0) then 20
    else 10
  }

  function CaloriesBand(c: Cell): int
  {
    if Within(c, 1800.0, 2200.0) then 30
    else if Within(c, 1500.0, 2500.0) then 20
    else 10
  }

  /** The score of one row: in [30, 100]; 100 exactly when all three bands are at their best. */
  function RowScore(row: FeatureRow): (score: int)
    ensures 30 <= score <= 100
    ensures score == 100 <==>
      AtLeast(row.steps, 10000.0) && Within(row.sleepHours, 7.0, 9.0) && Within(row.calories, 1800.0, 2200.0)
  {
    StepsBand(row.steps) + SleepBand(row.sleepHours) + CaloriesBand(row.calories)
  }

  /** A NaN cell earns the lowest band of its column: 10 points. */
  lemma MissingCellScoresLowest(row: FeatureRow)
    ensures row.steps.Missing? ==> RowScore(row) == 10 + SleepBand(row.sleepHours) + CaloriesBand(row.calories)
    ensures row.sleepHours.Missing? ==> RowScore(row) == StepsBand(row.steps) + 10 + CaloriesBand(row.calories)
    ensures row.calories.Missing? ==> RowScore(row) == StepsBand(row.steps) + SleepBand(row.sleepHours) + 10
    ensures row == FeatureRow(Missing, Missing, Missing) ==> RowScore(row) == 30
  {
  }

  /** The example row (10000, 8, 2000) scores 100. */
  lemma ExampleRowScores100()
    ensures RowScore(FeatureRow(Num(10000.0), Num(8.0), Num(2000.0))) == 100
  {
  }

  /** calculate_health_score: one score per row, in row order, each in [30, 100]. */
  method CalculateHealthScore(rows: seq<FeatureRow>) returns (scores: seq<int>)
    ensures |scores| == |rows|
    ensures forall i :: 0 <= i < |rows| ==> scores[i] == RowScore(rows[i])
    ensures forall i :: 0 <= i < |scores| ==> 30 <= scores[i] <= 100
  {
    scores := [];
    var i := 0;
    while i < |rows|
      invariant 0 <= i <= |rows|
      invariant |scores| == i
      invariant forall j :: 0 <= j < i ==> scores[j] == RowScore(rows[j])
    {
      var score := 0;
      var row := rows[i];
      if AtLeast(row.steps, 10000.0) {
        score := score + 40;
      } else if AtLeast(row.steps, 7000.0) {
        score := score + 30;
      } else if AtLeast(row.steps, 5000.0) {
        score := score + 20;
      } else {
        score := score + 10;
      }
      if Within(row.sleepHours, 7.0, 9.0) {
        score := score + 30;
      } else if Within(row.sleepHours, 6.0, 10.0) {
        score := score + 20;
      } else {
        score := score + 10;
      }
      if Within(row.calories, 1800.0, 2200.0) {
        score := score + 30;
      } else if Within(row.calories, 1500.0, 2500.0) {
        score := score + 20;
      } else {
        score := score + 10;
      }
      scores := scores + [score];
      i := i + 1;
    }
  }

  // ---------------------------------------------------------------------
  // Column names: strip, lower, ' ' -> '_'
  // ---------------------------------------------------------------------

  /** Python's `str.isspace` characters, which `str.strip()` removes. */
  predicate IsSpace(c: char)
  {
    ('\t' <= c <= '\r') || ('\U{1c}' <= c <= ' ') || c == '\U{85}' || c == '\U{a0}' || c == '\U{1680}'
    || ('\U{2000}' <= c <= '\U{200a}') || c == '\U{2028}' || c == '\U{2029}' || c == '\U{202f}'
    || c == '\U{205f}' || c == '\U{3000}'
  }

  function StripLeft(s: string): (r: string)
    ensures exists i :: 0 <= i <= |s| && r == s[i..] && forall k :: 0 <= k < i ==> IsSpace(s[k])
    ensures r == [] || !IsSpace(r[0])
  {
    if s != [] && IsSpace(s[0]) then
      var r := StripLeft(s[1..]);
      ghost var i :| 0 <= i <= |s| - 1 && r == s[1..][i..] && forall k :: 0 <= k < i ==> IsSpace(s[1..][k]);
      assert r == s[i + 1..];
      r
    else
      assert s == s[0..];
      s
  }

  function StripRight(s: string): (r: string)
    ensures exists j :: 0 <= j <= |s| && r == s[..j] && forall k :: j <= k < |s| ==> IsSpace(s[k])
    ensures r == [] || !IsSpace(r[|r| - 1])
  {
    if s != [] && IsSpace(s[|s| - 1]) then
      var t := s[..|s| - 1];
      var r := StripRight(t);
      ghost var j :| 0 <= j <= |t| && r == t[..j] && forall k :: j <= k < |t| ==> IsSpace(t[k]);
      assert r == s[..j];
      r
    else
      assert s == s[..|s|];
      s
  }

  /** `str.strip()`: leaves no whitespace at either end (what it cuts off is shown below). */
  function Strip(s: string): (r: string)
    ensures r == [] || (!IsSpace(r[0]) && !IsSpace(r[|r| - 1]))
  {
    StripRight(StripLeft(s))
  }

  /** `t` is `s[i..j]`, and everything `s` has before `i` or from `j` on is whitespace. */
  predicate CutAtSpace(s: string, i: int, j: int, t: string)
  {
    0 <= i <= j <= |s| && t == s[i..j]
    && (forall k :: 0 <= k < i ==> IsSpace(s[k])) && (forall k :: j <= k < |s| ==> IsSpace(s[k]))
  }

  /** `strip()` keeps a slice of the name: what it cuts off either end is whitespace. */
  lemma StripCutsOnlyEdgeSpace(s: string)
    ensures exists i, j :: CutAtSpace(s, i, j, Strip(s))
  {
    var i := LeftCut(s);
    var j := RightCut(s[i..]);
    CutsCompose(s, i, j, Strip(s));
  }

  /** Where `lstrip()` cuts. */
  lemma LeftCut(s: string) returns (i: int)
    ensures 0 <= i <= |s| && StripLeft(s) == s[i..] && forall k :: 0 <= k < i ==> IsSpace(s[k])
  {
    i :| 0 <= i <= |s| && StripLeft(s) == s[i..] && forall k :: 0 <= k < i ==> IsSpace(s[k]);
  }

  /** Where `rstrip()` cuts. */
  lemma RightCut(s: string) returns (j: int)
    ensures 0 <= j <= |s| && StripRight(s) == s[..j] && forall k :: j <= k < |s| ==> IsSpace(s[k])
  {
    j :| 0 <= j <= |s| && StripRight(s) == s[..j] && forall k :: j <= k < |s| ==> IsSpace(s[k]);
  }

  /** Cutting whitespace off the front and then off the back is one cut of the whole. */
  lemma CutsCompose(s: string, i: int, j: int, t: string)
    requires 0 <= i <= |s| && forall k :: 0 <= k < i ==> IsSpace(s[k])
    requires 0 <= j <= |s| - i && t == s[i..][..j]
    requires forall k :: j <= k < |s[i..]| ==> IsSpace(s[i..][k])
    ensures CutAtSpace(s, i, i + j, t)
  {
    assert t == s[i..i + j];
    forall k | i + j <= k < |s|
      ensures IsSpace(s[k])
    {
      assert s[k] == s[i..][k - i];
    }
  }

  /** `str.replace(' ', '_')` */
  function Underscore(s: string): (r: string)
    ensures |r| == |s| && forall i :: 0 <= i < |s| ==> r[i] == (if s[i] == ' ' then '_' else s[i])
  {
    seq(|s|, i requires 0 <= i < |s| => if s[i] == ' ' then '_' else s[i])
  }

  /** `df.columns.str.strip().str.lower().str.replace(' ', '_')` on one name. */
  function NormaliseColumn(name: string): string
  {
    Underscore(Lower(Strip(name)))
  }

  lemma LowerKeepsSpaceStatus(c: char)
    ensures IsSpace(LowerChar(c)) <==> IsSpace(c)
  {
  }

  /** A normalised name has no space and no upper-case ASCII letter. */
  lemma NormaliseColumnChars(name: string)
    ensures ' ' !in NormaliseColumn(name)
    ensures forall i :: 0 <= i < |NormaliseColumn(name)| ==> !('A' <= NormaliseColumn(name)[i] <= 'Z')
  {
    CleanChars(Strip(name));
  }

  lemma CleanChars(t: string)
    ensures ' ' !in Underscore(Lower(t))
    ensures forall i :: 0 <= i < |t| ==> !('A' <= Underscore(Lower(t))[i] <= 'Z')
  {
    var l := Lower(t);
    var r := Underscore(l);
    forall i | 0 <= i < |t| ensures r[i] != ' ' && !('A' <= r[i] <= 'Z') {
      assert l[i] == LowerChar(t[i]);
    }
  }

  /** A character that is neither whitespace nor an upper-case letter keeps
      that status through `lower` and `replace`. */
  lemma EdgeCharStaysNonSpace(c: char)
    requires !IsSpace(c)
    ensures var u := LowerChar(c); !IsSpace(if u == ' ' then '_' else u)
  {
    LowerKeepsSpaceStatus(c);
  }

  /** `lower` and `replace` keep a name free of edge whitespace. */
  lemma CleanEdges(t: string)
    requires t == [] || (!IsSpace(t[0]) && !IsSpace(t[|t| - 1]))
    ensures var r := Underscore(Lower(t)); r == [] || (!IsSpace(r[0]) && !IsSpace(r[|r| - 1]))
  {
    if t != [] {
      var l := Lower(t);
      assert l[0] == LowerChar(t[0]) && l[|t| - 1] == LowerChar(t[|t| - 1]);
      EdgeCharStaysNonSpace(t[0]);
      EdgeCharStaysNonSpace(t[|t| - 1]);
    }
  }

  /** A normalised name has no whitespace at either end. */
  lemma NormaliseColumnEdges(name: string)
    ensures var r := NormaliseColumn(name); r == [] || (!IsSpace(r[0]) && !IsSpace(r[|r| - 1]))
  {
    CleanEdges(Strip(name));
  }

  lemma StripNoEdgeSpace(s: string)
    requires s == [] || (!IsSpace(s[0]) && !IsSpace(s[|s| - 1]))
    ensures Strip(s) == s
  {
  }

  /** Normalising a normalised name changes nothing. */
  lemma NormaliseColumnIdempotent(name: string)
    ensures NormaliseColumn(NormaliseColumn(name)) == NormaliseColumn(name)
  {
    var r := NormaliseColumn(name);
    NormaliseColumnChars(name);
    NormaliseColumnEdges(name);
    StripNoEdgeSpace(r);
    assert Lower(r) == r;
    assert Underscore(r) == r;
  }

  // ---------------------------------------------------------------------
  // Aliases: column_map and the rename loop
  // ---------------------------------------------------------------------

  const Steps := "steps"
  const SleepHours := "sleep_hours"
  const Calories := "calories"

  /** `column_map`, in its insertion order. */
  const AliasPairs: seq<(string, string)> := [
    ("totalsteps", Steps), ("total_steps", Steps), ("step_count", Steps),
    ("calories", Calories), ("calorie", Calories), ("total_calories", Calories), ("calories_burned", Calories),
    ("sleep", SleepHours), ("sleep_time", SleepHours), ("total_sleep", SleepHours)
  ]

  /** The dictionary lookup `column_map[name]`: the first pair whose source is `name`. */
  function Lookup(name: string, pairs: seq<(string, string)>): (r: Option<string>)
    ensures r.None? <==> forall i :: 0 <= i < |pairs| ==> pairs[i].0 != name
    ensures r.Some? ==> exists i :: 0 <= i < |pairs| && pairs[i] == (name, r.value)
  {
    if pairs == [] then None
    else if pairs[0].0 == name then Some(pairs[0].1)
    else
      assert forall i :: 1 <= i < |pairs| ==> pairs[i] == pairs[1..][i - 1];
      Lookup(name, pairs[1..])
  }

  lemma {:induction false} LookupFirst(name: string, pairs: seq<(string, string)>, i: nat)
    requires i < |pairs| && pairs[i].0 == name
    requires forall j :: 0 <= j < i ==> pairs[j].0 != name
    ensures Lookup(name, pairs) == Some(pairs[i].1)
  {
    if i > 0 {
      assert forall j :: 0 <= j < i - 1 ==> pairs[1..][j] == pairs[j + 1];
      LookupFirst(name, pairs[1..], i - 1);
    }
  }

  /** The name a column ends up with: its alias target, or itself when it is no alias. */
  function Canonical(name: string): string
  {
    match Lookup(name, AliasPairs)
    case Some(target) => target
    case None => name
  }

  predicate IsAlias(name: string)
  {
    exists i :: 0 <= i < |AliasPairs| && AliasPairs[i].0 == name
  }

  predicate IsTarget(name: string) { name == Steps || name == SleepHours || name == Calories }

  /** Aliases map to a feature column; every other name is kept. */
  lemma CanonicalCases(name: string)
    ensures IsAlias(name) ==> IsTarget(Canonical(name))
    ensures !IsAlias(name) ==> Canonical(name) == name
  {
  }

  /** Three aliases of the CSV exports the trainer accepts, and a name that is no alias. */
  lemma CanonicalOfTotalSteps()
    ensures Canonical("totalsteps") == Steps
  {
    LookupFirst("totalsteps", AliasPairs, 0);
  }

  lemma CanonicalOfTotalCalories()
    ensures Canonical("total_calories") == Calories
  {
    LookupFirst("total_calories", AliasPairs, 5);
  }

  lemma CanonicalOfSleepTime()
    ensures Canonical("sleep_time") == SleepHours
  {
    LookupFirst("sleep_time", AliasPairs, 8);
  }

  lemma CanonicalOfSteps()
    ensures Canonical(Steps) == Steps
  {
    assert forall i :: 0 <= i < |AliasPairs| ==> AliasPairs[i].0 != Steps;
  }

  /** `df.rename(columns={old: new})`: every column named `source` is renamed `target`. */
  function RenameAll(cols: seq<string>, source: string, target: string): (r: seq<string>)
    ensures |r| == |cols|
    ensures forall i :: 0 <= i < |cols| ==> r[i] == (if cols[i] == source then target else cols[i])
  {
    seq(|cols|, i requires 0 <= i < |cols| => if cols[i] == source then target else cols[i])
  }

  /** A name after the first `k` renames of the loop. */
  function Through(name: string, k: nat): string
    requires k <= |AliasPairs|
  {
    if k == 0 then name
    else
      var prior := Through(name, k - 1);
      if prior == AliasPairs[k - 1].0 then AliasPairs[k - 1].1 else prior
  }

  /** Once a name is a feature column, no later rename changes it: `steps` and
      `sleep_hours` are no alias and `calories` maps to itself. */
  lemma {:induction false} TargetsStay(name: string, j: nat, k: nat)
    requires j <= k <= |AliasPairs| && IsTarget(Through(name, j))
    ensures Through(name, k) == Through(name, j)
  {
    if k > j {
      TargetsStay(name, j, k - 1);
      var p := AliasPairs[k - 1];
      assert p.0 != Steps && p.0 != SleepHours && (p.0 == Calories ==> p.1 == Calories);
    }
  }

  /** The renames done one after the other agree with one dictionary lookup. */
  lemma ThroughAllIsCanonical(name: string)
    ensures Through(name, |AliasPairs|) == Canonical(name)
  {
    var i := 0;
    while i < |AliasPairs| && AliasPairs[i].0 != name
      invariant 0 <= i <= |AliasPairs|
      invariant Through(name, i) == name
      invariant forall j :: 0 <= j < i ==> AliasPairs[j].0 != name
    {
      i := i + 1;
    }
    if i < |AliasPairs| {
      LookupFirst(name, AliasPairs, i);
      assert IsTarget(AliasPairs[i].1);
      TargetsStay(name, i + 1, |AliasPairs|);
    }
  }

  /** The rename loop over `column_map`: each alias present is renamed in place. */
  method ApplyAliases(cols: seq<string>) returns (out: seq<string>)
    ensures |out| == |cols|
    ensures forall i :: 0 <= i < |cols| ==> out[i] == Canonical(cols[i])
    ensures forall i :: 0 <= i < |cols| && !IsAlias(cols[i]) ==> out[i] == cols[i]
  {
    out := cols;
    var k := 0;
    while k < |AliasPairs|
      invariant 0 <= k <= |AliasPairs|
      invariant |out| == |cols|
      invariant forall i :: 0 <= i < |cols| ==> out[i] == Through(cols[i], k)
    {
      var (source, target) := AliasPairs[k];
      if source in out {
        out := RenameAll(out, source, target);
      }
      k := k + 1;
    }
    forall i | 0 <= i < |cols| ensures out[i] == Canonical(cols[i]) {
      ThroughAllIsCanonical(cols[i]);
    }
    forall i | 0 <= i < |cols| && !IsAlias(cols[i]) ensures out[i] == cols[i] {
      CanonicalCases(cols[i]);
    }
  }

  // ---------------------------------------------------------------------
  // The synthetic sleep column and the missing-column check
  // ---------------------------------------------------------------------

  const FeatureCols: seq<string> := [Steps, SleepHours, Calories]

  /** `[col for col in feature_cols if col not in df.columns]` */
  function MissingFeatures(cols: seq<string>): seq<string>
  {
    (if Steps in cols then [] else [Steps])
    + (if SleepHours in cols then [] else [SleepHours])
    + (if Calories in cols then [] else [Calories])
  }

  /** A name is reported missing exactly when it is a feature column absent from the columns. */
  lemma MissingFeaturesMembers(cols: seq<string>, f: string)
    ensures f in MissingFeatures(cols) <==> f in FeatureCols && f !in cols
  {
  }

  /** The outcome of preparing the columns: the final column list, or the
      `ValueError` naming the missing feature columns. */
  datatype Prepared = Ready(columns: seq<string>) | MissingColumns(missing: seq<string>)

  /** `df.columns` after the clean-up of line 46. */
  function NormalisedColumns(raw: seq<string>): (c: seq<string>)
    ensures |c| == |raw| && forall i :: 0 <= i < |raw| ==> c[i] == NormaliseColumn(raw[i])
  {
    seq(|raw|, i requires 0 <= i < |raw| => NormaliseColumn(raw[i]))
  }

  /** The column names after normalisation and aliasing. */
  function CanonicalColumns(raw: seq<string>): (c: seq<string>)
    ensures |c| == |raw| && forall i :: 0 <= i < |raw| ==> c[i] == Canonical(NormaliseColumn(raw[i]))
  {
    seq(|raw|, i requires 0 <= i < |raw| => Canonical(NormaliseColumn(raw[i])))
  }

  /** The feature columns `[col for col in feature_cols if col not in columns]`
      still missing once `sleep_hours` has been added. */
  function StillMissing(cols: seq<string>): seq<string>
  {
    (if Steps in cols then [] else [Steps]) + (if Calories in cols then [] else [Calories])
  }

  lemma StillMissingEmpty(canon: seq<string>)
    ensures StillMissing(canon) == [] <==> Steps in canon && Calories in canon
  {
    if Steps !in canon {
      assert StillMissing(canon)[0] == Steps;
    } else if Calories !in canon {
      assert StillMissing(canon) == [Calories];
    }
  }

  /** After `sleep_hours` is added when absent, the feature check reports
      exactly the missing `steps` and `calories`. */
  lemma MissingAfterSleepAdded(canon: seq<string>, cols: seq<string>)
    requires cols == if SleepHours in canon then canon else canon + [SleepHours]
    ensures MissingFeatures(cols) == StillMissing(canon)
    ensures MissingFeatures(cols) == [] <==> Steps in canon && Calories in canon
  {
    assert SleepHours in cols;
    assert Steps != SleepHours && Calories != SleepHours;
    assert Steps in cols <==> Steps in canon;
    assert Calories in cols <==> Calories in canon;
    StillMissingEmpty(canon);
  }

  /** Lines 66-76 of prepare_data on the renamed columns: add `sleep_hours`
      when absent, then require `steps` and `calories`. */
  function CheckColumns(canon: seq<string>): (out: Prepared)
    ensures out.Ready? <==> Steps in canon && Calories in canon
    ensures out.Ready? ==> out.columns == canon + (if SleepHours in canon then [] else [SleepHours])
    ensures out.MissingColumns? ==> out.missing == StillMissing(canon)
  {
    var cols := if SleepHours in canon then canon else canon + [SleepHours];
    MissingAfterSleepAdded(canon, cols);
    var missing := MissingFeatures(cols);
    if missing != [] then MissingColumns(missing) else Ready(cols)
  }

  /** Column handling of prepare_data: normalise, rename the aliases in place,
      then check the feature columns. */
  method PrepareColumns(raw: seq<string>) returns (out: Prepared)
    ensures out == CheckColumns(CanonicalColumns(raw))
  {
    var names := NormalisedColumns(raw);
    var renamed := ApplyAliases(names);
    assert renamed == CanonicalColumns(raw);
    out := CheckColumns(renamed);
  }

  /** Once prepared, all three feature columns are present; otherwise the error
      names `steps` and/or `calories`, never `sleep_hours`, in feature order. */
  lemma PreparedColumnsComplete(raw: seq<string>)
    ensures var canon := CanonicalColumns(raw);
      Steps in canon && Calories in canon ==>
        forall f :: f in FeatureCols ==> f in canon + (if SleepHours in canon then [] else [SleepHours])
    ensures var m := StillMissing(CanonicalColumns(raw));
      (m == [] <==> Steps in CanonicalColumns(raw) && Calories in CanonicalColumns(raw)) && SleepHours !in m
  {
  }
}
