/** What the AI-suggestion modal derives from the response it is given: whether
    it shows at all, the Overall entry shown as the headline, the other entries
    listed below it in order, and the colour and icon of each level. */
module SuggestionModal {
  import opened HealthTypes

  /** The response object the modal receives; `suggestions` may be absent. */
  datatype AiResponse = AiResponse(suggestions: Option<seq<Suggestion>>)

  /** What the modal lays out: the headline entry (if any) and the others. */
  datatype View = View(overall: Option<Suggestion>, others: seq<Suggestion>)

  /** `list.find(s => s.category === 'Overall')`: the first Overall entry. */
  function FindOverall(s: seq<Suggestion>): (r: Option<Suggestion>)
    ensures r.None? <==> forall i :: 0 <= i < |s| ==> s[i].category != Overall
    ensures r.Some? ==> exists i :: (0 <= i < |s| && s[i] == r.value && r.value.category == Overall
      && forall j :: 0 <= j < i ==> s[j].category != Overall)
  {
    if s == [] then None
    else if s[0].category == Overall then Some(s[0])
    else
      var r := FindOverall(s[1..]);
      assert forall j :: 1 <= j < |s| ==> s[j] == s[1..][j - 1];
      r
  }

  /** `list.filter(s => s.category !== 'Overall')` */
  function OtherSuggestions(s: seq<Suggestion>): (r: seq<Suggestion>)
    ensures forall x :: x in r <==> x in s && x.category != Overall
    ensures |r| <= |s|
  {
    if s == [] then []
    else if s[0].category == Overall then OtherSuggestions(s[1..])
    else [s[0]] + OtherSuggestions(s[1..])
  }

  function CountOverall(s: seq<Suggestion>): nat
  {
    if s == [] then 0 else (if s[0].category == Overall then 1 else 0) + CountOverall(s[1..])
  }

  /** Every entry is either among the others or an Overall entry. */
  lemma {:induction false} PartitionCount(s: seq<Suggestion>)
    ensures |OtherSuggestions(s)| + CountOverall(s) == |s|
  {
    if s != [] {
      PartitionCount(s[1..]);
    }
  }

  /** The others of a concatenation are the others of each part, in order. */
  lemma {:induction false} OthersDistribute(a: seq<Suggestion>, b: seq<Suggestion>)
    ensures OtherSuggestions(a + b) == OtherSuggestions(a) + OtherSuggestions(b)
  {
    if a == [] {
      assert a + b == b;
    } else {
      assert (a + b)[1..] == a[1..] + b;
      OthersDistribute(a[1..], b);
    }
  }

  /** The modal: nothing unless shown with a response; an absent list gives no
      headline and no others. */
  function Modal(show: bool, response: Option<AiResponse>): (r: Option<View>)
    ensures r.None? <==> !show || response.None?
    ensures r.Some? && response.value.suggestions.None? ==> r.value == View(None, [])
    ensures r.Some? && response.value.suggestions.Some? ==>
      r.value == View(FindOverall(response.value.suggestions.value), OtherSuggestions(response.value.suggestions.value))
  {
    if !show || response.None? then None
    else
      match response.value.suggestions
      case None => Some(View(None, []))
      case Some(list) => Some(View(FindOverall(list), OtherSuggestions(list)))
  }

  /** A list without Overall entries is kept whole. */
  lemma {:induction false} OthersOfNoOverall(s: seq<Suggestion>)
    requires forall i :: 0 <= i < |s| ==> s[i].category != Overall
    ensures OtherSuggestions(s) == s
  {
    if s != [] {
      assert forall i :: 0 <= i < |s| - 1 ==> s[1..][i] == s[i + 1];
      OthersOfNoOverall(s[1..]);
    }
  }

  /** Entries before the first Overall one do not change what `find` returns. */
  lemma {:induction false} FindSkipsPrefix(a: seq<Suggestion>, b: seq<Suggestion>)
    requires forall i :: 0 <= i < |a| ==> a[i].category != Overall
    ensures FindOverall(a + b) == FindOverall(b)
  {
    if a == [] {
      assert a + b == b;
    } else {
      assert (a + b)[1..] == a[1..] + b;
      assert forall i :: 0 <= i < |a| - 1 ==> a[1..][i] == a[i + 1];
      FindSkipsPrefix(a[1..], b);
    }
  }

  /** On the ML service's four-entry list, `find` picks the fourth entry. */
  lemma StandardListHeadline(s: seq<Suggestion>)
    requires StandardCategories(s)
    ensures FindOverall(s) == Some(s[3])
  {
    var head := s[..3];
    assert Activity != Overall && Sleep != Overall && Nutrition != Overall;
    assert forall i :: 0 <= i < 3 ==> head[i].category != Overall;
    assert s == head + [s[3]];
    FindSkipsPrefix(head, [s[3]]);
    assert FindOverall([s[3]]) == Some(s[3]);
  }

  /** On the ML service's four-entry list, `filter` keeps the first three, in order. */
  lemma StandardListOthers(s: seq<Suggestion>)
    requires StandardCategories(s)
    ensures OtherSuggestions(s) == s[..3]
  {
    var head := s[..3];
    assert Activity != Overall && Sleep != Overall && Nutrition != Overall;
    assert forall i :: 0 <= i < 3 ==> head[i].category != Overall;
    assert s == head + [s[3]];
    OthersDistribute(head, [s[3]]);
    OthersOfNoOverall(head);
    assert OtherSuggestions([s[3]]) == [];
  }

  /** So the modal shows the fourth entry as the headline and the first three below it. */
  lemma StandardListView(s: seq<Suggestion>)
    requires StandardCategories(s)
    ensures Modal(true, Some(AiResponse(Some(s)))) == Some(View(Some(s[3]), s[..3]))
  {
    StandardListHeadline(s);
    StandardListOthers(s);
  }

  // ---------------------------------------------------------------------
  // getLevelColor, getLevelIcon
  // ---------------------------------------------------------------------

  const SuccessColor := "from-green-500 to-emerald-500"
  const WarningColor := "from-yellow-500 to-orange-500"
  const UrgentColor := "from-red-500 to-pink-500"
  const DefaultColor := "from-blue-500 to-cyan-500"

  /** The three known levels have their own colours; any other level is blue. */
  function LevelColor(level: string): (c: string)
    ensures level == LevelSuccess <==> c == SuccessColor
    ensures level == LevelWarning <==> c == WarningColor
    ensures level == LevelUrgent <==> c == UrgentColor
    ensures level !in {LevelSuccess, LevelWarning, LevelUrgent} <==> c == DefaultColor
  {
    if level == LevelSuccess then SuccessColor
    else if level == LevelWarning then WarningColor
    else if level == LevelUrgent then UrgentColor
    else DefaultColor
  }

  /** An icon and its colour class. */
  datatype Icon = Icon(glyph: string, tone: string)

  /** Success has a check mark; warning and urgent share the warning triangle in
      different tones; every other level gets the info icon. */
  function LevelIcon(level: string): (i: Icon)
    ensures level == LevelSuccess <==> i == Icon("FaCheckCircle", "text-fitness-success")
    ensures level == LevelWarning <==> i == Icon("FaExclamationTriangle", "text-fitness-warning")
    ensures level == LevelUrgent <==> i == Icon("FaExclamationTriangle", "text-fitness-danger")
    ensures level !in {LevelSuccess, LevelWarning, LevelUrgent} <==> i == Icon("FaInfoCircle", "text-fitness-info")
  {
    if level == LevelSuccess then Icon("FaCheckCircle", "text-fitness-success")
    else if level == LevelWarning then Icon("FaExclamationTriangle", "text-fitness-warning")
    else if level == LevelUrgent then Icon("FaExclamationTriangle", "text-fitness-danger")
    else Icon("FaInfoCircle", "text-fitness-info")
  }

  /** The `info` level of oversleeping is shown in the default blue with the info icon. */
  lemma InfoIsDefault()
    ensures LevelColor(LevelInfo) == DefaultColor && LevelIcon(LevelInfo).glyph == "FaInfoCircle"
  {
  }
}
