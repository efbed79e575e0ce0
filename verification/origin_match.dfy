/** The answer handler and flag lookup of src/quizModes/OriginMatch.jsx: the
    player picks a place the wine on screen comes from. */
module OriginMatchMode {
  import opened Wrappers
  import opened Catalog
  import opened Questions
  import QuizEngine

  /** `handleSelect`: ignored while feedback is shown; otherwise graded by
      membership of the picked place in the question's correct places (not
      by the option's flag), with the progress going to the question's wine
      and its style. */
  function HandleSelect(q: Question, option: OriginOption, showFeedback: bool): (r: Option<Report>)
    requires q.OriginMatchQ?
    ensures r.None? <==> showFeedback
    ensures r.Some? ==> && r.value.answer == Picked(option.origin)
                        && (r.value.isCorrect <==> option.origin in q.correctOrigins)
                        && r.value.details.wineName == Some(q.wine.name)
                        && r.value.details.categoryId == Some(q.wine.styleId)
                        && r.value.details.selectedCategory.None?
  {
    if showFeedback then None
    else
      var isCorrect := option.origin in q.correctOrigins;
      var explanation :=
        if isCorrect then "Correct! " + q.wine.name + " originates from " + q.wine.origin + "."
        else q.wine.name + " actually originates from " + q.wine.origin + ".";
      Some(Report(Picked(option.origin), isCorrect,
                  Details(Some(q.wine.name), Some(q.wine.styleId), None, explanation)))
  }

  /** On a generated question the membership grading agrees with the flag
      each option carries. */
  lemma GradingMatchesFlag(allWines: seq<TaggedWine>, optionCount: QuizEngine.OptionCount, d: QuizEngine.Draws,
                           option: OriginOption)
    ensures var r := QuizEngine.GenerateOriginMatch(allWines, optionCount, d);
            r.Some? && option in r.value.originOptions ==>
              HandleSelect(r.value, option, false).value.isCorrect == option.isCorrect
  {
  }

  /** A row of the flag table. */
  datatype FlagEntry = FlagEntry(country: string, flag: string)

  /** The country-to-flag table, in source order. */
  const Flags: seq<FlagEntry> := [
    FlagEntry("Spain", "\U{1F1EA}\U{1F1F8}"),
    FlagEntry("France", "\U{1F1EB}\U{1F1F7}"),
    FlagEntry("Italy", "\U{1F1EE}\U{1F1F9}"),
    FlagEntry("Germany", "\U{1F1E9}\U{1F1EA}"),
    FlagEntry("Austria", "\U{1F1E6}\U{1F1F9}"),
    FlagEntry("USA", "\U{1F1FA}\U{1F1F8}"),
    FlagEntry("Chile", "\U{1F1E8}\U{1F1F1}"),
    FlagEntry("Argentina", "\U{1F1E6}\U{1F1F7}"),
    FlagEntry("Portugal", "\U{1F1F5}\U{1F1F9}"),
    FlagEntry("Australia", "\U{1F1E6}\U{1F1FA}"),
    FlagEntry("New Zealand", "\U{1F1F3}\U{1F1FF}"),
    FlagEntry("South Africa", "\U{1F1FF}\U{1F1E6}"),
    FlagEntry("Croatia", "\U{1F1ED}\U{1F1F7}"),
    FlagEntry("Various", "\U{1F30D}")
  ]

  /** The wine glass shown for a place the table does not list. */
  const DefaultFlag: string := "\U{1F377}"

  function Countries(table: seq<FlagEntry>): (r: seq<string>)
    ensures |r| == |table|
    ensures forall i :: 0 <= i < |table| ==> r[i] == table[i].country
  {
    seq(|table|, i requires 0 <= i < |table| => table[i].country)
  }

  /** The flag of the first row for `country`, or the default. */
  function Lookup(table: seq<FlagEntry>, country: string): (r: string)
    ensures country !in Countries(table) ==> r == DefaultFlag
    ensures forall i :: 0 <= i < |table| && table[i].country == country &&
                        (forall j :: 0 <= j < i ==> table[j].country != country) ==>
                        r == table[i].flag
    ensures (forall i :: 0 <= i < |table| ==> table[i].flag != "") ==> r != ""
    decreases |table|
  {
    if |table| == 0 then DefaultFlag
    else if table[0].country == country then table[0].flag
    else
      assert Countries(table[1..]) == Countries(table)[1..];
      Lookup(table[1..], country)
  }

  /** No country is listed twice. */
  lemma FlagsDistinct()
    ensures forall i, j :: 0 <= i < j < |Flags| ==> Flags[i].country != Flags[j].country
  {
  }

  lemma FlagsNonEmpty()
    ensures forall i :: 0 <= i < |Flags| ==> Flags[i].flag != ""
  {
  }

  /** A listed country finds its own row. */
  lemma FlagFound(country: string)
    ensures forall i :: 0 <= i < |Flags| && Flags[i].country == country ==> Lookup(Flags, country) == Flags[i].flag
  {
    FlagsDistinct();
  }

  /** `getCountryFlag`: the listed flag, or the wine glass. Every listed flag
      is non-empty, so the `||` fallback only applies to unlisted places. */
  function GetCountryFlag(country: string): (r: string)
    ensures country !in Countries(Flags) ==> r == DefaultFlag
    ensures forall i :: 0 <= i < |Flags| && Flags[i].country == country ==> r == Flags[i].flag
  {
    var flag := Lookup(Flags, country);
    FlagFound(country);
    FlagsNonEmpty();
    if flag != "" then flag else DefaultFlag
  }

  /** Spot checks of the table: a listed country, the world-wide entry, and
      a place outside the table. */
  lemma FlagExamples()
    ensures GetCountryFlag("France") == "\U{1F1EB}\U{1F1F7}"
    ensures GetCountryFlag("Various") == "\U{1F30D}"
    ensures GetCountryFlag("Greece") == DefaultFlag
  {
    assert Flags[1].country == "France";
    assert Flags[13].country == "Various";
    assert "Greece" !in Countries(Flags);
  }
}
