/** The answer handler of src/quizModes/DescriptionMatch.jsx: the player
    picks the style a description belongs to. */
module DescriptionMatchMode {
  import opened Wrappers
  import opened Text
  import opened Catalog
  import opened Questions
  import QuizEngine

  /** `handleSelect`: ignored while feedback is shown; otherwise the option's
      own flag grades the answer. Only the question's style is reported, never
      a wine, and the explanation names that style either way. */
  function HandleSelect(q: Question, option: StyleOption, showFeedback: bool): (r: Option<Report>)
    requires q.DescriptionMatchQ?
    ensures r.None? <==> showFeedback
    ensures r.Some? ==> && r.value.answer == Picked(option.id)
                        && r.value.isCorrect == option.isCorrect
                        && r.value.details.wineName.None?
                        && r.value.details.categoryId == Some(q.style.id)
                        && r.value.details.selectedCategory.None?
                        && Contains(r.value.details.explanation, q.style.name)
  {
    if showFeedback then None
    else
      var lead := if option.isCorrect then "Correct! This describes " else "This actually describes ";
      ContainsInfix(lead, q.style.name, ".");
      Some(Report(Picked(option.id), option.isCorrect,
                  Details(None, Some(q.style.id), None, lead + q.style.name + ".")))
  }

  /** For a generated question, a pick is correct exactly when it is the
      style whose description is shown. */
  lemma GeneratedGrading(filtered: seq<Style>, allStyles: seq<Style>, optionCount: QuizEngine.OptionCount,
                         d: QuizEngine.Draws, option: StyleOption)
    ensures var r := QuizEngine.GenerateDescriptionMatch(filtered, allStyles, optionCount, d);
            r.Some? && option in r.value.styleOptions ==>
              (HandleSelect(r.value, option, false).value.isCorrect <==> option.id == r.value.style.id)
  {
  }
}
