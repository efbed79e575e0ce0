/** The answer handler of src/quizModes/CategoryMatch.jsx: the player picks
    a style for the wine on screen. */
module CategoryMatchMode {
  import opened Wrappers
  import opened Seqs
  import opened Catalog
  import opened Questions
  import QuizEngine

  /** `options.find(o => o.isCorrect)`: the first option marked correct. */
  function FindCorrect(options: seq<StyleOption>): (r: Option<StyleOption>)
    ensures r.Some? ==> r.value in options && r.value.isCorrect
    ensures r.None? ==> forall o :: o in options ==> !o.isCorrect
  {
    if |options| == 0 then None
    else if options[0].isCorrect then Some(options[0])
    else FindCorrect(options[1..])
  }

  /** `${found?.name}`: a template renders a missing option as "undefined". */
  function NameOf(found: Option<StyleOption>): string {
    match found
    case Some(o) => o.name
    case None => "undefined"
  }

  /** `handleSelect`: ignored while feedback is shown; otherwise the option's
      own flag grades the answer, and the progress goes to the question's
      wine and that wine's style, not to the style that was picked. */
  function HandleSelect(q: Question, option: StyleOption, showFeedback: bool): (r: Option<Report>)
    requires q.CategoryMatchQ?
    ensures r.None? <==> showFeedback
    ensures r.Some? ==> && r.value.answer == Picked(option.id)
                        && r.value.isCorrect == option.isCorrect
                        && r.value.details.wineName == Some(q.wine.name)
                        && r.value.details.categoryId == Some(q.wine.styleId)
                        && r.value.details.selectedCategory == Some(option.id)
    ensures r.Some? && option.isCorrect ==>
              r.value.details.explanation == q.wine.name + " is indeed a " + option.name + "."
    ensures r.Some? && !option.isCorrect ==>
              r.value.details.explanation == q.wine.name + " is actually a " + NameOf(FindCorrect(q.styleOptions)) + "."
  {
    if showFeedback then None
    else
      var explanation :=
        if option.isCorrect then q.wine.name + " is indeed a " + option.name + "."
        else q.wine.name + " is actually a " + NameOf(FindCorrect(q.styleOptions)) + ".";
      Some(Report(Picked(option.id), option.isCorrect,
                  Details(Some(q.wine.name), Some(q.wine.styleId), Some(option.id), explanation)))
  }

  /** With exactly one option marked correct, whose id is the answer, a pick
      is graded correct exactly when its id is the answer, and a wrong pick's
      explanation names the option carrying the answer. */
  lemma Grading(q: Question, option: StyleOption)
    requires q.CategoryMatchQ?
    requires QuizEngine.OneCorrect(q.styleOptions, q.correctAnswer)
    requires option in q.styleOptions
    ensures HandleSelect(q, option, false).value.isCorrect <==> option.id == q.correctAnswer
    ensures FindCorrect(q.styleOptions).Some? && FindCorrect(q.styleOptions).value.id == q.correctAnswer
  {
    CountPositive(q.styleOptions, QuizEngine.IsCorrectStyle);
  }

  /** For a generated question, a pick is correct exactly when it names the
      wine's own style. */
  lemma GeneratedGrading(allWines: seq<TaggedWine>, allStyles: seq<Style>, optionCount: QuizEngine.OptionCount,
                         d: QuizEngine.Draws, option: StyleOption)
    ensures var r := QuizEngine.GenerateCategoryMatch(allWines, allStyles, optionCount, d);
            r.Some? && option in r.value.styleOptions ==>
              (HandleSelect(r.value, option, false).value.isCorrect <==> option.id == r.value.wine.styleId)
  {
    var r := QuizEngine.GenerateCategoryMatch(allWines, allStyles, optionCount, d);
    if r.Some? && option in r.value.styleOptions {
      Grading(r.value, option);
    }
  }
}
