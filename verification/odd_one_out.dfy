/** The answer handler of src/quizModes/OddOneOut.jsx: the player picks the
    wine that does not share the others' style. */
module OddOneOutMode {
  import opened Wrappers
  import opened Seqs
  import opened Catalog
  import opened Questions
  import QuizEngine

  /** `handleSelect`: ignored while feedback is shown; otherwise the option's
      `isOdd` flag grades the answer, and the progress goes to the wine that
      was clicked and its style, not to the odd wine. */
  function HandleSelect(q: Question, option: OddOption, showFeedback: bool): (r: Option<Report>)
    requires q.OddOneOutQ?
    ensures r.None? <==> showFeedback
    ensures r.Some? ==> && r.value.answer == Picked(option.name)
                        && r.value.isCorrect == option.isOdd
                        && r.value.details.wineName == Some(option.name)
                        && r.value.details.categoryId == Some(option.styleId)
                        && r.value.details.selectedCategory.None?
  {
    if showFeedback then None
    else
      var explanation :=
        if option.isOdd then
          "Correct! " + option.name + " is a " + q.oddStyle.name + ", while the others are " + q.mainStyle.name + "s."
        else
          q.oddWine + " is the odd one out - it's a " + q.oddStyle.name + ", while the others are "
          + q.mainStyle.name + "s.";
      Some(Report(Picked(option.name), option.isOdd,
                  Details(Some(option.name), Some(option.styleId), None, explanation)))
  }

  function OptionName(o: OddOption): string { o.name }

  /** With exactly one odd option, named `oddWine`, and no two options sharing
      a name, a click is correct exactly when it names the odd wine. */
  lemma Grading(q: Question, option: OddOption)
    requires q.OddOneOutQ?
    requires Count(q.oddOptions, QuizEngine.IsOdd) == 1
    requires forall o :: o in q.oddOptions && o.isOdd ==> o.name == q.oddWine
    requires UniqueBy(q.oddOptions, OptionName)
    requires option in q.oddOptions
    ensures HandleSelect(q, option, false).value.isCorrect <==> option.name == q.oddWine
  {
    CountPositive(q.oddOptions, QuizEngine.IsOdd);
    var k :| 0 <= k < |q.oddOptions| && q.oddOptions[k].isOdd;
    var i :| 0 <= i < |q.oddOptions| && q.oddOptions[i] == option;
    if i != k {
      if i < k {
        assert OptionName(q.oddOptions[i]) != OptionName(q.oddOptions[k]);
      } else {
        assert OptionName(q.oddOptions[k]) != OptionName(q.oddOptions[i]);
      }
    }
  }

  /** A generated question whose shown wines have distinct names grades a
      click correct exactly when it names the odd wine. */
  lemma GeneratedGrading(filtered: seq<Style>, d: QuizEngine.Draws, option: OddOption)
    ensures var r := QuizEngine.GenerateOddOneOut(filtered, d);
            r.Some? && UniqueBy(r.value.oddOptions, OptionName) && option in r.value.oddOptions ==>
              (HandleSelect(r.value, option, false).value.isCorrect <==> option.name == r.value.oddWine)
  {
    var r := QuizEngine.GenerateOddOneOut(filtered, d);
    if r.Some? && UniqueBy(r.value.oddOptions, OptionName) && option in r.value.oddOptions {
      Grading(r.value, option);
    }
  }
}
