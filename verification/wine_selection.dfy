/** The selection state and grading of src/quizModes/WineSelection.jsx: the
    player ticks every shown wine of the named style and submits. The ticked
    names are a `Set`, kept here as a sequence without repetitions in
    insertion order. */
module WineSelectionMode {
  import opened Wrappers
  import opened Seqs
  import opened Text
  import opened Questions

  /** `handleToggle`: ignored while feedback is shown; otherwise the name is
      unticked if ticked and ticked (at the end) if not. */
  function HandleToggle(selected: seq<string>, name: string, showFeedback: bool): (r: seq<string>)
    ensures showFeedback ==> r == selected
    ensures !showFeedback ==> (name in r <==> name !in selected)
    ensures forall other :: other != name ==> (other in r <==> other in selected)
    ensures Distinct(selected) ==> Distinct(r)
  {
    if showFeedback then selected else Toggle(selected, name)
  }

  /** A run of clicks on the named options while no feedback is shown. */
  function ToggleAll(selected: seq<string>, names: seq<string>): (r: seq<string>)
    ensures forall x :: x !in names ==> (x in r <==> x in selected)
    ensures Distinct(selected) ==> Distinct(r)
    decreases |names|
  {
    if |names| == 0 then selected
    else ToggleAll(HandleToggle(selected, names[0], false), names[1..])
  }

  /** The exact-match test: as many ticked names as correct names, and every
      ticked name correct. */
  predicate Matches(selected: seq<string>, correct: seq<string>) {
    |selected| == |correct| && forall w :: w in selected ==> w in correct
  }

  function NotIn(xs: seq<string>): string -> bool {
    (w: string) => w !in xs
  }

  /** The correct names left unticked. */
  function Missed(selected: seq<string>, correct: seq<string>): seq<string> {
    Filter(correct, NotIn(selected))
  }

  /** The ticked names that are not correct. */
  function WrongPicks(selected: seq<string>, correct: seq<string>): seq<string> {
    Filter(selected, NotIn(correct))
  }

  /** The feedback text: praise, or the missed and the wrong names. */
  function Explanation(isCorrect: bool, missed: seq<string>, wrongPicks: seq<string>): (r: string)
    ensures isCorrect ==> r == "Perfect! You selected all the correct wines."
    ensures !isCorrect ==> (r == "" <==> |missed| == 0 && |wrongPicks| == 0)
  {
    if isCorrect then "Perfect! You selected all the correct wines."
    else
      (if |missed| > 0 then "Missed: " + Join(missed, ", ") + ". " else "")
      + (if |wrongPicks| > 0 then "Incorrect selections: " + Join(wrongPicks, ", ") + "." else "")
  }

  /** `handleSubmit`, reachable only through the submit button, which is
      hidden while feedback is shown and disabled while nothing is ticked.
      Only the question's style is reported. */
  function HandleSubmit(q: Question, selected: seq<string>, showFeedback: bool): (r: Option<Report>)
    requires q.WineSelectionQ?
    ensures r.None? <==> showFeedback || |selected| == 0
    ensures r.Some? ==> && r.value.answer == Selected(selected)
                        && (r.value.isCorrect <==> Matches(selected, q.correctWines))
                        && r.value.details.wineName.None?
                        && r.value.details.categoryId == Some(q.style.id)
                        && r.value.details.selectedCategory.None?
  {
    if showFeedback || |selected| == 0 then None
    else
      var isCorrect := Matches(selected, q.correctWines);
      var explanation := Explanation(isCorrect, Missed(selected, q.correctWines), WrongPicks(selected, q.correctWines));
      Some(Report(Selected(selected), isCorrect, Details(None, Some(q.style.id), None, explanation)))
  }

  function AsSet(s: seq<string>): set<string> {
    set x | x in s
  }

  /** With no name repeated on either side, the exact-match test is set
      equality of the ticked and the correct names. */
  lemma MatchesIsSetEquality(selected: seq<string>, correct: seq<string>)
    requires Distinct(selected) && Distinct(correct)
    ensures Matches(selected, correct) <==> AsSet(selected) == AsSet(correct)
  {
    DistinctCardinality(selected);
    DistinctCardinality(correct);
    assert |AsSet(selected)| == |selected| && |AsSet(correct)| == |correct|;
    if Matches(selected, correct) {
      assert AsSet(selected) <= AsSet(correct);
      SubsetCardinality(AsSet(selected), AsSet(correct));
    }
    if AsSet(selected) == AsSet(correct) {
      forall w | w in selected ensures w in correct {
        assert w in AsSet(selected);
      }
    }
  }

  /** With no name repeated on either side, an answer is correct exactly when
      nothing was missed and nothing wrong was ticked. */
  lemma MatchesIffNothingMissed(selected: seq<string>, correct: seq<string>)
    requires Distinct(selected) && Distinct(correct)
    ensures Matches(selected, correct) <==>
              |Missed(selected, correct)| == 0 && |WrongPicks(selected, correct)| == 0
  {
    MatchesIsSetEquality(selected, correct);
    FilterMembers(correct, NotIn(selected));
    FilterMembers(selected, NotIn(correct));
    var missed, wrong := Missed(selected, correct), WrongPicks(selected, correct);
    if |missed| > 0 {
      assert missed[0] in correct && missed[0] !in selected;
      assert missed[0] in AsSet(correct);
      assert missed[0] !in AsSet(selected);
      assert missed[0] in AsSet(correct) - AsSet(selected);
    }
    if |wrong| > 0 {
      assert wrong[0] in selected && wrong[0] !in correct;
      assert wrong[0] in AsSet(selected);
      assert wrong[0] !in AsSet(correct);
      assert wrong[0] in AsSet(selected) - AsSet(correct);
    }
    if |missed| == 0 && |wrong| == 0 {
      forall w | w in correct ensures w in selected {
        assert w !in missed;
      }
      forall w | w in selected ensures w in correct {
        assert w !in wrong;
      }
      assert AsSet(selected) == AsSet(correct);
    }
  }

  /** A wrong submission of distinct names always explains itself. */
  lemma WrongAnswerExplained(q: Question, selected: seq<string>)
    requires q.WineSelectionQ? && |selected| > 0
    requires Distinct(selected) && Distinct(q.correctWines)
    ensures var r := HandleSubmit(q, selected, false).value;
            !r.isCorrect ==> r.details.explanation != ""
  {
    MatchesIffNothingMissed(selected, q.correctWines);
  }

  /** When two shown correct options share a name, no selection of distinct
      names is graded correct: the ticked set holds that name once. */
  lemma RepeatedCorrectNameUnwinnable(selected: seq<string>, correct: seq<string>)
    requires Distinct(selected) && !Distinct(correct)
    ensures !Matches(selected, correct)
  {
    DistinctCardinality(selected);
    SetCardinality(correct);
    if Matches(selected, correct) {
      SubsetCardinality(AsSet(selected), AsSet(correct));
    }
  }

  /** The ticked names live in the component's own state, and the engine
      renders one `WineSelection` element for every select-all question
      without a distinguishing key, so a tick left over from the previous
      select-all question stays. A leftover name that is not correct now and
      that the player never clicks makes the question impossible to get right. */
  lemma StaleSelectionUnwinnable(q: Question, carried: seq<string>, clicks: seq<string>, stale: string)
    requires q.WineSelectionQ?
    requires stale in carried && stale !in q.correctWines && stale !in clicks
    ensures var r := HandleSubmit(q, ToggleAll(carried, clicks), false);
            r.Some? && !r.value.isCorrect
  {
    var selected := ToggleAll(carried, clicks);
    assert stale in selected;
  }
}
