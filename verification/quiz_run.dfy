/** The answer/advance state machine of src/components/QuizEngine.jsx: the
    score, the answer log, the feedback overlay and the question index of
    one running session. */
module QuizRun {
  import opened Wrappers
  import opened Seqs
  import opened Questions

  /** One entry of the answer log: the question on screen (absent when the
      index is past the end), and what was reported for it. */
  datatype AnswerRecord = AnswerRecord(question: Option<Question>, answer: Answer, isCorrect: bool, details: Details)

  /** The object handed to `onComplete`. */
  datatype Results = Results(score: nat, total: nat, answers: seq<AnswerRecord>)

  datatype Run = Run(
    questions: seq<Question>,
    current: nat,
    score: nat,
    answers: seq<AnswerRecord>,
    showFeedback: bool,
    lastAnswer: Option<Report>)

  /** The `onAnswer(identifier, isCorrect, details)` call passed up to the app. */
  datatype AnswerEvent = AnswerEvent(identifier: Option<string>, isCorrect: bool, details: Details)

  /** The state a fresh session starts in. */
  function Start(questions: seq<Question>): Run {
    Run(questions, 0, 0, [], false, None)
  }

  /** JavaScript truthiness of an optional string: present and non-empty. */
  predicate Truthy(s: Option<string>) {
    s.Some? && s.value != ""
  }

  function RecordCorrect(a: AnswerRecord): bool { a.isCorrect }

  function ReportCorrect(r: Report): bool { r.isCorrect }

  /** The score counts exactly the correct entries of the answer log. */
  predicate Tallied(run: Run) {
    run.score == Count(run.answers, RecordCorrect)
  }

  /** `handleAnswer`: show feedback, count a correct answer, log one entry
      and pass `details.wineName || details.categoryId` up. */
  function HandleAnswer(run: Run, report: Report): (r: (Run, AnswerEvent))
    ensures report.isCorrect ==> r.0.score == run.score + 1
    ensures !report.isCorrect ==> r.0.score == run.score
    ensures |r.0.answers| == |run.answers| + 1 && r.0.answers[..|run.answers|] == run.answers
    ensures var a := r.0.answers[|run.answers|];
            && a.answer == report.answer && a.isCorrect == report.isCorrect && a.details == report.details
            && (run.current < |run.questions| ==> a.question == Some(run.questions[run.current]))
            && (run.current >= |run.questions| ==> a.question.None?)
    ensures r.0.showFeedback && r.0.lastAnswer == Some(report)
    ensures r.0.questions == run.questions && r.0.current == run.current
    ensures r.1.isCorrect == report.isCorrect && r.1.details == report.details
    ensures Truthy(report.details.wineName) ==> r.1.identifier == report.details.wineName
    ensures !Truthy(report.details.wineName) ==> r.1.identifier == report.details.categoryId
  {
    var question := if run.current < |run.questions| then Some(run.questions[run.current]) else None;
    var record := AnswerRecord(question, report.answer, report.isCorrect, report.details);
    var identifier := if Truthy(report.details.wineName) then report.details.wineName else report.details.categoryId;
    (run.(showFeedback := true,
          lastAnswer := Some(report),
          score := if report.isCorrect then run.score + 1 else run.score,
          answers := run.answers + [record]),
     AnswerEvent(identifier, report.isCorrect, report.details))
  }

  /** An answer keeps the score equal to the number of correct log entries. */
  lemma HandleAnswerTallies(run: Run, report: Report)
    requires Tallied(run)
    ensures Tallied(HandleAnswer(run, report).0)
  {
    var r := HandleAnswer(run, report).0;
    assert r.answers == run.answers + [r.answers[|run.answers|]];
    CountAppend(run.answers, [r.answers[|run.answers|]], RecordCorrect);
  }

  /** `handleNext`: hide the feedback; past the last question report the
      results, otherwise move to the next question. */
  function HandleNext(run: Run): (r: (Run, Option<Results>))
    ensures !r.0.showFeedback && r.0.lastAnswer.None?
    ensures r.1.Some? <==> run.current + 1 >= |run.questions|
    ensures r.1.Some? ==> r.1.value == Results(run.score, |run.questions|, run.answers) && r.0.current == run.current
    ensures r.1.None? ==> r.0.current == run.current + 1 && r.0.current < |run.questions|
    ensures r.0.questions == run.questions && r.0.score == run.score && r.0.answers == run.answers
  {
    var hidden := run.(showFeedback := false, lastAnswer := None);
    if run.current + 1 >= |run.questions| then
      (hidden, Some(Results(run.score, |run.questions|, run.answers)))
    else
      (hidden.(current := run.current + 1), None)
  }

  /** One question's round: the answer, then the "next" button. */
  function Round(run: Run, report: Report): (Run, Option<Results>) {
    HandleNext(HandleAnswer(run, report).0)
  }

  /** Rounds for each report in turn, stopping at the first that completes
      the session; the results are those of that round, if any. */
  function Play(run: Run, reports: seq<Report>): (Run, Option<Results>)
    decreases |reports|
  {
    if |reports| == 0 then (run, None)
    else
      var (next, results) := Round(run, reports[0]);
      if results.Some? then (next, results) else Play(next, reports[1..])
  }

  /** Every logged entry so far belongs to the question at its position. */
  predicate Attributed(run: Run) {
    && |run.answers| == run.current
    && run.current <= |run.questions|
    && forall i :: 0 <= i < |run.answers| ==> run.answers[i].question == Some(run.questions[i])
  }

  /** One answer per question, from the first question to the last: the
      session completes on the last round, with `total` the number of
      questions, a log entry per question attributed to it, and the score
      counting the correct reports (hence at most the total). */
  lemma {:induction false} PlayThrough(run: Run, reports: seq<Report>)
    requires Tallied(run) && Attributed(run)
    requires run.current + |reports| == |run.questions| && |reports| > 0
    ensures var (_, results) := Play(run, reports);
            && results.Some?
            && results.value.total == |run.questions|
            && results.value.score == run.score + Count(reports, ReportCorrect)
            && results.value.score == Count(results.value.answers, RecordCorrect)
            && |results.value.answers| == |run.questions|
            && (forall i :: 0 <= i < |run.questions| ==>
                  results.value.answers[i].question == Some(run.questions[i]))
    decreases |reports|
  {
    var answered := HandleAnswer(run, reports[0]).0;
    HandleAnswerTallies(run, reports[0]);
    var (next, results) := HandleNext(answered);
    assert answered.answers == run.answers + [answered.answers[|run.answers|]];
    if |reports| == 1 {
      assert reports[1..] == [];
    } else {
      assert results.None?;
      assert Attributed(next);
      PlayThrough(next, reports[1..]);
    }
  }

  /** A session answered in full from the start scores at most one point per
      question, and exactly the number of correct reports. */
  lemma CompleteSession(questions: seq<Question>, reports: seq<Report>)
    requires |reports| == |questions| > 0
    ensures var results := Play(Start(questions), reports).1;
            && results.Some?
            && results.value.total == |questions|
            && results.value.score == Count(reports, ReportCorrect) <= results.value.total
  {
    PlayThrough(Start(questions), reports);
  }
}
