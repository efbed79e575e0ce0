/** The timed yes/no round of src/quizModes/QuickFire.jsx as a discrete
    state machine: a countdown in whole seconds, the answered-once latch,
    and whether the interval timer still runs. Each timer callback is one
    `Tick`. */
module QuickFireMode {
  import opened Wrappers
  import opened Seqs
  import opened Text
  import opened Catalog
  import opened Questions

  /** Seconds on the clock when a question appears. */
  const TimerDuration: nat := 10

  datatype Clock = Clock(timeLeft: nat, answered: bool, running: bool)

  /** A new question: the latch opens and the countdown restarts. */
  const Reset: Clock := Clock(TimerDuration, false, true)

  /** The report of a question left unanswered: no answer, and graded
      incorrect whichever way the statement goes. */
  function TimeUpReport(q: Question): (r: Report)
    requires q.QuickFireQ?
    ensures r.answer == NoAnswer && !r.isCorrect
    ensures r.details.wineName == Some(q.wine.name) && r.details.categoryId == Some(q.wine.styleId)
  {
    Report(NoAnswer, false,
           Details(Some(q.wine.name), Some(q.wine.styleId), None,
                   "Time's up! The answer was " + (if q.isTrue then "Yes" else "No") + "."))
  }

  /** One timer callback. `feedback` is the `showFeedback` value the timer
      closure captured when the question appeared. Above one second the
      clock counts down; at one second or less it stops at 0, and the
      timeout fires unless the question was already answered. */
  function Tick(c: Clock, q: Question, feedback: bool): (r: (Clock, Option<Report>))
    requires q.QuickFireQ?
    ensures !c.running ==> r == (c, None)
    ensures c.running && c.timeLeft > 1 ==> r == (c.(timeLeft := c.timeLeft - 1), None)
    ensures c.running && c.timeLeft <= 1 ==>
              && r.0.timeLeft == 0 && !r.0.running
              && (r.1.Some? <==> !c.answered && !feedback)
              && (r.1.Some? ==> r.1.value == TimeUpReport(q))
              && r.0.answered == (c.answered || r.1.Some?)
  {
    if !c.running then (c, None)
    else if c.timeLeft > 1 then (c.(timeLeft := c.timeLeft - 1), None)
    else if !c.answered && !feedback then (Clock(0, true, false), Some(TimeUpReport(q)))
    else (c.(timeLeft := 0, running := false), None)
  }

  /** `handleAnswer`: ignored while feedback is shown or once answered;
      otherwise the latch closes, the timer stops, and the answer is correct
      exactly when it agrees with the statement. A wrong answer reads the
      name of `correctStyle`; when that style was not found the source
      throws after closing the latch, and no report is made. */
  function HandleAnswer(c: Clock, q: Question, userAnswer: bool, showFeedback: bool): (r: (Clock, Option<Report>))
    requires q.QuickFireQ?
    ensures showFeedback || c.answered ==> r == (c, None)
    ensures !showFeedback && !c.answered ==> r.0 == c.(answered := true, running := false)
    ensures r.1.Some? <==> !showFeedback && !c.answered && (userAnswer == q.isTrue || q.correctStyle.Some?)
    ensures r.1.Some? ==> && r.1.value.answer == Verdict(userAnswer)
                          && (r.1.value.isCorrect <==> userAnswer == q.isTrue)
                          && r.1.value.details.wineName == Some(q.wine.name)
                          && r.1.value.details.categoryId == Some(q.wine.styleId)
  {
    if showFeedback || c.answered then (c, None)
    else
      var latched := c.(answered := true, running := false);
      var isCorrect := userAnswer == q.isTrue;
      if isCorrect then
        (latched, Some(Report(Verdict(userAnswer), true,
                              Details(Some(q.wine.name), Some(q.wine.styleId), None, "Correct!"))))
      else
        match q.correctStyle
        case None => (latched, None)
        case Some(style) =>
          var explanation := q.wine.name + " is a " + ReplaceFirst(Lower(style.name), " wine", "") + ".";
          (latched, Some(Report(Verdict(userAnswer), false,
                                Details(Some(q.wine.name), Some(q.wine.styleId), None, explanation))))
  }

  /** What can happen to a question on screen: a timer callback, or a button
      press with the `showFeedback` value of that render. */
  datatype Event = TimerFired(feedback: bool) | Pressed(answer: bool, showFeedback: bool)

  function Step(c: Clock, q: Question, e: Event): (Clock, Option<Report>)
    requires q.QuickFireQ?
  {
    match e
    case TimerFired(feedback) => Tick(c, q, feedback)
    case Pressed(answer, showFeedback) => HandleAnswer(c, q, answer, showFeedback)
  }

  function Emitted(o: Option<Report>): seq<Report> {
    match o
    case Some(r) => [r]
    case None => []
  }

  /** The clock after a run of events, with every report made on the way. */
  function Feed(c: Clock, q: Question, events: seq<Event>): (Clock, seq<Report>)
    requires q.QuickFireQ?
    decreases |events|
  {
    if |events| == 0 then (c, [])
    else
      var (next, out) := Step(c, q, events[0]);
      var (last, rest) := Feed(next, q, events[1..]);
      (last, Emitted(out) + rest)
  }

  /** The latch: whatever the events, a question yields at most one report,
      none once answered, and a report leaves the question answered. */
  lemma {:induction false} AtMostOneReport(c: Clock, q: Question, events: seq<Event>)
    requires q.QuickFireQ?
    ensures var (last, reports) := Feed(c, q, events);
            && |reports| <= 1
            && (c.answered ==> |reports| == 0 && last.answered)
            && (|reports| == 1 ==> last.answered)
    decreases |events|
  {
    if |events| > 0 {
      AtMostOneReport(Step(c, q, events[0]).0, q, events[1..]);
    }
  }

  /** `n` timer callbacks with no feedback captured. */
  function Ticks(n: nat): (r: seq<Event>)
    ensures |r| == n && forall i :: 0 <= i < n ==> r[i] == TimerFired(false)
  {
    seq(n, i => TimerFired(false))
  }

  /** Left alone, a running clock with `n` seconds to go times out on its
      `n`-th callback and not before, with one report graded incorrect. */
  lemma {:induction false} CountdownTimesOut(c: Clock, q: Question, n: nat)
    requires q.QuickFireQ?
    requires c.running && !c.answered && c.timeLeft == n && n >= 1
    ensures var (before, quiet) := Feed(c, q, Ticks(n - 1));
            quiet == [] && before.running && before.timeLeft == 1
    ensures var (last, reports) := Feed(c, q, Ticks(n));
            reports == [TimeUpReport(q)] && last.timeLeft == 0 && !last.running && last.answered
    decreases n
  {
    if n == 1 {
      assert Ticks(0) == [];
      assert Ticks(1)[1..] == [];
    } else {
      var next := c.(timeLeft := n - 1);
      assert Ticks(n)[1..] == Ticks(n - 1);
      assert Ticks(n - 1)[1..] == Ticks(n - 2);
      CountdownTimesOut(next, q, n - 1);
    }
  }

  /** A fresh question left unanswered reports its timeout on the tenth
      callback, graded incorrect even when the statement was true. */
  lemma FreshQuestionTimesOut(q: Question)
    requires q.QuickFireQ?
    ensures var (last, reports) := Feed(Reset, q, Ticks(TimerDuration));
            |reports| == 1 && !reports[0].isCorrect && reports[0].answer == NoAnswer
  {
    CountdownTimesOut(Reset, q, TimerDuration);
  }
}
