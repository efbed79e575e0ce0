/** The end-of-quiz summary of src/components/QuizResults.jsx: the
    percentage, the message tier, the review list and its labels. */
module ResultsView {
  import opened Wrappers
  import opened Seqs
  import opened Rounding
  import opened Questions
  import QuizRun

  /** `Math.round(score / total * 100)`, over exact rationals; an empty quiz
      divides zero by zero, which is `NaN`, here `None`. */
  function Percentage(score: nat, total: nat): (r: Option<int>)
    ensures total == 0 <==> r.None?
    ensures r.Some? ==> 2 * total * r.value <= 200 * score + total < 2 * total * r.value + 2 * total
    ensures r.Some? && score <= total ==> 0 <= r.value <= 100
    ensures r.Some? && score == total ==> r.value == 100
  {
    if total == 0 then None
    else
      PercentageBounds(score, total);
      Some(RoundHalfUp(100 * score, total))
  }

  lemma PercentageBounds(score: nat, total: nat)
    requires total > 0
    ensures 0 <= RoundHalfUp(100 * score, total)
    ensures score <= total ==> RoundHalfUp(100 * score, total) <= 100
    ensures score == total ==> RoundHalfUp(100 * score, total) == 100
  {
    RoundMonotone(0, 100 * score, total);
    RoundExact(0, total);
    RoundExact(100, total);
    if score <= total {
      RoundMonotone(100 * score, 100 * total, total);
    }
  }

  /** The five messages, from the lowest to the highest. */
  datatype Tier = PracticeMakesPerfect | KeepLearning | GoodJob | Excellent | PerfectScore

  function TierRank(t: Tier): nat {
    match t
    case PracticeMakesPerfect => 0
    case KeepLearning => 1
    case GoodJob => 2
    case Excellent => 3
    case PerfectScore => 4
  }

  /** `getMessage`: exactly 100 is perfect, then the 80, 60 and 40 bands;
      `NaN` fails every comparison and gets the lowest message. */
  function GetMessage(percentage: Option<int>): (t: Tier)
    ensures t == PerfectScore <==> percentage == Some(100)
    ensures t == Excellent <==> percentage.Some? && percentage.value >= 80 && percentage.value != 100
    ensures t == GoodJob <==> percentage.Some? && 60 <= percentage.value < 80
    ensures t == KeepLearning <==> percentage.Some? && 40 <= percentage.value < 60
    ensures t == PracticeMakesPerfect <==> percentage.None? || percentage.value < 40
  {
    match percentage
    case None => PracticeMakesPerfect
    case Some(p) =>
      if p == 100 then PerfectScore
      else if p >= 80 then Excellent
      else if p >= 60 then GoodJob
      else if p >= 40 then KeepLearning
      else PracticeMakesPerfect
  }

  function MessageText(t: Tier): string {
    match t
    case PerfectScore => "Perfect Score!"
    case Excellent => "Excellent!"
    case GoodJob => "Good Job!"
    case KeepLearning => "Keep Learning!"
    case PracticeMakesPerfect => "Practice Makes Perfect!"
  }

  /** Up to 100 a better percentage never gets a lower message. */
  lemma TierMonotone(a: int, b: int)
    requires a <= b <= 100
    ensures TierRank(GetMessage(Some(a))) <= TierRank(GetMessage(Some(b)))
  {
  }

  /** Above 100, which needs more correct answers than questions, the order
      breaks: 101 drops back to the second message. */
  lemma TierNotMonotoneAbove100()
    ensures TierRank(GetMessage(Some(101))) < TierRank(GetMessage(Some(100)))
  {
  }

  /** A session answered once per question never gets past 100, so there the
      message follows the score. */
  lemma CompletedSessionTier(s1: nat, s2: nat, total: nat)
    requires 0 < total && s1 <= s2 <= total
    ensures TierRank(GetMessage(Percentage(s1, total))) <= TierRank(GetMessage(Percentage(s2, total)))
  {
    RoundMonotone(100 * s1, 100 * s2, total);
    TierMonotone(Percentage(s1, total).value, Percentage(s2, total).value);
  }

  /** `answers.filter(a => !a.isCorrect)`: the review list. */
  function IncorrectAnswers(answers: seq<QuizRun.AnswerRecord>): (r: seq<QuizRun.AnswerRecord>)
    ensures forall a :: a in r <==> a in answers && !a.isCorrect
    ensures |r| == Count(answers, Not(QuizRun.RecordCorrect))
    ensures IsSubseq(r, answers)
  {
    FilterMembers(answers, Not(QuizRun.RecordCorrect));
    FilterSubseq(answers, Not(QuizRun.RecordCorrect));
    assert forall a :: Not(QuizRun.RecordCorrect)(a) == !a.isCorrect;
    Filter(answers, Not(QuizRun.RecordCorrect))
  }

  /** When the score counts the correct entries of the log, the review list
      holds every other entry: as many as the log minus the score. */
  lemma ReviewListSize(results: QuizRun.Results)
    requires results.score == Count(results.answers, QuizRun.RecordCorrect)
    ensures |IncorrectAnswers(results.answers)| == |results.answers| - results.score
  {
    CountComplement(results.answers, QuizRun.RecordCorrect);
  }

  /** `question.wine?.name`. */
  function WineNameOf(q: Question): Option<string> {
    match q
    case CategoryMatchQ(wine, _, _, _) => Some(wine.name)
    case QuickFireQ(_, _, wine, _, _) => Some(wine.name)
    case OriginMatchQ(wine, _, _, _) => Some(wine.name)
    case _ => None
  }

  /** `question.style?.name`. */
  function StyleNameOf(q: Question): Option<string> {
    match q
    case WineSelectionQ(style, _, _, _, _) => Some(style.name)
    case DescriptionMatchQ(_, style, _, _, _) => Some(style.name)
    case _ => None
  }

  /** `question.statement`. */
  function StatementOf(q: Question): Option<string> {
    match q
    case QuickFireQ(statement, _, _, _, _) => Some(statement)
    case _ => None
  }

  /** The review label: the wine's name, else the style's name, else the
      statement, else "Question", each taken only when non-empty. */
  function ReviewLabel(q: Question): (r: string)
    ensures r != ""
    ensures QuizRun.Truthy(WineNameOf(q)) ==> r == WineNameOf(q).value
    ensures WineNameOf(q).None? && QuizRun.Truthy(StyleNameOf(q)) ==> r == StyleNameOf(q).value
    ensures q.OddOneOutQ? ==> r == "Question"
    ensures r == "Question" || Some(r) == WineNameOf(q) || Some(r) == StyleNameOf(q) || Some(r) == StatementOf(q)
  {
    if QuizRun.Truthy(WineNameOf(q)) then WineNameOf(q).value
    else if QuizRun.Truthy(StyleNameOf(q)) then StyleNameOf(q).value
    else if QuizRun.Truthy(StatementOf(q)) then StatementOf(q).value
    else "Question"
  }
}
