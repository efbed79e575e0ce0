/** The read-side scores of src/utils/calculateMastery.js: a confidence
    weighted accuracy in [0, 100], its level label, the review-due filter and
    the learned count. Floating-point arithmetic becomes exact rationals and
    `Math.round(x)` becomes `floor(x + 1/2)`. */
module Mastery {
  import opened Wrappers
  import opened Dict
  import opened ProgressStore
  import opened Rounding
  import Seqs

  /** Attempts needed before the accuracy counts in full. */
  const MinAttempts: nat := 5

  /** `calculateMastery(correct, incorrect)`: accuracy `correct / total` times
      confidence `min(1, total / 5)`, as a rounded percentage. */
  function CalculateMastery(correct: nat, incorrect: nat): (r: nat)
    ensures r <= 100
    ensures correct + incorrect == 0 ==> r == 0
    ensures 0 < correct + incorrect < MinAttempts ==> r == 20 * correct
    ensures MinAttempts <= correct + incorrect ==>
              var t := correct + incorrect;
              2 * t * r <= 200 * correct + t < 2 * t * r + 2 * t
    ensures MinAttempts <= correct && incorrect == 0 ==> r == 100
  {
    var total := correct + incorrect;
    if total == 0 then 0
    else
      // accuracy * confidence * 100 == (correct / total) * (min(total, 5) / 5) * 100
      var r := RoundHalfUp(100 * correct * Seqs.Min(total, MinAttempts), MinAttempts * total);
      if total < MinAttempts then
        assert 100 * correct * total == (20 * correct) * (5 * total);
        RoundExact(20 * correct, 5 * total);
        r
      else
        assert 100 * correct * 5 == 5 * (100 * correct);
        RoundScale(100 * correct, total, 5);
        RoundMonotone(100 * correct, 100 * total, total);
        RoundExact(100, total);
        r
  }

  /** With fewer than five attempts the confidence weight strictly lowers a
      non-zero score below the plain accuracy percentage. */
  lemma ConfidenceDampens(correct: nat, incorrect: nat)
    requires 0 < correct && correct + incorrect < MinAttempts
    ensures CalculateMastery(correct, incorrect) * (correct + incorrect) < 100 * correct
  {
    var t := correct + incorrect;
    assert CalculateMastery(correct, incorrect) * t == 20 * correct * t;
    assert 20 * correct * t < 20 * correct * 5 by {
      MulStrictCancel(1, 20 * correct * t, 20 * correct * 5) by {
        assert 20 * correct * 5 - 20 * correct * t == 20 * correct * (5 - t);
      }
    }
  }

  /** For a fixed number of attempts, more correct answers never lower the score. */
  lemma MasteryMonotoneInAccuracy(c1: nat, c2: nat, total: nat)
    requires c1 <= c2 <= total
    ensures CalculateMastery(c1, total - c1) <= CalculateMastery(c2, total - c2)
  {
    if 0 < total {
      if total >= MinAttempts {
        assert 100 * c1 * 5 == 5 * (100 * c1) && 100 * c2 * 5 == 5 * (100 * c2);
        RoundScale(100 * c1, total, 5);
        RoundScale(100 * c2, total, 5);
        RoundMonotone(100 * c1, 100 * c2, total);
      }
    }
  }

  /** The qualitative label of a mastery percentage. */
  datatype Level = New | Beginner | Learning | Proficient | Master

  /** Position of a level, lowest first. */
  function Rank(l: Level): nat {
    match l
    case New => 0
    case Beginner => 1
    case Learning => 2
    case Proficient => 3
    case Master => 4
  }

  /** `getMasteryLevel`. */
  function GetMasteryLevel(mastery: int): (l: Level)
    ensures l == Master <==> 90 <= mastery
    ensures l == Proficient <==> 70 <= mastery < 90
    ensures l == Learning <==> 50 <= mastery < 70
    ensures l == Beginner <==> 25 <= mastery < 50
    ensures l == New <==> mastery < 25
  {
    if mastery >= 90 then Master
    else if mastery >= 70 then Proficient
    else if mastery >= 50 then Learning
    else if mastery >= 25 then Beginner
    else New
  }

  /** A higher score never earns a lower label. */
  lemma MasteryLevelMonotone(a: int, b: int)
    requires a <= b
    ensures Rank(GetMasteryLevel(a)) <= Rank(GetMasteryLevel(b))
  {
  }

  function CorrectOf(w: WineProgress): nat { w.timesCorrect }
  function IncorrectOf(w: WineProgress): nat { w.timesIncorrect }

  /** Correct answers summed over every wine record. */
  function TotalCorrect(d: Dict<WineProgress>): nat {
    SumOf(d, CorrectOf)
  }

  /** Incorrect answers summed over every wine record. */
  function TotalIncorrect(d: Dict<WineProgress>): nat {
    SumOf(d, IncorrectOf)
  }

  /** `calculateOverallMastery`: the mastery of the summed counters; 0 for an
      absent or empty map. */
  function CalculateOverallMastery(m: Option<Dict<WineProgress>>): (r: nat)
    ensures r <= 100
    ensures m.None? || m == Some([]) ==> r == 0
    ensures m.Some? ==> r == CalculateMastery(TotalCorrect(m.value), TotalIncorrect(m.value))
  {
    match m
    case None => 0
    case Some(d) => if |d| == 0 then 0 else CalculateMastery(TotalCorrect(d), TotalIncorrect(d))
  }

  /** Recording one answer moves the summed counters behind the overall
      mastery by exactly one, on the side the answer was graded. */
  lemma RecordWineAnswerMovesTotals(p: Progress, name: string, isCorrect: bool, now: int)
    requires Wf(p)
    ensures var r := RecordWineAnswer(p, name, isCorrect, now).wineProgress;
            && TotalCorrect(r) == TotalCorrect(p.wineProgress) + (if isCorrect then 1 else 0)
            && TotalIncorrect(r) == TotalIncorrect(p.wineProgress) + (if isCorrect then 0 else 1)
  {
    var w := WineRecord(p, name);
    var w' := Get(RecordWineAnswer(p, name, isCorrect, now).wineProgress, name).value;
    SumOfPut(p.wineProgress, name, w', CorrectOf);
    SumOfPut(p.wineProgress, name, w', IncorrectOf);
    if name !in Keys(p.wineProgress) {
      assert w == NewWineRecord;
    }
  }

  /** `calculateCategoryMastery`: 0 for an absent record. */
  function CalculateCategoryMastery(c: Option<CategoryProgress>): (r: nat)
    ensures r <= 100
    ensures c.None? ==> r == 0
    ensures c.Some? ==> r == CalculateMastery(c.value.timesCorrect, c.value.timesIncorrect)
  {
    match c
    case None => 0
    case Some(cp) => CalculateMastery(cp.timesCorrect, cp.timesIncorrect)
  }

  /** A record with a review time at or before `now`. */
  predicate IsDue(w: WineProgress, now: int) {
    w.nextReview.Some? && w.nextReview.value <= now
  }

  /** `getWinesDueForReview(wineProgress)` at time `now`: the names, in entry
      order, whose scheduled review has arrived. */
  function GetWinesDueForReview(m: Option<Dict<WineProgress>>, now: int): (r: seq<string>)
    ensures m.None? ==> r == []
    ensures m.Some? ==> |r| <= |m.value|
    ensures m.Some? ==> forall k :: k in r <==>
              exists i :: 0 <= i < |m.value| && m.value[i].key == k && IsDue(m.value[i].value, now)
    ensures m.Some? ==> r == Seqs.Map(Seqs.Filter(m.value, DueEntry(now)), KeyOf)
    ensures m.Some? ==> |r| == Seqs.Count(m.value, DueEntry(now))
  {
    match m
    case None => []
    case Some(d) => DueNames(d, now)
  }

  /** The entries whose review has arrived. */
  function DueEntry(now: int): Entry<WineProgress> -> bool {
    (e: Entry<WineProgress>) => IsDue(e.value, now)
  }

  /** The keys of the due entries, one per entry, in entry order. */
  function DueNames(d: Dict<WineProgress>, now: int): (r: seq<string>)
    ensures |r| <= |d|
    ensures forall k :: k in r <==> exists i :: 0 <= i < |d| && d[i].key == k && IsDue(d[i].value, now)
    ensures r == Seqs.Map(Seqs.Filter(d, DueEntry(now)), KeyOf)
    decreases |d|
  {
    if |d| == 0 then []
    else
      var rest := DueNames(d[1..], now);
      var head := if IsDue(d[0].value, now) then [d[0]] else [];
      Seqs.FilterCons(d, DueEntry(now));
      Seqs.MapAppend(head, Seqs.Filter(d[1..], DueEntry(now)), KeyOf);
      assert Seqs.Map(head, KeyOf) == (if IsDue(d[0].value, now) then [d[0].key] else []);
      (if IsDue(d[0].value, now) then [d[0].key] else []) + rest
  }

  function LearnedMark(w: WineProgress): nat {
    if w.timesCorrect > 0 then 1 else 0
  }

  /** A wine counts as learned once it has been answered correctly. */
  function Learned(w: WineProgress): bool {
    w.timesCorrect > 0
  }

  /** `countWinesLearned`: `Object.values(wineProgress).filter(learned).length`. */
  function CountWinesLearned(m: Option<Dict<WineProgress>>): (r: nat)
    ensures m.None? ==> r == 0
    ensures m.Some? ==> r <= |m.value|
    ensures m.Some? ==> r == Seqs.Count(Values(m.value), Learned)
  {
    match m
    case None => 0
    case Some(d) => LearnedCounts(d); LearnedIn(d)
  }

  function LearnedIn(d: Dict<WineProgress>): (r: nat)
    ensures r <= |d|
    decreases |d|
  {
    if |d| == 0 then 0 else LearnedMark(d[0].value) + LearnedIn(d[1..])
  }

  lemma {:induction false} LearnedCounts(d: Dict<WineProgress>)
    ensures LearnedIn(d) == Seqs.Count(Values(d), Learned)
    decreases |d|
  {
    if |d| > 0 {
      LearnedCounts(d[1..]);
      assert Values(d)[1..] == Values(d[1..]);
    }
  }

  lemma {:induction false} LearnedInIsSum(d: Dict<WineProgress>)
    ensures LearnedIn(d) == SumOf(d, LearnedMark)
    decreases |d|
  {
    if |d| > 0 {
      LearnedInIsSum(d[1..]);
    }
  }

  /** A correct answer adds a wine to the learned count exactly when it had
      never been answered correctly; an incorrect one never changes the count. */
  lemma RecordWineAnswerLearned(p: Progress, name: string, isCorrect: bool, now: int)
    requires Wf(p)
    ensures var r := RecordWineAnswer(p, name, isCorrect, now).wineProgress;
            CountWinesLearned(Some(r)) ==
              CountWinesLearned(Some(p.wineProgress))
              + (if isCorrect && WineRecord(p, name).timesCorrect == 0 then 1 else 0)
  {
    var r := RecordWineAnswer(p, name, isCorrect, now).wineProgress;
    var w' := Get(r, name).value;
    LearnedInIsSum(r);
    LearnedInIsSum(p.wineProgress);
    SumOfPut(p.wineProgress, name, w', LearnedMark);
    if name !in Keys(p.wineProgress) {
      assert WineRecord(p, name) == NewWineRecord;
    }
  }
}
