/** The SM-2 scheduler and review queue of src/hooks/useSpacedRepetition.js.
    Ease factors are integers in hundredths (130 is the 1.3 floor, 250 the 2.5
    default), so the SM-2 constants 0.1, 0.08 and 0.02 are exact; times are
    milliseconds and `now` is a parameter. */
module Scheduler {
  import opened Wrappers
  import opened Dict
  import opened Seqs
  import opened Rounding
  import opened ProgressStore
  import opened Catalog

  const MinEase: int := 130

  datatype Schedule = Schedule(interval: nat, easeFactor: int, nextReview: int)

  /** The SM-2 ease adjustment for a quality rating, in hundredths:
      `0.1 - (5 - q) * (0.08 + (5 - q) * 0.02)`. */
  function EaseDelta(quality: int): int {
    10 - (5 - quality) * (8 + (5 - quality) * 2)
  }

  /** `Math.round(previousInterval * easeFactor)` for an ease at or above
      the floor: longer than the previous interval. */
  function GrownInterval(previousInterval: nat, ease: int): (interval: nat)
    requires previousInterval >= 2 && ease >= MinEase
    ensures 200 * interval <= 2 * previousInterval * ease + 100 < 200 * interval + 200
    ensures interval > previousInterval
  {
    var interval := RoundHalfUp(previousInterval * ease, 100);
    assert interval > previousInterval by {
      // ease >= 1.3, so previousInterval * ease >= previousInterval + 0.6
      assert previousInterval * ease >= previousInterval * 130;
      RoundMonotone(previousInterval * 130, previousInterval * ease, 100);
      MulStrictCancel(200, previousInterval, RoundHalfUp(previousInterval * 130, 100));
    }
    interval
  }

  /** `calculateNextReview(quality, previousInterval, easeFactor)` at time `now`. */
  function CalculateNextReview(quality: int, previousInterval: nat, easeFactor: int, now: int): (r: Schedule)
    ensures quality < 3 ==> r.interval == 1 && r.easeFactor == DefaultEase
    ensures 3 <= quality ==> r.easeFactor >= MinEase
    ensures 3 <= quality && easeFactor + EaseDelta(quality) >= MinEase ==>
              r.easeFactor == easeFactor + EaseDelta(quality)
    ensures 3 <= quality && easeFactor + EaseDelta(quality) < MinEase ==> r.easeFactor == MinEase
    ensures 3 <= quality && previousInterval == 0 ==> r.interval == 1
    ensures 3 <= quality && previousInterval == 1 ==> r.interval == 6
    ensures 3 <= quality && previousInterval >= 2 ==>
              // interval == Math.round(previousInterval * easeFactor / 100)
              200 * r.interval <= 2 * previousInterval * r.easeFactor + 100 < 200 * r.interval + 200
    ensures 3 <= quality ==> r.interval > previousInterval
    ensures r.nextReview == now + r.interval * DayMillis
  {
    var raised := easeFactor + EaseDelta(quality);
    var ease := if raised < MinEase then MinEase else raised;
    if quality < 3 then
      Schedule(1, DefaultEase, now + DayMillis)
    else if previousInterval == 0 then
      Schedule(1, ease, now + DayMillis)
    else if previousInterval == 1 then
      Schedule(6, ease, now + 6 * DayMillis)
    else
      var interval := GrownInterval(previousInterval, ease);
      Schedule(interval, ease, now + interval * DayMillis)
  }

  /** Quality 5 raises the ease by 0.1, quality 4 keeps it (above the floor). */
  lemma EaseByQuality(previousInterval: nat, easeFactor: int, now: int)
    requires easeFactor >= MinEase
    ensures CalculateNextReview(5, previousInterval, easeFactor, now).easeFactor == easeFactor + 10
    ensures CalculateNextReview(4, previousInterval, easeFactor, now).easeFactor == easeFactor
  {
  }

  /** `getQualityFromAnswer(isCorrect, hesitated)`. */
  function GetQualityFromAnswer(isCorrect: bool, hesitated: bool): (q: int)
    ensures !isCorrect ==> q == 1
    ensures isCorrect ==> q == (if hesitated then 4 else 5)
  {
    if !isCorrect then 1 else if hesitated then 4 else 5
  }

  /** An incorrect answer always takes the reset branch: interval one day,
      ease back to 2.5, whatever the prior state. */
  lemma IncorrectAnswerResets(hesitated: bool, previousInterval: nat, easeFactor: int, now: int)
    ensures CalculateNextReview(GetQualityFromAnswer(false, hesitated), previousInterval, easeFactor, now)
            == Schedule(1, DefaultEase, now + DayMillis)
  {
  }

  /** Repeated correct answers from a new card give intervals 1, 6, then
      strictly growing ones, with the ease never under the floor. */
  function Reviews(k: nat, interval: nat, ease: int, now: int): (r: seq<Schedule>)
    ensures |r| == k
    decreases k
  {
    if k == 0 then []
    else
      var s := CalculateNextReview(5, interval, ease, now);
      [s] + Reviews(k - 1, s.interval, s.easeFactor, now)
  }

  lemma {:induction false} PerfectReviewsGrow(k: nat, interval: nat, ease: int, now: int)
    ensures forall i :: 0 <= i < k ==> Reviews(k, interval, ease, now)[i].easeFactor >= MinEase
    ensures k >= 1 ==> Reviews(k, interval, ease, now)[0].interval > interval
    ensures forall i :: 0 < i < k ==>
              Reviews(k, interval, ease, now)[i].interval > Reviews(k, interval, ease, now)[i - 1].interval
    decreases k
  {
    if k > 0 {
      var s := CalculateNextReview(5, interval, ease, now);
      var rest := Reviews(k - 1, s.interval, s.easeFactor, now);
      PerfectReviewsGrow(k - 1, s.interval, s.easeFactor, now);
      assert Reviews(k, interval, ease, now) == [s] + rest;
    }
  }

  lemma FirstPerfectReviews(ease: int, now: int)
    ensures Reviews(2, 0, ease, now)[0].interval == 1
    ensures Reviews(2, 0, ease, now)[1].interval == 6
  {
  }

  datatype Priority = Due | New | Mastered

  /** Position of a priority in the queue, first one first. */
  function Rank(p: Priority): nat {
    match p
    case Due => 0
    case New => 1
    case Mastered => 2
  }

  /** `overdueDays` is 0 for entries that are not due (the sort reads it as `|| 0`). */
  datatype QueueEntry = QueueEntry(wine: TaggedWine, priority: Priority, overdueDays: int)

  /** A record that counts as never seen. */
  predicate Unseen(rec: Option<WineProgress>) {
    rec.None? || (rec.value.timesCorrect == 0 && rec.value.timesIncorrect == 0)
  }

  /** The queue entry of one catalog wine, from its progress record. */
  function Classify(w: TaggedWine, rec: Option<WineProgress>, now: int): (e: QueueEntry)
    ensures e.wine == w
    ensures e.priority == New <==> Unseen(rec)
    ensures e.priority == Due <==>
              !Unseen(rec) && (rec.value.nextReview.None? || rec.value.nextReview.value <= now)
    ensures e.priority == Mastered <==>
              !Unseen(rec) && rec.value.nextReview.Some? && rec.value.nextReview.value > now
    ensures e.priority == Due && rec.value.nextReview.None? ==> e.overdueDays == 0
    ensures e.priority == Due && rec.value.nextReview.Some? ==>
              // whole days since the review fell due
              e.overdueDays * DayMillis <= now - rec.value.nextReview.value < (e.overdueDays + 1) * DayMillis
    ensures e.overdueDays >= 0
  {
    if Unseen(rec) then QueueEntry(w, New, 0)
    else match rec.value.nextReview
      case Some(t) =>
        if t <= now then QueueEntry(w, Due, (now - t) / DayMillis)
        else QueueEntry(w, Mastered, 0)
      case None => QueueEntry(w, Due, 0)
  }

  function Entries(wines: seq<TaggedWine>, progress: Dict<WineProgress>, now: int): (r: seq<QueueEntry>)
    ensures |r| == |wines|
    ensures forall i :: 0 <= i < |r| ==> r[i] == Classify(wines[i], Get(progress, wines[i].name), now)
  {
    seq(|wines|, i requires 0 <= i < |wines| => Classify(wines[i], Get(progress, wines[i].name), now))
  }

  function HasPriority(p: Priority): QueueEntry -> bool {
    (e: QueueEntry) => e.priority == p
  }

  /** Descending by `overdueDays`. */
  predicate SortedByOverdue(s: seq<QueueEntry>) {
    forall i, j :: 0 <= i < j < |s| ==> s[i].overdueDays >= s[j].overdueDays
  }

  /** Insert before the first entry that is not more overdue, so entries with
      equal keys keep their order, as the stable `Array.prototype.sort` does. */
  function InsertByOverdue(x: QueueEntry, s: seq<QueueEntry>): (r: seq<QueueEntry>)
    requires SortedByOverdue(s)
    ensures SortedByOverdue(r)
    ensures multiset(r) == multiset(s) + multiset{x}
    ensures forall e :: e in r ==> e == x || e in s
    decreases |s|
  {
    if |s| == 0 || s[0].overdueDays <= x.overdueDays then
      SortedCons(x, s);
      MultisetCons([x] + s);
      [x] + s
    else
      var rest := InsertByOverdue(x, s[1..]);
      MultisetCons(s);
      MultisetCons([s[0]] + rest);
      SortedHead(s);
      SortedCons(s[0], rest);
      [s[0]] + rest
  }

  /** The head of a sorted run is at least as overdue as the rest. */
  lemma SortedHead(s: seq<QueueEntry>)
    requires SortedByOverdue(s) && |s| > 0
    ensures forall e :: e in s[1..] ==> e.overdueDays <= s[0].overdueDays
  {
    forall e | e in s[1..] ensures e.overdueDays <= s[0].overdueDays {
      var j :| 0 <= j < |s[1..]| && s[1..][j] == e;
      assert s[j + 1] == e;
    }
  }

  /** An entry at least as overdue as everything after it extends a sorted run. */
  lemma SortedCons(h: QueueEntry, s: seq<QueueEntry>)
    requires SortedByOverdue(s)
    requires forall e :: e in s ==> e.overdueDays <= h.overdueDays
    ensures SortedByOverdue([h] + s)
  {
    var r := [h] + s;
    forall i, j | 0 <= i < j < |r| ensures r[i].overdueDays >= r[j].overdueDays {
      if i > 0 {
        assert r[i] == s[i - 1] && r[j] == s[j - 1];
      } else {
        assert r[j] in s;
      }
    }
  }

  /** `dueWines.sort((a, b) => (b.overdueDays || 0) - (a.overdueDays || 0))`.
      The sort is stable: entries with the same key keep their input order. */
  function SortByOverdue(s: seq<QueueEntry>): (r: seq<QueueEntry>)
    ensures SortedByOverdue(r)
    ensures multiset(r) == multiset(s)
    ensures forall k :: Filter(r, OverdueIs(k)) == Filter(s, OverdueIs(k))
  {
    if |s| == 0 then []
    else
      assert s == [s[0]] + s[1..];
      var rest := SortByOverdue(s[1..]);
      InsertStable(s[0], rest);
      ConsSameKeys(s[0], rest, s[1..]);
      InsertByOverdue(s[0], rest)
  }

  /** The entries whose key is `k`. */
  function OverdueIs(k: int): QueueEntry -> bool {
    (e: QueueEntry) => e.overdueDays == k
  }

  /** Inserting `x` into a sorted run puts it before every entry with its own
      key, so per key the order is that of `[x] + s`. */
  lemma {:induction false} InsertStable(x: QueueEntry, s: seq<QueueEntry>)
    requires SortedByOverdue(s)
    ensures forall k :: Filter(InsertByOverdue(x, s), OverdueIs(k)) == Filter([x] + s, OverdueIs(k))
    decreases |s|
  {
    if |s| > 0 && s[0].overdueDays > x.overdueDays {
      var t := s[1..];
      assert SortedByOverdue(t);
      InsertStable(x, t);
      var rest := InsertByOverdue(x, t);
      assert InsertByOverdue(x, s) == [s[0]] + rest;
      forall k ensures Filter([s[0]] + rest, OverdueIs(k)) == Filter([x] + s, OverdueIs(k)) {
        var p := OverdueIs(k);
        FilterCons([s[0]] + rest, p);
        assert ([s[0]] + rest)[1..] == rest;
        FilterCons([x] + t, p);
        assert ([x] + t)[1..] == t;
        FilterCons([x] + s, p);
        assert ([x] + s)[1..] == s;
        FilterCons(s, p);
      }
    }
  }

  /** Putting the same entry in front of two sequences that agree per key
      gives two that agree per key. */
  lemma ConsSameKeys(x: QueueEntry, a: seq<QueueEntry>, b: seq<QueueEntry>)
    requires forall k :: Filter(a, OverdueIs(k)) == Filter(b, OverdueIs(k))
    ensures forall k :: Filter([x] + a, OverdueIs(k)) == Filter([x] + b, OverdueIs(k))
  {
    forall k ensures Filter([x] + a, OverdueIs(k)) == Filter([x] + b, OverdueIs(k)) {
      FilterCons([x] + a, OverdueIs(k));
      FilterCons([x] + b, OverdueIs(k));
      assert ([x] + a)[1..] == a && ([x] + b)[1..] == b;
    }
  }

  /** The three priority blocks split the entries without loss or duplication. */
  lemma {:induction false} PartitionByPriority(e: seq<QueueEntry>)
    ensures multiset(Filter(e, HasPriority(Due))) + multiset(Filter(e, HasPriority(New)))
            + multiset(Filter(e, HasPriority(Mastered))) == multiset(e)
    decreases |e|
  {
    if |e| > 0 {
      var x, t := e[0], e[1..];
      PartitionByPriority(t);
      FilterCons(e, HasPriority(Due));
      FilterCons(e, HasPriority(New));
      FilterCons(e, HasPriority(Mastered));
      MultisetCons(e);
      JoinBlocks(x, t, Filter(t, HasPriority(Due)), Filter(t, HasPriority(New)), Filter(t, HasPriority(Mastered)),
                 Filter(e, HasPriority(Due)), Filter(e, HasPriority(New)), Filter(e, HasPriority(Mastered)));
    }
  }

  /** One entry joins exactly the block of its own priority. */
  lemma JoinBlocks(x: QueueEntry, t: seq<QueueEntry>, due: seq<QueueEntry>, unseen: seq<QueueEntry>, done: seq<QueueEntry>,
                   due': seq<QueueEntry>, unseen': seq<QueueEntry>, done': seq<QueueEntry>)
    requires multiset(due) + multiset(unseen) + multiset(done) == multiset(t)
    requires due' == (if x.priority == Due then [x] else []) + due
    requires unseen' == (if x.priority == New then [x] else []) + unseen
    requires done' == (if x.priority == Mastered then [x] else []) + done
    ensures multiset(due') + multiset(unseen') + multiset(done') == multiset{x} + multiset(t)
  {
    match x.priority
    case Due => assert multiset(due') == multiset{x} + multiset(due);
    case New => assert multiset(unseen') == multiset{x} + multiset(unseen);
    case Mastered => assert multiset(done') == multiset{x} + multiset(done);
  }

  lemma FilteredPriority(s: seq<QueueEntry>, p: Priority)
    ensures forall e :: e in Filter(s, HasPriority(p)) ==> e.priority == p
  {
    FilterMembers(s, HasPriority(p));
    forall e | e in Filter(s, HasPriority(p)) ensures e.priority == p {
      assert HasPriority(p)(e);
    }
  }

  /** Three blocks of one priority each, in queue order, are ordered by rank. */
  lemma BlocksRanked(a: seq<QueueEntry>, b: seq<QueueEntry>, c: seq<QueueEntry>)
    requires forall e :: e in a ==> e.priority == Due
    requires forall e :: e in b ==> e.priority == New
    requires forall e :: e in c ==> e.priority == Mastered
    ensures forall i, j :: 0 <= i < j < |a + b + c| ==> Rank((a + b + c)[i].priority) <= Rank((a + b + c)[j].priority)
  {
    var r := a + b + c;
    forall i, j | 0 <= i < j < |r| ensures Rank(r[i].priority) <= Rank(r[j].priority) {
      if i < |a| {
        assert r[i] in a;
      } else if i < |a| + |b| {
        assert r[i] == b[i - |a|];
        assert r[i] in b;
        if j < |a| + |b| { assert r[j] == b[j - |a|]; assert r[j] in b; }
        else { assert r[j] == c[j - |a| - |b|]; assert r[j] in c; }
      } else {
        assert r[i] == c[i - |a| - |b|];
        assert r[j] == c[j - |a| - |b|];
        assert r[i] in c && r[j] in c;
      }
    }
  }

  lemma DueBlockSorted(dueAll: seq<QueueEntry>)
    requires forall e :: e in dueAll ==> e.priority == Due
    ensures forall e :: e in SortByOverdue(dueAll) ==> e.priority == Due
  {
    var d := SortByOverdue(dueAll);
    forall e | e in d ensures e.priority == Due {
      assert e in multiset(d);
      assert e in multiset(dueAll);
    }
  }

  lemma BlocksCover(a: seq<QueueEntry>, b: seq<QueueEntry>, c: seq<QueueEntry>, all: seq<QueueEntry>)
    requires multiset(a) + multiset(b) + multiset(c) == multiset(all)
    ensures multiset(a + b + c) == multiset(all)
    ensures |a + b + c| == |all|
  {
    assert multiset(a + b + c) == multiset(a) + multiset(b) + multiset(c);
    assert |a + b + c| == |multiset(a + b + c)|;
  }

  /** The queue order over classified entries: due entries most overdue
      first, then new ones, then mastered ones. */
  function Queue(all: seq<QueueEntry>): (r: seq<QueueEntry>)
    ensures multiset(r) == multiset(all)
    ensures |r| == |all|
    ensures forall i, j :: 0 <= i < j < |r| ==> Rank(r[i].priority) <= Rank(r[j].priority)
    ensures forall i, j :: 0 <= i < j < |r| && r[i].priority == Due && r[j].priority == Due ==>
              r[i].overdueDays >= r[j].overdueDays
    ensures Filter(r, HasPriority(New)) == Filter(all, HasPriority(New))
    ensures Filter(r, HasPriority(Mastered)) == Filter(all, HasPriority(Mastered))
    ensures forall k :: Filter(Filter(r, HasPriority(Due)), OverdueIs(k)) == Filter(Filter(all, HasPriority(Due)), OverdueIs(k))
  {
    var dueAll := Filter(all, HasPriority(Due));
    var due := SortByOverdue(dueAll);
    var unseen := Filter(all, HasPriority(New));
    var mastered := Filter(all, HasPriority(Mastered));
    PartitionByPriority(all);
    FilteredPriority(all, Due);
    FilteredPriority(all, New);
    FilteredPriority(all, Mastered);
    DueBlockSorted(dueAll);
    BlocksRanked(due, unseen, mastered);
    BlocksCover(due, unseen, mastered, all);
    DuePrefixSorted(due, unseen, mastered);
    BlocksKept(due, unseen, mastered);
    due + unseen + mastered
  }

  /** Filtering the joined queue by priority gives back each block. */
  lemma BlocksKept(a: seq<QueueEntry>, b: seq<QueueEntry>, c: seq<QueueEntry>)
    requires forall e :: e in a ==> e.priority == Due
    requires forall e :: e in b ==> e.priority == New
    requires forall e :: e in c ==> e.priority == Mastered
    ensures Filter(a + b + c, HasPriority(Due)) == a
    ensures Filter(a + b + c, HasPriority(New)) == b
    ensures Filter(a + b + c, HasPriority(Mastered)) == c
  {
    assert Filter(a + b + c, HasPriority(Due)) == a by {
      FilterThree(a, b, c, HasPriority(Due));
      FilterAll(a, HasPriority(Due));
      FilterNone(b, HasPriority(Due));
      FilterNone(c, HasPriority(Due));
    }
    assert Filter(a + b + c, HasPriority(New)) == b by {
      FilterThree(a, b, c, HasPriority(New));
      FilterNone(a, HasPriority(New));
      FilterAll(b, HasPriority(New));
      FilterNone(c, HasPriority(New));
    }
    assert Filter(a + b + c, HasPriority(Mastered)) == c by {
      FilterThree(a, b, c, HasPriority(Mastered));
      FilterNone(a, HasPriority(Mastered));
      FilterNone(b, HasPriority(Mastered));
      FilterAll(c, HasPriority(Mastered));
    }
  }

  /** `winesDueForReview`: every catalog wine appears once, as its own
      classified entry, in queue order. */
  function WinesDueForReview(progress: Dict<WineProgress>, allWines: seq<TaggedWine>, now: int): (r: seq<QueueEntry>)
    ensures multiset(r) == multiset(Entries(allWines, progress, now))
    ensures |r| == |allWines|
    ensures forall i, j :: 0 <= i < j < |r| ==> Rank(r[i].priority) <= Rank(r[j].priority)
    ensures forall i, j :: 0 <= i < j < |r| && r[i].priority == Due && r[j].priority == Due ==>
              r[i].overdueDays >= r[j].overdueDays
    ensures var all := Entries(allWines, progress, now);
            Filter(r, HasPriority(New)) == Filter(all, HasPriority(New))
            && Filter(r, HasPriority(Mastered)) == Filter(all, HasPriority(Mastered))
            && forall k :: Filter(Filter(r, HasPriority(Due)), OverdueIs(k)) == Filter(Filter(all, HasPriority(Due)), OverdueIs(k))
  {
    Queue(Entries(allWines, progress, now))
  }

  lemma DuePrefixSorted(a: seq<QueueEntry>, b: seq<QueueEntry>, c: seq<QueueEntry>)
    requires SortedByOverdue(a)
    requires forall e :: e in b ==> e.priority != Due
    requires forall e :: e in c ==> e.priority != Due
    ensures forall i, j :: 0 <= i < j < |a + b + c| && (a + b + c)[i].priority == Due && (a + b + c)[j].priority == Due ==>
              (a + b + c)[i].overdueDays >= (a + b + c)[j].overdueDays
  {
  }

  /** `getNextWine(excludeWines)`: the first queue entry whose wine is not excluded. */
  method GetNextWine(queue: seq<QueueEntry>, exclude: seq<string>) returns (r: Option<QueueEntry>)
    ensures r.None? <==> forall e :: e in queue ==> e.wine.name in exclude
    ensures r.Some? ==> r.value.wine.name !in exclude
    ensures r.Some? ==> exists i :: 0 <= i < |queue| && queue[i] == r.value &&
                                    forall k :: 0 <= k < i ==> queue[k].wine.name in exclude
  {
    var i := 0;
    while i < |queue|
      invariant 0 <= i <= |queue|
      invariant forall k :: 0 <= k < i ==> queue[k].wine.name in exclude
    {
      if queue[i].wine.name !in exclude {
        return Some(queue[i]);
      }
      i := i + 1;
    }
    return None;
  }

  /** The record `calculateUpdatedProgress` starts from for an unseen wine. */
  const FreshRecord: WineProgress := WineProgress(0, 0, None, None, DefaultEase, Some(0), None)

  /** `calculateUpdatedProgress(wineName, isCorrect, currentProgress)` at time
      `now`: a missing interval counts as 0 and a missing (or zero) ease as 2.5. */
  function CalculateUpdatedProgress(isCorrect: bool, current: Option<WineProgress>, now: int): (r: WineProgress)
    ensures var before := current.GetOr(FreshRecord);
            && r.timesCorrect + r.timesIncorrect == before.timesCorrect + before.timesIncorrect + 1
            && (isCorrect <==> r.timesCorrect == before.timesCorrect + 1)
            && (!isCorrect <==> r.timesIncorrect == before.timesIncorrect + 1)
            && r.studyStatus == before.studyStatus
    ensures r.lastSeen == Some(now)
    ensures r.interval.Some? && r.nextReview == Some(now + r.interval.value * DayMillis)
    ensures !isCorrect ==> r.interval == Some(1) && r.easeFactor == DefaultEase
    ensures isCorrect ==> r.easeFactor >= MinEase
    ensures isCorrect && (current.None? || current.value.interval.None? || current.value.interval == Some(0)) ==>
              r.interval == Some(1)
    ensures isCorrect && current.Some? && current.value.interval == Some(1) ==> r.interval == Some(6)
    ensures isCorrect ==> r.interval.value > current.GetOr(FreshRecord).interval.GetOr(0)
    ensures var before := current.GetOr(FreshRecord);
            var s := CalculateNextReview(GetQualityFromAnswer(isCorrect, false), before.interval.GetOr(0),
                                         if before.easeFactor == 0 then DefaultEase else before.easeFactor, now);
            r.interval == Some(s.interval) && r.easeFactor == s.easeFactor && r.nextReview == Some(s.nextReview)
  {
    var progress := current.GetOr(FreshRecord);
    var quality := GetQualityFromAnswer(isCorrect, false);
    var ease := if progress.easeFactor == 0 then DefaultEase else progress.easeFactor;
    var s := CalculateNextReview(quality, progress.interval.GetOr(0), ease, now);
    progress.(timesCorrect := progress.timesCorrect + (if isCorrect then 1 else 0),
              timesIncorrect := progress.timesIncorrect + (if isCorrect then 0 else 1),
              lastSeen := Some(now),
              nextReview := Some(s.nextReview),
              easeFactor := s.easeFactor,
              interval := Some(s.interval))
  }

  /** The app never applies `calculateUpdatedProgress`: answers only go through
      `recordWineAnswer`, which leaves `nextReview` unset, so an answered wine
      stays due with zero overdue days and never becomes mastered. */
  lemma RecordedWineStaysDue(p: Progress, w: TaggedWine, isCorrect: bool, now: int, later: int)
    requires WineRecord(p, w.name).nextReview.None?
    ensures var q := RecordWineAnswer(p, w.name, isCorrect, now);
            Classify(w, Get(q.wineProgress, w.name), later) == QueueEntry(w, Due, 0)
  {
  }

  datatype StudyStats = StudyStats(dueForReview: nat, newWines: nat, mastered: nat, total: nat)

  lemma {:induction false} PriorityCountsSum(s: seq<QueueEntry>)
    ensures Count(s, HasPriority(Due)) + Count(s, HasPriority(New)) + Count(s, HasPriority(Mastered)) == |s|
    decreases |s|
  {
    if |s| > 0 {
      PriorityCountsSum(s[1..]);
    }
  }

  /** `getStudyStats`: the three priority counts add up to the queue length. */
  function GetStudyStats(queue: seq<QueueEntry>): (r: StudyStats)
    ensures r.total == |queue|
    ensures r.dueForReview + r.newWines + r.mastered == r.total
    ensures r.dueForReview == |Filter(queue, HasPriority(Due))|
    ensures r.newWines == |Filter(queue, HasPriority(New))|
  {
    PriorityCountsSum(queue);
    StudyStats(Count(queue, HasPriority(Due)), Count(queue, HasPriority(New)),
               Count(queue, HasPriority(Mastered)), |queue|)
  }
}
