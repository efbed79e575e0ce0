/** The learner's persisted progress record and every state transition of
    src/hooks/useProgress.js. Each command is a pure function from the old
    record to the new one; the clock enters as a parameter (`now` in
    milliseconds, `today` as a UTC day number) and JSON parsing as an
    already-parsed `Snapshot` or its absence. */
module ProgressStore {
  import opened Wrappers
  import opened Dict
  import Modes

  /** Milliseconds in a day. */
  const DayMillis: int := 86400000

  /** Ease factor in hundredths: 250 stands for 2.5. */
  const DefaultEase: int := 250

  datatype StudyStatus = Known | NeedsStudy

  /** Per-wine record. `interval` and `studyStatus` may be missing from a
      record (`None`): the record created on a first answer has neither. */
  datatype WineProgress = WineProgress(
    timesCorrect: nat,
    timesIncorrect: nat,
    lastSeen: Option<int>,
    nextReview: Option<int>,
    easeFactor: int,
    interval: Option<nat>,
    studyStatus: Option<StudyStatus>)

  datatype CategoryProgress = CategoryProgress(timesCorrect: nat, timesIncorrect: nat)

  /** `lastQuizDate` is the UTC day number of the last completed quiz. */
  datatype StreakData = StreakData(currentStreak: nat, longestStreak: nat, lastQuizDate: Option<int>)

  datatype Settings = Settings(
    enabledModes: seq<string>,
    focusCategories: seq<string>,
    difficulty: string,
    questionsPerSession: int,
    darkMode: bool)

  datatype Stats = Stats(totalQuizzes: nat, totalQuestions: nat)

  datatype Progress = Progress(
    wineProgress: Dict<WineProgress>,
    categoryProgress: Dict<CategoryProgress>,
    streakData: StreakData,
    settings: Settings,
    stats: Stats)

  /** A partial settings object handed to `updateSettings`: only the present
      keys are merged. */
  datatype SettingsPatch = SettingsPatch(
    enabledModes: Option<seq<string>>,
    focusCategories: Option<seq<string>>,
    difficulty: Option<string>,
    questionsPerSession: Option<int>,
    darkMode: Option<bool>)

  /** A parsed JSON progress document: each top-level key may be missing. */
  datatype Snapshot = Snapshot(
    wineProgress: Option<Dict<WineProgress>>,
    categoryProgress: Option<Dict<CategoryProgress>>,
    streakData: Option<StreakData>,
    settings: Option<Settings>,
    stats: Option<Stats>)

  /** What local storage held at start-up: nothing (or the empty string),
      text that does not parse, or a parsed document. */
  datatype Stored = Absent | Unparseable | Parsed(snapshot: Snapshot)

  const DefaultSettings: Settings :=
    Settings(Modes.DefaultEnabled, [], "medium", 10, false)

  const DefaultProgress: Progress :=
    Progress([], [], StreakData(0, 0, None), DefaultSettings, Stats(0, 0))

  /** The record a wine gets on its first answer or first study mark. */
  const NewWineRecord: WineProgress :=
    WineProgress(0, 0, None, None, DefaultEase, None, None)

  /** No key appears twice in either progress map. */
  predicate Wf(p: Progress) {
    UniqueKeys(p.wineProgress) && UniqueKeys(p.categoryProgress)
  }

  function Bump(n: nat, hit: bool): nat {
    if hit then n + 1 else n
  }

  /** The stored record for a wine, or the first-answer default. */
  function WineRecord(p: Progress, name: string): WineProgress {
    Get(p.wineProgress, name).GetOr(NewWineRecord)
  }

  /** `recordWineAnswer`. */
  function RecordWineAnswer(p: Progress, name: string, isCorrect: bool, now: int): (r: Progress)
    ensures Get(r.wineProgress, name).Some?
    ensures var before := WineRecord(p, name);
            var after := Get(r.wineProgress, name).value;
            && after.timesCorrect + after.timesIncorrect == before.timesCorrect + before.timesIncorrect + 1
            && (isCorrect <==> after.timesCorrect == before.timesCorrect + 1)
            && (!isCorrect <==> after.timesIncorrect == before.timesIncorrect + 1)
            && after.lastSeen == Some(now)
            && after.nextReview == before.nextReview
            && after.easeFactor == before.easeFactor
            && after.interval == before.interval
            && after.studyStatus == before.studyStatus
    ensures forall k :: k != name ==> Get(r.wineProgress, k) == Get(p.wineProgress, k)
    ensures Keys(r.wineProgress) == Keys(p.wineProgress) + {name}
    ensures r == p.(wineProgress := r.wineProgress)
    ensures Wf(p) ==> Wf(r)
  {
    var w := WineRecord(p, name);
    var w' := w.(timesCorrect := Bump(w.timesCorrect, isCorrect),
                 timesIncorrect := Bump(w.timesIncorrect, !isCorrect),
                 lastSeen := Some(now));
    p.(wineProgress := Put(p.wineProgress, name, w'))
  }

  /** The stored counters of a category, or 0/0. */
  function CategoryRecord(p: Progress, id: string): CategoryProgress {
    Get(p.categoryProgress, id).GetOr(CategoryProgress(0, 0))
  }

  /** `recordCategoryAnswer`. */
  function RecordCategoryAnswer(p: Progress, id: string, isCorrect: bool): (r: Progress)
    ensures Get(r.categoryProgress, id).Some?
    ensures var before := CategoryRecord(p, id);
            var after := Get(r.categoryProgress, id).value;
            && after.timesCorrect + after.timesIncorrect == before.timesCorrect + before.timesIncorrect + 1
            && (isCorrect <==> after.timesCorrect == before.timesCorrect + 1)
            && (!isCorrect <==> after.timesIncorrect == before.timesIncorrect + 1)
    ensures forall k :: k != id ==> Get(r.categoryProgress, k) == Get(p.categoryProgress, k)
    ensures r == p.(categoryProgress := r.categoryProgress)
    ensures Wf(p) ==> Wf(r)
  {
    var c := CategoryRecord(p, id);
    p.(categoryProgress := Put(p.categoryProgress, id,
         CategoryProgress(Bump(c.timesCorrect, isCorrect), Bump(c.timesIncorrect, !isCorrect))))
  }

  /** The streak after a quiz on day `today`, given the previous streak data. */
  function NextStreak(s: StreakData, today: int): nat {
    match s.lastQuizDate
    case None => 1
    case Some(last) =>
      if today - last == 0 then s.currentStreak
      else if today - last == 1 then s.currentStreak + 1
      else 1
  }

  /** `updateStreak`, called once per completed quiz. */
  function UpdateStreak(p: Progress, today: int): (r: Progress)
    ensures p.streakData.lastQuizDate.None? ==> r.streakData.currentStreak == 1
    ensures p.streakData.lastQuizDate == Some(today) ==> r.streakData.currentStreak == p.streakData.currentStreak
    ensures p.streakData.lastQuizDate == Some(today - 1) ==> r.streakData.currentStreak == p.streakData.currentStreak + 1
    ensures (p.streakData.lastQuizDate.Some? && p.streakData.lastQuizDate.value != today
             && p.streakData.lastQuizDate.value != today - 1) ==> r.streakData.currentStreak == 1
    ensures r.streakData.longestStreak >= r.streakData.currentStreak
    ensures r.streakData.longestStreak >= p.streakData.longestStreak
    ensures r.streakData.longestStreak == r.streakData.currentStreak
            || r.streakData.longestStreak == p.streakData.longestStreak
    ensures r.streakData.lastQuizDate == Some(today)
    ensures r.stats.totalQuizzes == p.stats.totalQuizzes + 1
    ensures r.stats.totalQuestions == p.stats.totalQuestions
    ensures r == p.(streakData := r.streakData, stats := r.stats)
  {
    var s := NextStreak(p.streakData, today);
    var longest := if s > p.streakData.longestStreak then s else p.streakData.longestStreak;
    p.(streakData := StreakData(s, longest, Some(today)),
       stats := p.stats.(totalQuizzes := p.stats.totalQuizzes + 1))
  }

  /** The record after quizzes on `n` consecutive days starting at `start`. */
  function QuizDays(p: Progress, start: int, n: nat): Progress
    decreases n
  {
    if n == 0 then p else QuizDays(UpdateStreak(p, start), start + 1, n - 1)
  }

  /** Quizzing on each of `n` consecutive days, the day after the last quiz,
      lengthens the streak by `n`. */
  lemma {:induction false} ConsecutiveDaysExtendStreak(p: Progress, start: int, n: nat)
    requires p.streakData.lastQuizDate == Some(start - 1)
    ensures QuizDays(p, start, n).streakData.currentStreak == p.streakData.currentStreak + n
    ensures QuizDays(p, start, n).stats.totalQuizzes == p.stats.totalQuizzes + n
    decreases n
  {
    if n > 0 {
      var q := UpdateStreak(p, start);
      ConsecutiveDaysExtendStreak(q, start + 1, n - 1);
    }
  }

  /** `incrementQuestions`. */
  function IncrementQuestions(p: Progress): (r: Progress)
    ensures r.stats.totalQuestions == p.stats.totalQuestions + 1
    ensures r.stats.totalQuizzes == p.stats.totalQuizzes
    ensures r == p.(stats := r.stats)
  {
    p.(stats := p.stats.(totalQuestions := p.stats.totalQuestions + 1))
  }

  /** `updateSettings`: shallow merge, with no check that `enabledModes` stays non-empty. */
  function UpdateSettings(p: Progress, patch: SettingsPatch): (r: Progress)
    ensures r.settings.enabledModes == patch.enabledModes.GetOr(p.settings.enabledModes)
    ensures r.settings.focusCategories == patch.focusCategories.GetOr(p.settings.focusCategories)
    ensures r.settings.difficulty == patch.difficulty.GetOr(p.settings.difficulty)
    ensures r.settings.questionsPerSession == patch.questionsPerSession.GetOr(p.settings.questionsPerSession)
    ensures r.settings.darkMode == patch.darkMode.GetOr(p.settings.darkMode)
    ensures r == p.(settings := r.settings)
  {
    var s := p.settings;
    p.(settings := Settings(
      patch.enabledModes.GetOr(s.enabledModes),
      patch.focusCategories.GetOr(s.focusCategories),
      patch.difficulty.GetOr(s.difficulty),
      patch.questionsPerSession.GetOr(s.questionsPerSession),
      patch.darkMode.GetOr(s.darkMode)))
  }

  /** Merging the same partial settings twice is merging them once. */
  lemma UpdateSettingsIdempotent(p: Progress, patch: SettingsPatch)
    ensures UpdateSettings(UpdateSettings(p, patch), patch) == UpdateSettings(p, patch)
  {
  }

  /** `toggleDarkMode`. */
  function ToggleDarkMode(p: Progress): (r: Progress)
    ensures r.settings.darkMode == !p.settings.darkMode
    ensures r == p.(settings := p.settings.(darkMode := r.settings.darkMode))
  {
    p.(settings := p.settings.(darkMode := !p.settings.darkMode))
  }

  /** `resetProgress`: the defaults, with both progress maps empty. */
  function ResetProgress(p: Progress): (r: Progress)
    ensures r.wineProgress == [] && r.categoryProgress == []
    ensures r.streakData == StreakData(0, 0, None) && r.stats == Stats(0, 0)
    ensures r.settings.enabledModes == Modes.DefaultEnabled
    ensures r.settings.focusCategories == [] && r.settings.difficulty == "medium"
    ensures r.settings.questionsPerSession == 10 && !r.settings.darkMode
    ensures Wf(r)
  {
    DefaultProgress
  }

  /** `{ ...defaultProgress, ...parsed }`: each top-level key present in the
      document replaces the default value wholesale. */
  function MergeOverDefaults(s: Snapshot): (r: Progress)
    ensures s.wineProgress.Some? ==> r.wineProgress == s.wineProgress.value
    ensures s.wineProgress.None? ==> r.wineProgress == []
    ensures s.categoryProgress.Some? ==> r.categoryProgress == s.categoryProgress.value
    ensures s.categoryProgress.None? ==> r.categoryProgress == []
    ensures r.streakData == s.streakData.GetOr(StreakData(0, 0, None))
    ensures r.settings == s.settings.GetOr(DefaultSettings)
    ensures r.stats == s.stats.GetOr(Stats(0, 0))
  {
    Progress(
      s.wineProgress.GetOr(DefaultProgress.wineProgress),
      s.categoryProgress.GetOr(DefaultProgress.categoryProgress),
      s.streakData.GetOr(DefaultProgress.streakData),
      s.settings.GetOr(DefaultProgress.settings),
      s.stats.GetOr(DefaultProgress.stats))
  }

  /** `importProgress`: `None` is a JSON parse failure, which returns false
      and leaves the state as it was. */
  function ImportProgress(p: Progress, parsed: Option<Snapshot>): (r: (Progress, bool))
    ensures r.1 <==> parsed.Some?
    ensures parsed.None? ==> r.0 == p
    ensures parsed.Some? ==> r.0 == MergeOverDefaults(parsed.value)
  {
    match parsed
    case None => (p, false)
    case Some(s) => (MergeOverDefaults(s), true)
  }

  /** The initial `useState` load: the same merge as an import, and the
      defaults when storage is empty or unparseable. */
  function InitialLoad(stored: Stored): (r: Progress)
    ensures stored.Parsed? ==> r == ImportProgress(DefaultProgress, Some(stored.snapshot)).0
    ensures !stored.Parsed? ==> r == DefaultProgress
  {
    match stored
    case Parsed(s) => MergeOverDefaults(s)
    case _ => DefaultProgress
  }

  /** The document `exportProgress` writes: every top-level key present. */
  function Export(p: Progress): (s: Snapshot)
    ensures s.wineProgress.Some? && s.categoryProgress.Some? && s.streakData.Some?
    ensures s.settings.Some? && s.stats.Some?
  {
    Snapshot(Some(p.wineProgress), Some(p.categoryProgress), Some(p.streakData),
             Some(p.settings), Some(p.stats))
  }

  /** Importing an exported document restores the exported state, whatever
      the state at import time. */
  lemma ExportImportRoundTrip(p: Progress, current: Progress)
    ensures ImportProgress(current, Some(Export(p))) == (p, true)
  {
  }

  /** `markWineStudyStatus`. */
  function MarkWineStudyStatus(p: Progress, name: string, status: StudyStatus): (r: Progress)
    ensures Get(r.wineProgress, name).Some?
    ensures var before := WineRecord(p, name);
            Get(r.wineProgress, name).value == before.(studyStatus := Some(status))
    ensures forall k :: k != name ==> Get(r.wineProgress, k) == Get(p.wineProgress, k)
    ensures r == p.(wineProgress := r.wineProgress)
    ensures Wf(p) ==> Wf(r)
  {
    p.(wineProgress := Put(p.wineProgress, name, WineRecord(p, name).(studyStatus := Some(status))))
  }
}
