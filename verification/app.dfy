/** The top-level flow of src/components/App.jsx: which view is on screen,
    where the quiz stands, the quiz configuration it seeds, and how each
    reported answer and each completed quiz reach the progress record. */
module App {
  import opened Wrappers
  import opened Catalog
  import opened Questions
  import opened ProgressStore
  import Dict
  import Mastery
  import QuizRun
  import Modes

  const HomeView: string := "home"
  const QuizView: string := "quiz"

  datatype QuizState = Idle | Configuring | Playing | ShowingResults

  datatype QuizConfig = QuizConfig(selectedModes: seq<string>, selectedCategories: seq<string>, questionCount: int)

  datatype Screen = Screen(view: string, quizState: QuizState, config: QuizConfig, results: Option<QuizRun.Results>)

  /** The state on first render. */
  const Initial: Screen := Screen(HomeView, Idle, QuizConfig([], [], 10), None)

  /** `handleNavigate`: any view other than the quiz abandons the quiz. */
  function Navigate(s: Screen, view: string): (r: Screen)
    ensures r.view == view
    ensures view != QuizView ==> r.quizState == Idle
    ensures view == QuizView ==> r.quizState == s.quizState
    ensures r.config == s.config && r.results == s.results
  {
    s.(view := view, quizState := if view != QuizView then Idle else s.quizState)
  }

  /** `handleStartQuiz`: open the quiz view on the configuration step. */
  function StartQuiz(s: Screen): (r: Screen)
    ensures r.view == QuizView && r.quizState == Configuring
    ensures r.config == s.config && r.results == s.results
  {
    s.(view := QuizView, quizState := Configuring)
  }

  /** `handleBeginQuiz`. */
  function BeginQuiz(s: Screen): (r: Screen)
    ensures r.quizState == Playing
    ensures r == s.(quizState := r.quizState)
  {
    s.(quizState := Playing)
  }

  /** `handleQuizComplete`: keep the results, show them, and count the quiz
      toward the streak exactly once, on day `today`. */
  function CompleteQuiz(s: Screen, p: Progress, results: QuizRun.Results, today: int): (r: (Screen, Progress))
    ensures r.0.quizState == ShowingResults && r.0.results == Some(results)
    ensures r.0.view == s.view && r.0.config == s.config
    ensures r.1.stats.totalQuizzes == p.stats.totalQuizzes + 1
    ensures r.1.streakData.lastQuizDate == Some(today)
    ensures r.1 == p.(streakData := r.1.streakData, stats := r.1.stats)
  {
    (s.(results := Some(results), quizState := ShowingResults), UpdateStreak(p, today))
  }

  /** `handleExitQuiz`. */
  function ExitQuiz(s: Screen): (r: Screen)
    ensures r.quizState == Idle && r.view == HomeView
    ensures r.config == s.config && r.results == s.results
  {
    s.(quizState := Idle, view := HomeView)
  }

  /** `handlePlayAgain`. */
  function PlayAgain(s: Screen): (r: Screen)
    ensures r.quizState == Configuring
    ensures r == s.(quizState := r.quizState)
  {
    s.(quizState := Configuring)
  }

  /** Attempts recorded for a wine. */
  function WineAttempts(p: Progress, name: string): nat {
    WineRecord(p, name).timesCorrect + WineRecord(p, name).timesIncorrect
  }

  /** Attempts recorded for a category. */
  function CategoryAttempts(p: Progress, id: string): nat {
    CategoryRecord(p, id).timesCorrect + CategoryRecord(p, id).timesIncorrect
  }

  /** `handleQuizAnswer`: the wine is credited when the details name one
      (a non-empty name), the category likewise, and the question counter
      moves on every answer. Nothing else of the record changes. */
  function HandleQuizAnswer(p: Progress, isCorrect: bool, details: Details, now: int): (r: Progress)
    ensures QuizRun.Truthy(details.wineName) ==>
              WineAttempts(r, details.wineName.value) == WineAttempts(p, details.wineName.value) + 1
    ensures !QuizRun.Truthy(details.wineName) ==> r.wineProgress == p.wineProgress
    ensures QuizRun.Truthy(details.categoryId) ==>
              CategoryAttempts(r, details.categoryId.value) == CategoryAttempts(p, details.categoryId.value) + 1
    ensures !QuizRun.Truthy(details.categoryId) ==> r.categoryProgress == p.categoryProgress
    ensures QuizRun.Truthy(details.wineName) ==>
              var w := details.wineName.value;
              && (isCorrect <==> WineRecord(r, w).timesCorrect == WineRecord(p, w).timesCorrect + 1)
              && (!isCorrect <==> WineRecord(r, w).timesIncorrect == WineRecord(p, w).timesIncorrect + 1)
              && WineRecord(r, w).lastSeen == Some(now)
              && forall k :: k != w ==> Dict.Get(r.wineProgress, k) == Dict.Get(p.wineProgress, k)
    ensures QuizRun.Truthy(details.categoryId) ==>
              var c := details.categoryId.value;
              && (isCorrect <==> CategoryRecord(r, c).timesCorrect == CategoryRecord(p, c).timesCorrect + 1)
              && (!isCorrect <==> CategoryRecord(r, c).timesIncorrect == CategoryRecord(p, c).timesIncorrect + 1)
              && forall k :: k != c ==> Dict.Get(r.categoryProgress, k) == Dict.Get(p.categoryProgress, k)
    ensures r.stats.totalQuestions == p.stats.totalQuestions + 1
    ensures r.stats.totalQuizzes == p.stats.totalQuizzes
    ensures r.settings == p.settings && r.streakData == p.streakData
    ensures Wf(p) ==> Wf(r)
  {
    var p1 := if QuizRun.Truthy(details.wineName) then RecordWineAnswer(p, details.wineName.value, isCorrect, now) else p;
    var p2 := if QuizRun.Truthy(details.categoryId) then RecordCategoryAnswer(p1, details.categoryId.value, isCorrect) else p1;
    IncrementQuestions(p2)
  }

  /** An answer that names a wine moves the counters behind the overall
      mastery by one, on the side it was graded; one that names no wine
      leaves them alone. */
  lemma AnswerMovesOverallTotals(p: Progress, isCorrect: bool, details: Details, now: int)
    requires Wf(p)
    ensures var r := HandleQuizAnswer(p, isCorrect, details, now).wineProgress;
            var moved := if QuizRun.Truthy(details.wineName) then 1 else 0;
            && Mastery.TotalCorrect(r) == Mastery.TotalCorrect(p.wineProgress) + (if isCorrect then moved else 0)
            && Mastery.TotalIncorrect(r) == Mastery.TotalIncorrect(p.wineProgress) + (if isCorrect then 0 else moved)
  {
    if QuizRun.Truthy(details.wineName) {
      Mastery.RecordWineAnswerMovesTotals(p, details.wineName.value, isCorrect, now);
    }
  }

  /** The configuration seeded from the settings and the catalog: every
      enabled mode, every category id in catalog order, and the session length. */
  function SeedConfig(config: QuizConfig, settings: Settings, data: Option<Catalog>): (r: QuizConfig)
    ensures r.selectedModes == settings.enabledModes
    ensures |r.selectedCategories| == |GetAllStyles(data)|
    ensures forall i :: 0 <= i < |r.selectedCategories| ==> r.selectedCategories[i] == GetAllStyles(data)[i].id
    ensures r.questionCount == settings.questionsPerSession
  {
    var styles := GetAllStyles(data);
    QuizConfig(settings.enabledModes, seq(|styles|, i requires 0 <= i < |styles| => styles[i].id),
               settings.questionsPerSession)
  }

  /** With the default settings, "pronunciation" is among the seeded modes. */
  lemma DefaultSeedIncludesPronunciation(config: QuizConfig, data: Option<Catalog>)
    ensures Modes.Pronunciation in SeedConfig(config, DefaultSettings, data).selectedModes
  {
    assert Modes.DefaultEnabled[2] == Modes.Pronunciation;
  }
}
