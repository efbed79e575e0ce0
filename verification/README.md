# Wine quiz core, modelled in Dafny

A Dafny model of the logic of a browser wine quiz. This is the logic that decides, grades and records a quiz answer:

- **Sampling.** The Fisher–Yates shuffle and take-k sampling (`src/utils/shuffleArray.js`).
- **Mastery scores.** Confidence-weighted mastery, level labels, the due-for-review filter and the learned count (`src/utils/calculateMastery.js`).
- **Scheduler.** The SM-2 scheduler and its due / new / mastered review queue (`src/hooks/useSpacedRepetition.js`).
- **Progress store.** Every progress transition of `src/hooks/useProgress.js`, as a pure `Progress -> Progress` function.
- **Quiz engine** (`src/components/QuizEngine.jsx`):
  - the six question generators;
  - session assembly;
  - the score / advance state machine.
- **Answer handlers** of the six quiz modes (`src/quizModes/*.jsx`). These include the QuickFire countdown, modelled as a discrete tick machine with an answered-once latch.
- **Screens.** The quiz-flow screen states and the answer dispatch of `src/components/App.jsx`.
- **Settings and quiz setup.** The settings and quiz-setup toggles (`Settings.jsx`, `QuizModeSelector.jsx`).
- **Results and study screens.** Results tiering and the review list (`QuizResults.jsx`), and the study-screen search (`StudyMode.jsx`).
- **Catalog selectors** of `src/hooks/useWineData.js`.

Conventions of the model:

- **Randomness is an input.**
  - Every `Math.random()` becomes a number read from an explicit oracle.
  - A shuffle reads a `seq<nat>`, and index `j` is the next value mod `i + 1`.
  - `getRandomItem` reads one `nat`.
  - A generator reads one `QuizEngine.Draws` record.
  - So every result is a function of its inputs, and contracts can say which.
- **Clock.**
  - The clock is an input: `now` is in milliseconds.
  - Streak dates are day numbers.
  - A day is `ProgressStore.DayMillis` = 86 400 000 ms.
- **Numbers.**
  - Mastery uses exact rationals, with `Math.round` as round-half-up (`Rounding.RoundHalfUp`).
  - The SM-2 ease factor is an integer in hundredths. The 2.5 default becomes 250 and the 1.3 floor becomes 130, so 0.1, 0.08 and 0.02 are exact.
- **JavaScript objects.** These are modelled as `Dict`: an ordered list of unique-key entries.
  - A spread update keeps a key's position.
  - A new key is appended.
  - `Get` returns `None` for a missing key.
- **JavaScript truthiness.** `details.wineName || details.categoryId` and `if (details.wineName)` use `QuizRun.Truthy`: present and non-empty.
- **Crash paths.** When the source would throw (a property read on `undefined`), the model returns `None`. Every such path is listed once, under "Crash paths" in "## Left out". A JavaScript template renders a missing value as `"undefined"`, and the model does the same.

Behaviours of the code that the model keeps as written:

- **QuickFire timeout.** A timeout is always scored incorrect: `src/quizModes/QuickFire.jsx:20` passes a literal `false`. It is never scored against `isTrue`.
- **Category-match options.** A category-match question is never refused for lack of styles. It just offers fewer options.
- **Origin-match distractor count.** With more correct places than options, the distractor count passed to `getRandomItems` is negative. It is not clamped. `slice(0, negative)` drops that many places from the end of the shuffled distractors.
- **Import and load merge.** Import and initial load merge only the top-level keys over the defaults. Nested objects are replaced whole.
- **Wines counted as new.** A wine whose two counters are both zero is "new" in the review queue, even when it has a review date.
- **`calculateUpdatedProgress`.** It is modelled, but the app never calls it. `recordWineAnswer` does not write `nextReview`, `interval` or `easeFactor`. `Scheduler.RecordedWineStaysDue` proves the consequence: once a wine without a review date is answered, it stays "due" with 0 overdue days forever.
- **Select-all ticks carry over.** The ticked names are state of the `WineSelection` component (`src/quizModes/WineSelection.jsx:5`). `src/components/QuizEngine.jsx:135-136` renders the same element type at the same place for every select-all question, with no `key`, so the ticks of one select-all question stay ticked on the next one. A leftover name that is wrong for the new question, and that the player does not click again, makes it impossible to answer correctly (`WineSelectionMode.StaleSelectionUnwinnable`).
- **Pronunciation mode.** "pronunciation" is enabled by default and seeded into sessions, but it has no generator. Such sessions come out shorter than asked (`QuizEngine.PronunciationShortensSession`).

## Model

| member | source | states |
|---|---|---|
| Sampler.Draw | src/utils/shuffleArray.js:9 | a drawn index is below the bound it was drawn for |
| Sampler.Swap | src/utils/shuffleArray.js:10 | the two positions exchange their elements, every other position is untouched, and the multiset is unchanged |
| Sampler.ShuffleFrom | src/utils/shuffleArray.js:8-11 | the swap loop from position `i` down to 1 keeps the length and the multiset of elements |
| Sampler.Shuffle | src/utils/shuffleArray.js:6-13 | the shuffle is a permutation of its input: same length, same multiset |
| Sampler.ShuffleMembers | src/utils/shuffleArray.js:6-13 | a value occurs in the shuffle exactly when it occurs in the input |
| Sampler.SliceTo | src/utils/shuffleArray.js:23 | `slice(0, end)` is a prefix of the array, never longer than it, whatever the sign of `end` |
| Sampler.GetRandomItems | src/utils/shuffleArray.js:21-24 | the sample is a sub-multiset of the input (distinct positions). For `count >= 0` it has `min(count, len)` elements. For `count >= len` it is a full permutation. A negative count keeps all but `abs(count)` elements |
| Sampler.GetRandomItem | src/utils/shuffleArray.js:31-33 | absent exactly for an empty array, otherwise one of its elements |
| Catalog.TagStyle | src/hooks/useWineData.js:83-89 | each wine of a style, in order, tagged with that style's id, name, color and description |
| Catalog.Flatten | src/hooks/useWineData.js:82-90 | the flattened list has one entry per catalog wine, each tagged by a style of the catalog that holds it. It is in catalog order: wine `j` of style `i` sits at the wine count of the styles before `i`, plus `j` |
| Catalog.FlattenComplete | src/hooks/useWineData.js:82-90 | every wine of every style appears, tagged with its own style |
| Catalog.GetAllWines | src/hooks/useWineData.js:80-91 | empty before the catalog loads; otherwise as many wines as the styles hold, each carrying its own style's fields, in catalog order (style by style, wines in their order) |
| Catalog.FindStyle | src/hooks/useWineData.js:96 | `find`: the first style with the id, absent exactly when no style has it |
| Catalog.GetWinesByStyle | src/hooks/useWineData.js:94-98 | the wines of the style with that id; empty for an unknown id or no catalog |
| Catalog.GetStyle | src/hooks/useWineData.js:101-104 | the catalog style with the id, present whenever one exists and the catalog is loaded |
| Catalog.GetAllStyles | src/hooks/useWineData.js:107-110 | the catalog's styles, or none before loading |
| Catalog.GetPronunciation | src/hooks/useWineData.js:113-116 | present exactly when the table has a non-empty `simple` entry for the name |
| Catalog.OriginParts | src/hooks/useWineData.js:125 | splitting an origin on `/` always gives at least one part |
| Catalog.AllOriginParts | src/hooks/useWineData.js:122-127 | a place is listed exactly when it is a trimmed `/`-part of some wine's origin |
| Catalog.SortedDistinct | src/hooks/useWineData.js:121-128 | strictly sorted, holding exactly the given places |
| Catalog.GetAllOrigins | src/hooks/useWineData.js:119-129 | strictly sorted (hence duplicate-free), holding exactly the trimmed `/`-parts of all catalog origins |
| Catalog.OriginsDistinct | src/hooks/useWineData.js:121-128 | no place is listed twice |
| ProgressStore.RecordWineAnswer | src/hooks/useProgress.js:48-73 | exactly one counter of that wine goes up (the correct one iff the answer was correct) and `lastSeen` becomes now. Schedule fields and study mark are kept. An unseen wine starts from the 0/0, ease 2.5 record. Other wines and all other fields are unchanged |
| ProgressStore.RecordCategoryAnswer | src/hooks/useProgress.js:76-94 | exactly one counter of that category goes up; other categories and fields unchanged |
| ProgressStore.UpdateStreak | src/hooks/useProgress.js:97-135 | no previous date gives streak 1; same day keeps it; the previous day adds one; any other gap (negative included) resets to 1. The longest streak becomes the larger of the old longest and the new current streak, the date becomes today, and quizzes go up by one |
| ProgressStore.ConsecutiveDaysExtendStreak | src/hooks/useProgress.js:111-131 | a quiz on each of `n` consecutive days raises the streak and the quiz count by `n` |
| ProgressStore.IncrementQuestions | src/hooks/useProgress.js:138-146 | only `totalQuestions` changes, by one |
| ProgressStore.UpdateSettings | src/hooks/useProgress.js:149-157 | each given setting is replaced, every other setting and field kept; no check that modes stay non-empty |
| ProgressStore.UpdateSettingsIdempotent | src/hooks/useProgress.js:149-157 | applying the same patch twice is the same as once |
| ProgressStore.ToggleDarkMode | src/hooks/useProgress.js:160-168 | only `darkMode` changes, to its negation |
| ProgressStore.ResetProgress | src/hooks/useProgress.js:171-174 | back to the defaults: no records, zero streaks and stats, all seven modes enabled, no focus categories, "medium" difficulty, 10 questions per session, dark mode off |
| ProgressStore.MergeOverDefaults | src/hooks/useProgress.js:192 | each top-level key present in the parsed document replaces the default whole; absent keys keep the default |
| ProgressStore.ImportProgress | src/hooks/useProgress.js:189-197 | reports success exactly when the text parsed; on failure the state is unchanged, on success it is the merge over defaults |
| ProgressStore.InitialLoad | src/hooks/useProgress.js:30-40 | a stored, parseable document loads as an import over the defaults; nothing stored or unparseable loads the defaults |
| ProgressStore.Export | src/hooks/useProgress.js:177-178 | the exported document carries every top-level key |
| ProgressStore.ExportImportRoundTrip | src/hooks/useProgress.js:177-197 | importing an export restores exactly the exported state, whatever the state before, and reports success |
| ProgressStore.MarkWineStudyStatus | src/hooks/useProgress.js:200-221 | the wine's record gets the mark (a default record is created if absent) with its counters kept; other wines unchanged |
| Rounding.RoundHalfUp | src/utils/calculateMastery.js:17 | `Math.round(p / q)` for positive `q`: the integer nearest `p / q`, halves rounded up |
| Rounding.RoundMonotone | src/utils/calculateMastery.js:17 | a larger numerator never rounds lower |
| Rounding.RoundScale | src/utils/calculateMastery.js:17 | scaling numerator and denominator together does not change the rounded value |
| Mastery.CalculateMastery | src/utils/calculateMastery.js:7-18 | within 0..100; 0 with no attempts; exactly `20 * correct` under 5 attempts; from 5 attempts the rounded `100 * correct / total`, so 100 for all-correct |
| Mastery.ConfidenceDampens | src/utils/calculateMastery.js:13-17 | under 5 attempts the score is strictly below the raw accuracy |
| Mastery.MasteryMonotoneInAccuracy | src/utils/calculateMastery.js:7-18 | at a fixed number of attempts, more correct answers never lower the score |
| Mastery.GetMasteryLevel | src/utils/calculateMastery.js:59-65 | each label holds exactly on its threshold band 90/70/50/25 |
| Mastery.MasteryLevelMonotone | src/utils/calculateMastery.js:59-65 | a higher score never gets a lower label |
| Mastery.CalculateOverallMastery | src/utils/calculateMastery.js:25-39 | 0 with no records; otherwise the mastery of the counters summed over all records |
| Mastery.RecordWineAnswerMovesTotals | src/utils/calculateMastery.js:30-36 | recording an answer moves the overall correct or incorrect total by exactly one |
| Mastery.CalculateCategoryMastery | src/utils/calculateMastery.js:46-52 | 0 for an absent record, else the record's mastery |
| Mastery.GetWinesDueForReview | src/utils/calculateMastery.js:72-88 | empty with no progress map; otherwise the keys of the due entries, in entry order: a name is listed exactly when its record has a review time at or before now, and there are exactly as many names as due entries |
| Mastery.DueNames | src/utils/calculateMastery.js:78-85 | the loop's list equals filter-then-map: the entries kept by the due test, in entry order, each mapped to its key; never more than the entries |
| Mastery.CountWinesLearned | src/utils/calculateMastery.js:95-98 | 0 with no progress map; otherwise the number of records (`Object.values`) whose correct count is positive, hence at most the number of records |
| Mastery.LearnedCounts | src/utils/calculateMastery.js:95-98 | the running learned count equals the count, over the record values in entry order, of those with a positive correct count |
| Mastery.RecordWineAnswerLearned | src/utils/calculateMastery.js:95-98 | an answer adds a learned wine exactly when it is the wine's first correct answer |
| Scheduler.GrownInterval | src/hooks/useSpacedRepetition.js:35 | the rounded product of interval and ease; for an ease at or above the floor it is longer than before |
| Scheduler.CalculateNextReview | src/hooks/useSpacedRepetition.js:21-46 | quality below 3 resets to interval 1 and ease 2.5. Otherwise the ease moves by the SM-2 delta and is floored at 1.3. Intervals go 0 to 1, 1 to 6, else the rounded `previous * ease`, and always grow. The review date is now plus the interval in days |
| Scheduler.EaseByQuality | src/hooks/useSpacedRepetition.js:22-23 | quality 5 adds 0.1 to the ease, quality 4 keeps it |
| Scheduler.GetQualityFromAnswer | src/hooks/useSpacedRepetition.js:51-56 | incorrect is 1, correct is 5, or 4 after hesitation |
| Scheduler.IncorrectAnswerResets | src/hooks/useSpacedRepetition.js:26-29 | an incorrect answer always takes the reset branch, whatever the prior state |
| Scheduler.PerfectReviewsGrow | src/hooks/useSpacedRepetition.js:30-36 | repeated perfect reviews give strictly growing intervals with the ease never under 1.3 |
| Scheduler.FirstPerfectReviews | src/hooks/useSpacedRepetition.js:30-33 | from a new card the first two perfect reviews give 1 then 6 days |
| Scheduler.Classify | src/hooks/useSpacedRepetition.js:71-94 | new exactly when unseen (no record or both counters zero); due exactly when seen and unscheduled or scheduled at or before now; mastered exactly when scheduled later; overdue days are the whole days past due, 0 when unscheduled |
| Scheduler.Entries | src/hooks/useSpacedRepetition.js:71-94 | one classified entry per wine, in catalog order |
| Scheduler.InsertByOverdue | src/hooks/useSpacedRepetition.js:97 | inserting into a run sorted by descending overdue days keeps it sorted and adds exactly that entry |
| Scheduler.SortByOverdue | src/hooks/useSpacedRepetition.js:97 | the due entries sorted by descending overdue days, a permutation of the input, and stable: entries with equal overdue days keep their input order |
| Scheduler.PartitionByPriority | src/hooks/useSpacedRepetition.js:71-94 | the due, new and mastered blocks together hold every entry exactly once |
| Scheduler.InsertStable | src/hooks/useSpacedRepetition.js:97 | inserting into a sorted run puts the entry ahead of all entries with its own key, so per key the order is unchanged |
| Scheduler.Queue | src/hooks/useSpacedRepetition.js:96-100 | a permutation of the entries with due before new before mastered and the due block by descending overdue days. The new and mastered blocks keep input order, and due entries with equal overdue days keep input order |
| Scheduler.WinesDueForReview | src/hooks/useSpacedRepetition.js:63-101 | one queue entry per wine, a permutation of the classified wines in priority order; new and mastered wines in catalog order, and due wines with equal overdue days in catalog order |
| Scheduler.GetNextWine | src/hooks/useSpacedRepetition.js:104-107 | the first queue entry whose name is not excluded, absent exactly when every entry is excluded |
| Scheduler.CalculateUpdatedProgress | src/hooks/useSpacedRepetition.js:110-136 | exactly one counter moves by one: `timesCorrect` exactly for a correct answer, `timesIncorrect` exactly for an incorrect one; the study mark is kept. A missing record or interval counts as 0, so a correct answer gives interval 1. Interval 1 gives 6, and a correct answer always lengthens the interval. An incorrect answer resets to 1 day and ease 2.5. Interval, ease and review date are exactly those of `CalculateNextReview` at quality 5 (correct) or 1 (incorrect), with a missing interval as 0 and an ease of 0 as 2.5 |
| Scheduler.RecordedWineStaysDue | src/hooks/useSpacedRepetition.js:90-93 | since answers never write a review date, an answered unscheduled wine stays due with 0 overdue days at any later time |
| Scheduler.PriorityCountsSum | src/hooks/useSpacedRepetition.js:139-149 | the due, new and mastered counts add up to the queue length |
| Scheduler.GetStudyStats | src/hooks/useSpacedRepetition.js:139-150 | the three counts are the block sizes and sum to the total |
| QuizEngine.GetOptionCount | src/components/QuizEngine.jsx:31-37 | 3 exactly for "easy", 5 exactly for "hard", 4 for anything else |
| QuizEngine.FilteredStyles | src/components/QuizEngine.jsx:40-46 | nothing before loading; every style with no selection; otherwise exactly the catalog styles whose id is selected, in catalog order |
| QuizEngine.Distractors | src/components/QuizEngine.jsx:229-233 | only other catalog styles, exactly `min(optionCount - 1, number of other catalog styles)` of them |
| QuizEngine.DistractorsUnique | src/components/QuizEngine.jsx:229-233 | with unique catalog ids the distractors have distinct ids |
| QuizEngine.StyleOptionsOf | src/components/QuizEngine.jsx:235-238 | the correct style first, marked correct, then each distractor marked wrong: exactly one correct option, the one with the answer's id |
| QuizEngine.ShuffleOneCorrect | src/components/QuizEngine.jsx:235-238 | shuffling keeps exactly one correct option, the answer's |
| QuizEngine.StyleChoices | src/components/QuizEngine.jsx:229-238 | exactly one correct option (the answer's), the correct style always offered, exactly `min(optionCount, 1 + number of other catalog styles)` options, every wrong option another catalog style |
| QuizEngine.StyleChoicesUnique | src/components/QuizEngine.jsx:229-238 | with unique catalog ids no two options share an id |
| QuizEngine.GenerateCategoryMatch | src/components/QuizEngine.jsx:225-250 | a wine of the pool, its own style as the answer, exactly one correct option, at most `optionCount` options; a question whenever every pool wine's style is in the catalog |
| QuizEngine.CategoryMatchSize | src/components/QuizEngine.jsx:229-238 | a category question has exactly `min(optionCount, 1 + number of catalog styles other than the answer)` options |
| QuizEngine.GenerateDescriptionMatch | src/components/QuizEngine.jsx:323-341 | absent exactly for no filtered style; otherwise a filtered style's description with that style as the single correct option, at most `optionCount` options, and the first two wines as the hint |
| QuizEngine.DescriptionMatchSize | src/components/QuizEngine.jsx:327-331 | a description question has exactly `min(optionCount, 1 + number of catalog styles other than the answer)` options |
| QuizEngine.WrongWineOpt | src/components/QuizEngine.jsx:270-278 | a wrong-style wine keeps its name and is marked wrong |
| QuizEngine.RightOptions | src/components/QuizEngine.jsx:263-269 | one correct option per wine of the style, none wrong, and every wine of the style among them |
| QuizEngine.WrongOptions | src/components/QuizEngine.jsx:270-278 | one wrong option per sampled wine, each named after a sampled wine |
| QuizEngine.SelectionOptions | src/components/QuizEngine.jsx:262-279 | all wines of the style marked correct, then the sample marked wrong: one wrong option per sampled wine, and every wine of the style among the options |
| QuizEngine.ShownOptions | src/components/QuizEngine.jsx:255-279 | exactly `min(8, wines of the style + min(4, wines of other styles))` options, at most 4 wrong; correct options are wines of the style, wrong ones wines of other styles; when the total is within 8, every wine of the style is shown |
| QuizEngine.GenerateWineSelection | src/components/QuizEngine.jsx:252-294 | absent exactly for no filtered style. At most 8 options, at most 4 of them wrong. Correct options are wines of the style, wrong ones wines of other styles. `correctWines` is exactly the names of the shown correct options, and `correctCount` is its length. The options are `ShownOptions`, and every shown wine of the style is expected |
| QuizEngine.GenerateQuickFire | src/components/QuizEngine.jsx:296-321 | the coin decides `isTrue`. A true statement names the wine's own style. A false one names a catalog style with a different id |
| QuizEngine.OddOptions | src/components/QuizEngine.jsx:362-375 | three main-style options and one odd option: exactly one marked odd |
| QuizEngine.BuildOddOneOut | src/components/QuizEngine.jsx:362-384 | four options, exactly one odd (the odd wine, of the odd style), the rest wines of the main style |
| QuizEngine.GenerateOddOneOut | src/components/QuizEngine.jsx:343-385 | absent when no filtered style has 3 wines. Otherwise four options, exactly one odd, drawn from a filtered style other than the main style (itself a filtered style with at least 3 wines). The other three are main-style wines |
| QuizEngine.OddOneOutNone | src/components/QuizEngine.jsx:343-360 | the only ways to get no question: no style with 3 wines, no other filtered style, or an odd style without wines |
| QuizEngine.PlaceOptions | src/components/QuizEngine.jsx:397-400 | every correct place marked correct, then the sampled wrong places: an option is marked correct exactly when its place is correct |
| QuizEngine.ShuffleAndCut | src/components/QuizEngine.jsx:397-401 | at most `optionCount` of the options, all of them when they fit |
| QuizEngine.OriginPool | src/components/QuizEngine.jsx:391-400 | every correct place marked correct and in the pool; an option is correct exactly when its place is one of the wine's places; when the places fit, `min(optionCount - places, other distinct places)` distractors follow them |
| QuizEngine.OriginChoices | src/components/QuizEngine.jsx:391-401 | at most `optionCount` options. When the places fit there are exactly `min(optionCount, places + other distinct places)` and every place is shown. With more places than options there are exactly `optionCount` |
| QuizEngine.GenerateOriginMatch | src/components/QuizEngine.jsx:387-410 | absent exactly for no wines. The correct places are the trimmed `/`-parts of the wine's origin. There are at most `optionCount` options, each marked correct exactly when its place is correct, and each a place of the pool. Every correct place is shown when they fit, and there are exactly `optionCount` options when they do not. The options are `OriginChoices` |
| QuizEngine.GenerateQuestion | src/components/QuizEngine.jsx:206-223 | a question always has the requested mode; a mode without a generator gives none |
| QuizEngine.PoolIndex | src/components/QuizEngine.jsx:69 | the round-robin index is inside the pool |
| QuizEngine.SlotQuestion | src/components/QuizEngine.jsx:68-70 | slot `i` asks the mode at `i mod` pool length; an empty pool or a generator-less mode gives none |
| QuizEngine.Generated | src/components/QuizEngine.jsx:68-74 | at most one question per slot, each the question of some slot |
| QuizEngine.NullSlotShortens | src/components/QuizEngine.jsx:71-73 | one slot without a question makes the session shorter than asked |
| QuizEngine.Collect | src/components/QuizEngine.jsx:65-74 | the loop collects exactly the slots' questions in slot order |
| QuizEngine.BuildSession | src/components/QuizEngine.jsx:62-77 | no questions before loading or without wines. At most `questionCount` questions, each of a selected mode. The session is a permutation of the generated questions |
| QuizEngine.GeneratedModes | src/components/QuizEngine.jsx:68-74 | every generated question's mode is in the pool |
| QuizEngine.PronunciationHasNoGenerator | src/components/QuizEngine.jsx:220-221 | "pronunciation" falls to the default branch |
| QuizEngine.PronunciationShortensSession | src/components/QuizEngine.jsx:66-74 | with "pronunciation" selected and at least as many slots as modes, the session has fewer questions than asked |
| QuizRun.HandleAnswer | src/components/QuizEngine.jsx:79-95 | the score goes up by one exactly for a correct answer. One log entry is appended, attributed to the question on screen, and feedback shows. The identifier passed up is the wine name when truthy, else the category id |
| QuizRun.HandleAnswerTallies | src/components/QuizEngine.jsx:83-92 | the score stays equal to the number of correct log entries |
| QuizRun.HandleNext | src/components/QuizEngine.jsx:97-110 | feedback hides. The results (score, question count, log) are issued exactly when advancing past the last question; otherwise the index moves to the next question |
| QuizRun.PlayThrough | src/components/QuizEngine.jsx:79-110 | answering every remaining question completes the session. The total is the question count, and the score counts the correct reports. Each log entry belongs to the question at its position |
| QuizRun.CompleteSession | src/components/QuizEngine.jsx:79-110 | a full session scores exactly its correct answers, at most one per question |
| CategoryMatchMode.FindCorrect | src/quizModes/CategoryMatch.jsx:17 | a found option is a correct one of the list; none is found only when no option is correct |
| CategoryMatchMode.HandleSelect | src/quizModes/CategoryMatch.jsx:8-19 | ignored exactly while feedback shows. The option's own flag grades the answer, and progress goes to the question's wine and its own style. The picked id is reported, and the explanation names the chosen or the correct style |
| CategoryMatchMode.Grading | src/quizModes/CategoryMatch.jsx:11 | with exactly one correct option, a pick is correct exactly when its id is the answer, and a wrong pick's explanation finds that option |
| CategoryMatchMode.GeneratedGrading | src/quizModes/CategoryMatch.jsx:8-19 | on a generated question, a pick is correct exactly when it is the wine's own style |
| DescriptionMatchMode.HandleSelect | src/quizModes/DescriptionMatch.jsx:7-16 | ignored exactly while feedback shows. The flag grades the answer. Only the question's style is reported, never a wine, and the explanation names that style either way |
| DescriptionMatchMode.GeneratedGrading | src/quizModes/DescriptionMatch.jsx:10 | on a generated question, a pick is correct exactly when it is the described style |
| OddOneOutMode.HandleSelect | src/quizModes/OddOneOut.jsx:7-17 | ignored exactly while feedback shows; correct exactly for the odd option; progress goes to the clicked wine and its style, not to the odd wine |
| OddOneOutMode.Grading | src/quizModes/OddOneOut.jsx:10-15 | with one odd option named `oddWine` and unique names, a click is correct exactly when it names the odd wine |
| OddOneOutMode.GeneratedGrading | src/quizModes/OddOneOut.jsx:7-17 | the same on any generated question whose option names are unique |
| OriginMatchMode.HandleSelect | src/quizModes/OriginMatch.jsx:7-19 | ignored exactly while feedback shows; correct exactly when the place is one of the correct places (list membership, not the flag); progress goes to the question's wine and style |
| OriginMatchMode.GradingMatchesFlag | src/quizModes/OriginMatch.jsx:10 | on a generated question, membership grading agrees with the option's flag |
| OriginMatchMode.Lookup | src/quizModes/OriginMatch.jsx:84 | the first matching row's flag, the default glass for an unlisted country, never empty when no row is |
| OriginMatchMode.FlagsDistinct | src/quizModes/OriginMatch.jsx:68-83 | the table lists each country once |
| OriginMatchMode.FlagsNonEmpty | src/quizModes/OriginMatch.jsx:68-83 | every listed flag is non-empty |
| OriginMatchMode.FlagFound | src/quizModes/OriginMatch.jsx:84 | a listed country gets its own row's flag |
| OriginMatchMode.GetCountryFlag | src/quizModes/OriginMatch.jsx:67-85 | the listed country's flag, or the wine-glass default for any other |
| OriginMatchMode.FlagExamples | src/quizModes/OriginMatch.jsx:67-85 | France gets its flag, "Various" the globe, an unlisted Greece the glass |
| WineSelectionMode.HandleToggle | src/quizModes/WineSelection.jsx:9-19 | no change while feedback shows; otherwise the name's membership flips and no other name's does |
| WineSelectionMode.ToggleAll | src/quizModes/WineSelection.jsx:9-19 | a run of clicks leaves the tick of every name it never clicks as it was |
| WineSelectionMode.StaleSelectionUnwinnable | src/quizModes/WineSelection.jsx:5 | a leftover tick that is wrong for the current question and never clicked makes every submission incorrect |
| WineSelectionMode.Explanation | src/quizModes/WineSelection.jsx:33-43 | the perfect message for a correct answer; for a wrong one it is empty only when nothing was missed or wrongly picked |
| WineSelectionMode.HandleSubmit | src/quizModes/WineSelection.jsx:21-49 | no report while feedback shows or with nothing selected (the disabled button, lines 126-131). Correct exactly when the sizes match and every pick is correct. Only the style is reported |
| WineSelectionMode.MatchesIsSetEquality | src/quizModes/WineSelection.jsx:26-28 | for duplicate-free lists the check is set equality |
| WineSelectionMode.MatchesIffNothingMissed | src/quizModes/WineSelection.jsx:26-31 | for duplicate-free lists, correct exactly when nothing is missed and nothing picked wrongly |
| WineSelectionMode.WrongAnswerExplained | src/quizModes/WineSelection.jsx:30-43 | for duplicate-free lists a wrong submission always gets a non-empty explanation |
| WineSelectionMode.RepeatedCorrectNameUnwinnable | src/quizModes/WineSelection.jsx:26-28 | when a correct name is listed twice no selection of distinct names can be correct |
| QuickFireMode.TimeUpReport | src/quizModes/QuickFire.jsx:18-24 | a timeout reports no answer, always incorrect, for the question's wine and style |
| QuickFireMode.Tick | src/quizModes/QuickFire.jsx:14-30 | a stopped timer ignores ticks. Above 1 a tick counts down by one. At 1 or below the timer stops at 0 and reports the timeout exactly when unanswered and no feedback was showing, closing the latch |
| QuickFireMode.HandleAnswer | src/quizModes/QuickFire.jsx:39-54 | ignored while feedback shows or once answered; otherwise the latch closes, the timer stops, and the answer is correct exactly when it equals `isTrue` |
| QuickFireMode.AtMostOneReport | src/quizModes/QuickFire.jsx:8-54 | whatever ticks and presses arrive, a question reports at most once, and never after the latch closed |
| QuickFireMode.CountdownTimesOut | src/quizModes/QuickFire.jsx:14-30 | with no press, `n` ticks from `n` stay quiet until the last, which reports the timeout once |
| QuickFireMode.FreshQuestionTimesOut | src/quizModes/QuickFire.jsx:10-30 | a fresh question left alone for 10 ticks reports one incorrect non-answer |
| App.Navigate | src/components/App.jsx:85-90 | the view changes; leaving the quiz view resets the quiz state to idle |
| App.StartQuiz | src/components/App.jsx:92-95 | quiz view, configuring |
| App.BeginQuiz | src/components/App.jsx:97-99 | playing, nothing else changes |
| App.CompleteQuiz | src/components/App.jsx:111-115 | results shown with the given results, and the streak updated exactly once (one more quiz, dated today) |
| App.ExitQuiz | src/components/App.jsx:117-120 | idle on the home view |
| App.PlayAgain | src/components/App.jsx:122-124 | configuring, nothing else changes |
| App.HandleQuizAnswer | src/components/App.jsx:101-109 | a wine record moves exactly when the wine name is truthy, a category record exactly when the category id is. In each, `timesCorrect` goes up exactly for a correct answer and `timesIncorrect` exactly for an incorrect one. The wine's `lastSeen` becomes now. Every other wine and category is unchanged. `totalQuestions` goes up once, unconditionally, and settings, streak and quiz count are kept |
| App.AnswerMovesOverallTotals | src/components/App.jsx:101-109 | an answer with a wine name moves the overall mastery totals by one, in the graded direction |
| App.SeedConfig | src/components/App.jsx:75-83 | the quiz setup gets the enabled modes, every catalog style id in order, and the per-session count |
| App.DefaultSeedIncludesPronunciation | src/components/App.jsx:79 | with default settings "pronunciation" is seeded into the selected modes |
| SettingsPanel.HandleModeToggle | src/components/Settings.jsx:35-44 | an enabled mode is removed, a disabled one appended. No update is issued exactly when the result would be empty. Any update issued has modes and touches nothing else |
| SettingsPanel.OnlyLastModeRefused | src/components/Settings.jsx:40-43 | for duplicate-free modes, only disabling the single enabled mode is refused |
| SettingsPanel.LastModeStays | src/components/Settings.jsx:35-44 | toggles from the settings screen never leave the enabled modes empty |
| SettingsPanel.DifficultyChangeIsolated | src/components/Settings.jsx:46-48 | applying the difficulty handler's update sets the difficulty and leaves every other setting and field as it was |
| SettingsPanel.QuestionCountChangeIsolated | src/components/Settings.jsx:50-52 | applying the session-length handler's update sets the questions per session and leaves every other setting and field as it was |
| ModeSelector.Mount | src/components/QuizModeSelector.jsx:56 | the select-all flag starts set exactly when as many modes are selected as enabled |
| ModeSelector.ToggleMode | src/components/QuizModeSelector.jsx:58-64 | the mode's membership flips, an absent mode is appended, nothing else changes (the flag included) |
| ModeSelector.ToggleCategory | src/components/QuizModeSelector.jsx:75-81 | the category's membership flips, an absent one is appended, nothing else changes |
| ModeSelector.SelectAllModes | src/components/QuizModeSelector.jsx:66-73 | clears the modes when the flag is set, else selects every enabled mode, then flips the flag |
| ModeSelector.CategoryIds | src/components/QuizModeSelector.jsx:87 | the catalog ids in order |
| ModeSelector.SelectAllCategories | src/components/QuizModeSelector.jsx:83-89 | clears the categories when as many are selected as exist, else selects every id in catalog order |
| ModeSelector.ToggleModeTwice | src/components/QuizModeSelector.jsx:58-64 | toggling a mode twice restores the selected set |
| ModeSelector.SelectAllModesTwice | src/components/QuizModeSelector.jsx:66-73 | two presses restore the flag, and from a set flag end with every enabled mode selected |
| ModeSelector.SelectAllCategoriesToggles | src/components/QuizModeSelector.jsx:83-91 | a partial selection becomes all, then none; with modes and styles the quiz can then start |
| ModeSelector.ClearedSelectionCannotStart | src/components/QuizModeSelector.jsx:66-91 | after select-all clears the modes the quiz cannot start |
| ResultsView.Percentage | src/components/QuizResults.jsx:2 | the rounded `100 * score / total`, absent (NaN) exactly for no questions, within 0..100 for a valid score, 100 for a full score |
| ResultsView.PercentageBounds | src/components/QuizResults.jsx:2 | the rounded percentage is never negative, at most 100 for a score within the total, exactly 100 for a full score |
| ResultsView.GetMessage | src/components/QuizResults.jsx:4-10 | each tier holds exactly on its band: 100, at least 80, 60, 40, else (NaN included) the lowest |
| ResultsView.TierMonotone | src/components/QuizResults.jsx:4-10 | up to 100, a higher percentage never gets a lower tier |
| ResultsView.TierNotMonotoneAbove100 | src/components/QuizResults.jsx:5-6 | above 100 the tier drops back below "Perfect Score" |
| ResultsView.CompletedSessionTier | src/components/QuizResults.jsx:2-10 | for one session size, a higher score never gets a lower tier |
| ResultsView.IncorrectAnswers | src/components/QuizResults.jsx:15 | exactly the incorrect answers, as many as there are, in answer order |
| ResultsView.ReviewListSize | src/components/QuizResults.jsx:15 | for issued results the review list has `answers - score` entries |
| ResultsView.ReviewLabel | src/components/QuizResults.jsx:37-40 | never empty; the wine name when the question has a non-empty one, else a non-empty style name; "Question" for odd-one-out; always one of wine name, style name, statement or "Question" |
| Text.Lower | src/components/StudyMode.jsx:17 | `toLowerCase` keeps the length and lower-cases each A-Z letter in place |
| Text.Split | src/hooks/useWineData.js:125 | `split` on one character gives at least one part, and no part contains the separator |
| Text.SplitJoin | src/components/QuizEngine.jsx:391-392 | joining the parts back with the separator gives the original string |
| Text.TrimStart | src/hooks/useWineData.js:125 | drops exactly the leading white space: what is left is a suffix that does not start with white space |
| Text.TrimEnd | src/hooks/useWineData.js:125 | drops exactly the trailing white space: what is left is a prefix that does not end with white space |
| Text.TrimSplits | src/hooks/useWineData.js:125 | `trim` removes white space from the two ends only: the input is leading space, the result, trailing space |
| Text.CodeUnitKey | src/hooks/useWineData.js:128 | characters below U+D800 compare by value; U+E000-U+FFFF sort after every astral character, as their UTF-16 code units do |
| Text.SurrogatesSortLow | src/hooks/useWineData.js:128 | the default sort puts U+10000 before U+E000 |
| StudyView.Narrow | src/components/StudyMode.jsx:18-23 | the style with its wines cut to exactly those whose lower-cased name or origin contains the query |
| StudyView.SearchIn | src/components/StudyMode.jsx:18-24 | only narrowed catalog styles, none left empty, no more styles than the catalog |
| StudyView.SearchComplete | src/components/StudyMode.jsx:18-24 | every matching wine is kept under its own style's id |
| StudyView.NarrowAll | src/components/StudyMode.jsx:18-23 | every style narrowed, position by position |
| StudyView.SearchIsMapThenFilter | src/components/StudyMode.jsx:18-24 | the search is narrow-all then drop-empty, so catalog and wine order are kept |
| StudyView.SearchStyles | src/components/StudyMode.jsx:14-25 | nothing before loading, the whole catalog for an empty query, otherwise the search on the lower-cased query |
| StudyView.SearchSound | src/components/StudyMode.jsx:17-24 | every kept wine matches and sits under a catalog style of the same id that holds it |
| StudyView.SearchKeepsMatches | src/components/StudyMode.jsx:17-24 | no matching wine is dropped |
| StudyView.GetWineProgress | src/components/StudyMode.jsx:27-33 | the stored counters and mark, or 0/0 with no mark |
| StudyView.MarkShows | src/components/StudyMode.jsx:27-33 | after marking a wine the study screen shows the mark with the counters it had |

## Left out

- **Catalog I/O.** The catalog fetch, its cache and the offline fallback (`useWineData.js:16-77`) are network and storage I/O. The catalog and pronunciation table are inputs.
- **Persistence I/O.**
  - The `localStorage` reads and writes and the Blob/anchor download are I/O.
  - The model keeps only the resulting state.
  - A stored or imported document is given as already parsed (`Snapshot`) or unparseable.
- **File reading.** The settings screen's `FileReader` is I/O. Import starts from the text's parse result.
- **QuickFire timer.** The real `setInterval` timer is modelled as discrete `TimerFired` events. React's batching of state updaters is not modelled.
- **Display.** Speech (`speak.js`, `SpeakButton.jsx`), navigation, JSX markup, hover and hint state, CSS, the online/offline listeners and the dark-mode body class are display only.
- **Summary screens.** `Home.jsx` and `ProgressDashboard.jsx` only recompose the mastery functions modelled here. Their activity calendar depends on time-zone behaviour of `Date`.
- **Number precision.** Exact arithmetic replaces IEEE-754 doubles, so accumulated rounding drift is out of scope.
- **Dates.**
  - Streak dates are day numbers, not ISO date strings.
  - `setDate(getDate() + n)` is taken as `n` whole days of milliseconds, ignoring daylight-saving shifts.
  - Review times are millisecond numbers rather than ISO strings.
- Text.Lower: `toLowerCase` is modelled on ASCII letters only, because Unicode's case-mapping tables are outside the model; a query or name with an accented capital letter is lower-cased differently by the app.
- **Nested merge.** The import and initial-load merge assume each present top-level value is complete. A partially filled nested object from a hand-edited file is not modelled.
- **Prototype keys.** The wine-progress and flag lookups treat the objects as plain maps. Inherited keys such as `"constructor"` are not modelled.
- **Crash paths.** Where the source throws, the model gives no question or no report (`None`). There are six kinds:
  - a generator drawing from an empty list: no wine for category match, quick fire or origin match (the session builder never asks without wines), or no filtered style for select-all or description match;
  - a category-match wine, or a true quick-fire statement's wine, whose style is not in the catalog;
  - a false quick-fire statement when no other catalog style exists;
  - an odd-one-out style without wines;
  - a QuickFire wrong answer whose question has no catalog style;
  - a review label for an answer logged past the last question: `ResultsView.ReviewLabel` takes a question, and such an answer has none.
- **Flag emoji.** The flag table's emoji are read as the intended UTF-8 flags, globe and wine glass. The characters stored in the source file are mis-encoded.
- QuizEngine.BuildSession: the final session shuffle is stated as a permutation, not by position.
- QuizEngine.GenerateQuickFire: does not state which draw picks the wrong style, only that it is a catalog style with a different id.
- Catalog.OriginParts: states only that an origin has at least one part. Splitting and trimming are by construction.
