# Pharmacology study engine: a Dafny model

This project models the study scheduling and assessment engine of a
pharmacology flashcard application written in TypeScript. It covers:

- the simplified SM-2 spaced-repetition rules: ease factor, review interval,
  difficulty and due cards. The remote backend service and the embedded
  local database each carry their own copy.
- study sessions and lifetime statistics, including the day-by-day study streak.
- the local database as an object whose tables are updated in place.
- per-system performance.
- the achievement catalogue, its unlock rules and the progress shown toward
  each achievement, with the streak milestones, emoji and messages.
- the quiz generator and scorer.
- the body-system tag utilities.
- the application state reducer.

Each module follows one source file:

| module | source |
|---|---|
| `Basics` | shared rounding, time and sequence helpers |
| `DrugTypes` | the records of `src/types/drug.types.ts` |
| `SpacedRepetition` | the scheduler rules shared by both stores |
| `RemoteStore` | `src/services/supabaseService.ts` |
| `LocalStore` | `src/data/database.ts` (class `LocalDatabase`) |
| `StudyStatistics` | the session and statistics code common to both stores |
| `Gamification` | `src/utils/gamification.ts` |
| `QuizGenerator` | `src/utils/quizGenerator.ts` |
| `SystemUtils` | `src/utils/systemUtils.ts` |
| `AppReducer` | `src/context/AppContext.tsx` |

Units and conventions:

- The ease factor is held in tenths: 25 stands for 2.5, and the floor 1.3 is 13.
- Times are integer milliseconds. A calendar day is `(ms + zone) / DayMs` for a
  fixed zone offset.
- `Math.round(n / d)` with `d > 0` is `(2n + d) / (2d)`, which rounds halves
  up as JavaScript does.
- Randomness comes in as explicit parameters:
  - Every `sort(() => Math.random() - 0.5)` is a selection shuffle driven by a
    sequence of draws. `ShuffleReaches` shows that every order of the input
    can be produced this way.
  - Each question slot receives a `Roll`: the question kind, the use or side
    effect picked, and the two shuffles.
- The current time is a parameter `now`.
- Storage reads are the rows the query returned. Storage writes are the row
  or the new table contents.

## Model

| member | source | states |
|---|---|---|
| Basics.RoundDiv | src/services/supabaseService.ts:344 | the result `r` satisfies `d*r <= n + d/2 < d*(r+1)`, i.e. `Math.round(n/d)` with halves rounded up |
| Basics.Percent | src/services/supabaseService.ts:561 | `round(100*part/whole)` lies in 0..100 when part ≤ whole, is 100 for a full score and 0 for none |
| Basics.Accuracy | src/services/supabaseService.ts:561 | accuracy is 0 with no answers, lies in 0..100, and is 100 when nothing was wrong |
| Basics.Dedup | src/utils/quizGenerator.ts:80 | `Array.from(new Set(xs))` keeps exactly the elements of `xs`, each once, no longer than `xs`, and in the order of their first appearance in `xs` |
| Basics.DayOf | src/services/supabaseService.ts:571-574 | the day number `d` of an instant satisfies `d*DayMs <= ms + zone < (d+1)*DayMs` |
| Basics.AddDays | src/services/supabaseService.ts:295 | adding `n` days moves the calendar day by exactly `n` in every zone |
| SpacedRepetition.CalculateEaseFactor | src/services/supabaseService.ts:327-333 | ease +0.1 after a correct answer and −0.2 after a wrong one, never below 1.3; the unclamped value when it is at least 1.3, otherwise 1.3 |
| SpacedRepetition.CalculateNextInterval | src/services/supabaseService.ts:335-345 | 1 day after a wrong answer; 6 days when the interval was 1; otherwise interval × ease rounded to the nearest day |
| SpacedRepetition.CorrectAnswerGrowsInterval | src/services/supabaseService.ts:327-345 | an interval of 2 days or more strictly grows on a correct answer |
| SpacedRepetition.NextDifficulty | src/services/supabaseService.ts:297-303 | one step easier after a correct answer that continues a streak of ≥ 3, one step harder after a wrong one, otherwise unchanged; the ends saturate |
| SpacedRepetition.Answered | src/services/supabaseService.ts:291-321 | the updated record: seen, last seen now, one more correct or incorrect answer, streak +1 or reset to 0, new ease, interval and difficulty, review flag = wrong answer, next review at the instant exactly `interval` days after now (so `interval` calendar days later in every zone) |
| SpacedRepetition.AnsweredKeepsValid | src/services/supabaseService.ts:291-345 | an answer preserves the record invariants: ease ≥ 1.3, interval ≥ 1, flag only on seen cards, next review at least a day after the last one |
| SpacedRepetition.ReplayCounts | src/services/supabaseService.ts:292-317 | after any run of answers the counters add up the outcomes, the streak is the run of correct answers since the last wrong one, and the record stays valid |
| RemoteStore.CreatedRecord | src/services/supabaseService.ts:268-289 | the first answer creates a valid record: one answer counted, medium difficulty, ease 2.5, interval 1, due a day later, streak 1 or 0 |
| RemoteStore.UpdateUserProgress | src/services/supabaseService.ts:260-324 | no existing row gives the created record; an existing row gives the answered record; validity is preserved |
| RemoteStore.IsDue | src/services/supabaseService.ts:359-360 | the remote due test selects only answered rows, and a valid row due without the review flag was answered at least a day before |
| RemoteStore.CardsNeedingReview | src/services/supabaseService.ts:348-364 | an id is returned exactly when some seen row for it is flagged or past its review date |
| RemoteStore.DueRightAfterAnswer | src/services/supabaseService.ts:260-360 | right after an answer the card is due exactly when the answer was wrong |
| RemoteStore.FirstTwoCorrectAnswers | src/services/supabaseService.ts:268-345 | two correct answers in a row give interval 1 then 6, ease 2.6, streak 2 |
| RemoteStore.GetStudyStatistics | src/services/supabaseService.ts:540-595 | the statistics are the aggregate of all progress rows and of the sessions with an end time, with the UTC-day streak; the streak is at most 365 |
| StudyStatistics.NewSession | src/services/supabaseService.ts:408-432 | a new session starts now with no end, no answers and no time spent |
| StudyStatistics.SessionMinutes | src/services/supabaseService.ts:459 | the minutes spent are the elapsed time rounded to the nearest minute, non-negative for an end after the start |
| StudyStatistics.EndSession | src/services/supabaseService.ts:450-470 | ending a session sets the end time and the minutes spent and changes nothing else |
| StudyStatistics.SumOf | src/services/supabaseService.ts:558-562 | a sum is zero exactly when every weight is zero |
| StudyStatistics.CountBounded | src/services/supabaseService.ts:557-561 | a count of records (studied, needing review) never exceeds the number of records |
| StudyStatistics.SumOfUpdate | src/services/supabaseService.ts:558-559 | replacing one record changes a total by the difference of that record's values |
| StudyStatistics.CountIsFilterLength | src/services/supabaseService.ts:557-561 | summing a 0/1 weight over the records gives the length of `filter` with the matching test |
| StudyStatistics.ActiveRun | src/services/supabaseService.ts:568-583 | the run of consecutive days with a session never exceeds the span looked at |
| StudyStatistics.StreakOf | src/services/supabaseService.ts:565-583 | the streak is at most 365 |
| StudyStatistics.StudyStreak | src/services/supabaseService.ts:565-583 | the loop over the last 365 days computes `StreakOf`: today counts when it has a session, an empty today does not break the streak, the first empty day before today ends it |
| StudyStatistics.TwoEmptyDaysNoStreak | src/services/supabaseService.ts:578-582 | no session today or yesterday gives a streak of 0 |
| StudyStatistics.EmptyTodayKeepsStreak | src/services/supabaseService.ts:578-582 | with no session today, the streak is the run ending yesterday |
| StudyStatistics.ThreeDayStreak | src/services/supabaseService.ts:565-583 | sessions on today and the two days before, and none the day before those, give a streak of 3 |
| StudyStatistics.DailySessionsCount | src/services/supabaseService.ts:568-583 | a session on each of `n` consecutive days makes a run of at least `n` |
| StudyStatistics.Aggregate | src/services/supabaseService.ts:557-594 | studied = the length of the seen filter, needing review = the length of the flagged filter (both at most the records), the correct and incorrect totals are the sums over all records, accuracy = round(100·c/(c+i)) of those totals (0 with no answers), time spent = the sum over the completed sessions, sessions completed = their number, and the streak as passed |
| StudyStatistics.AnswerCountsOnce | src/services/supabaseService.ts:557-561 | one answer on one record raises correct + incorrect by exactly one, on the side the answer fell; studied rises by one exactly when the card was unseen, and the flagged count follows the answer |
| StudyStatistics.ComputeStatistics | src/services/supabaseService.ts:540-595 | the returned statistics equal the aggregate with the computed streak |
| LocalStore.SeedRecord | src/data/database.ts:44-57 | every drug is seeded unseen, unflagged, with zero counts, medium difficulty, ease 2.5 and interval 1, and the record is valid |
| LocalStore.IsDue | src/data/database.ts:344-347 | the local due test selects only answered rows among valid ones, and a valid row due without the review flag was answered at least a day before |
| LocalStore.DueFiltersCompared | src/data/database.ts:344-347 | the local due filter accepts everything the remote one does, and differs only on unseen flagged records, which valid records never are |
| LocalStore.FirstCorrectAnswerComparedWithRemote | src/data/database.ts:44-57 | a first correct answer on a seeded local record gives 6 days and ease 2.6, while the remote store creates its first record with 1 day and ease 2.5 |
| LocalStore.FindKey | src/data/database.ts:200 | `get(key)` on the progress table (keyed by drug id) or the session table (keyed by session id) finds a row with that key, or reports none exactly when no row has it |
| LocalStore.DueDrugs | src/data/database.ts:341-352 | a drug is returned exactly when it is in the catalogue and some due record has its id |
| LocalStore.SystemTags | src/data/database.ts:418 | `drugs.map(d => d.system)`: the system of each drug, position by position |
| LocalStore.SystemsOf | src/data/database.ts:418 | the distinct systems of the drugs, each once, one system before another exactly in the order their first drugs appear |
| LocalStore.AverageDifficulty | src/data/database.ts:431-437 | medium when nothing was answered; easy only if some answered card is easy, hard only if some answered card is hard |
| LocalStore.AverageDifficultyOfUniformCards | src/data/database.ts:431-437 | with every answered record of one difficulty that difficulty is the bucket; with none answered, medium |
| LocalStore.PerformanceOf | src/data/database.ts:420-446 | an entry carries its system, totalCards = the number of the system's drugs, studiedCards = the seen records among the system's records, accuracy = round(100·c/(c+i)) of their sums (in 0..100), the bucket of their mean difficulty, and with unique progress keys studied ≤ total |
| LocalStore.SystemPerformanceOf | src/data/database.ts:408-447 | one entry per distinct system, in order |
| LocalStore.StudiedWithinTotal | src/data/database.ts:421-426 | with unique progress keys, the seen records of a group of drugs never outnumber the drugs |
| LocalStore.LocalDatabase.constructor | src/data/database.ts:40-59 | the catalogue plus one seeded record per drug, and no sessions |
| LocalStore.LocalDatabase.UpdateFlashcardProgress | src/data/database.ts:196-230 | the drug's row is replaced by the answered record, a missing row leaves the table as it was, and the invariants hold |
| LocalStore.LocalDatabase.CardsNeedingReview | src/data/database.ts:341-352 | the drugs with a due record |
| LocalStore.LocalDatabase.GetStudyStatistics | src/data/database.ts:355-405 | the aggregate over sessions ended after the epoch, with the streak in the local zone |
| LocalStore.LocalDatabase.GetSystemPerformance | src/data/database.ts:408-447 | one entry per system, each with studied ≤ total |
| LocalStore.LocalDatabase.StartStudySession | src/data/database.ts:289-309 | a fresh id appends a new session; a taken id fails and changes nothing |
| LocalStore.LocalDatabase.UpdateStudySession | src/data/database.ts:311-323 | sets the two counters of an existing session only |
| LocalStore.LocalDatabase.EndStudySession | src/data/database.ts:325-334 | stamps the end of an existing session only |
| Gamification.CatalogueIds | src/utils/gamification.ts:4-150 | seventeen achievements with distinct ids |
| Gamification.GetAchievementById | src/utils/gamification.ts:152-154 | a result has the requested id and is in the catalogue; none exactly when no entry has the id |
| Gamification.GetAchievementByOwnId | src/utils/gamification.ts:152-154 | looking an entry up by its own id finds that entry |
| Gamification.LookupTable | src/utils/gamification.ts:4-154 | each of the seventeen ids finds its entry |
| Gamification.GetAchievementsByCategory | src/utils/gamification.ts:156-158 | exactly the catalogue entries of the category |
| Gamification.CategoryBlocks | src/utils/gamification.ts:4-158 | each category is one block of the catalogue: 4 streak, 3 accuracy, 4 volume, 3 speed, 3 mastery |
| Gamification.ProgressRuleOfCatalogue | src/utils/gamification.ts:209-248 | for every catalogue entry the id switch of `calculateProgress` applies the rule its category gives |
| Gamification.CheckOrderIsCatalogue | src/utils/gamification.ts:171-204 | the checks test every catalogue entry, once each |
| Gamification.ThresholdRules | src/utils/gamification.ts:172-194 | each literal threshold tested equals the entry's own requirement |
| Gamification.ListRules | src/utils/gamification.ts:196-204 | the perfect quiz needs a full score on a non-empty quiz; system mastery needs some system at 90 or more |
| Gamification.PushWhen | src/utils/gamification.ts:172-204 | one check appends its entry exactly when the entry is earned |
| Gamification.CheckAchievements | src/utils/gamification.ts:160-207 | the result lists the earned entries in check order |
| Gamification.CheckedAreEarned | src/utils/gamification.ts:160-207 | an entry is returned exactly when it is in the catalogue and earned |
| Gamification.UnlockingIsMonotone | src/utils/gamification.ts:172-204 | better statistics never take an achievement away |
| Gamification.MaxOf | src/utils/gamification.ts:243 | the maximum is in the list and bounds every element |
| Gamification.CalculateProgress | src/utils/gamification.ts:209-249 | progress is at most 100; the perfect quiz shows 0 or 100 |
| Gamification.RatioFull | src/utils/gamification.ts:215-244 | `min(100, x/q*100)` is 100 exactly when `x ≥ q` |
| Gamification.ProgressFullIffUnlocked | src/utils/gamification.ts:209-249 | a catalogue entry shows 100 exactly when its unlock rule holds |
| Gamification.FirstAbove | src/utils/gamification.ts:284 | `find` returns the first milestone above the streak, or none when no milestone is above |
| Gamification.FirstAboveIsSmallest | src/utils/gamification.ts:284 | in increasing milestones, the first above the streak is the smallest above it |
| Gamification.GetNextMilestone | src/utils/gamification.ts:276-285 | the smallest milestone strictly above the streak; none from 100 on |
| Gamification.MilestonesAreStreakAchievements | src/utils/gamification.ts:277-282 | the milestones are the streak achievements: same requirements, names and icons |
| Gamification.GetStreakEmoji | src/utils/gamification.ts:267-274 | the seedling exactly for a streak of 0 and the crown exactly from 100 days on |
| Gamification.StreakEmojiBands | src/utils/gamification.ts:267-274 | equal emoji exactly for equal bands (0, <3, <7, <30, <100, ≥100); below 30 the emoji of the next milestone; from 100 the crown |
| Gamification.GetMotivationalMessage | src/utils/gamification.ts:251-265 | for any streak, negative included, a non-empty message opening with its band's own letter (S, G, Y, A, I, L for 0, <3, <7, <30, <100, ≥100) |
| Gamification.MotivationalMessageBands | src/utils/gamification.ts:251-265 | from 3 days on the message quotes the streak; below that it depends only on the band; streaks in different bands get different messages, so the wording switches at 0, 3, 7, 30 and 100 |
| QuizGenerator.Shuffle | src/utils/quizGenerator.ts:8 | a reordering keeps the length and the elements |
| QuizGenerator.ShufflePermutes | src/utils/quizGenerator.ts:8 | a reordering is a permutation (same multiset) |
| QuizGenerator.ShuffleReaches | src/utils/quizGenerator.ts:8 | every permutation of the input is produced by some draws |
| QuizGenerator.ShuffleKeepsDistinct | src/utils/quizGenerator.ts:8 | a reordering of distinct elements stays distinct |
| QuizGenerator.ShuffleKeepsDistinctIds | src/utils/quizGenerator.ts:8-18 | a reordering of drugs with distinct ids keeps the ids distinct |
| QuizGenerator.TakeThree | src/utils/quizGenerator.ts:55 | `slice(0, 3)` has min(3, n) elements, all from the input, distinct when the input is |
| QuizGenerator.IndexOf | src/utils/quizGenerator.ts:59 | the first position of the value, or −1 exactly when it is absent |
| QuizGenerator.Arrange | src/utils/quizGenerator.ts:58-59 | the options are the correct value and the distractors; the marked index holds the correct value; the options are distinct when the distractors are distinct and exclude it |
| QuizGenerator.OthersAreDistractors | src/utils/quizGenerator.ts:58-59 | every unmarked option is a distractor |
| QuizGenerator.OtherAttributes | src/utils/quizGenerator.ts:124-126 | every distractor value differs from the drug's own value |
| QuizGenerator.OtherAttributesMembers | src/utils/quizGenerator.ts:124-126 | a value is in the pool exactly when some other drug has it and it differs from the drug's own |
| QuizGenerator.OtherListed | src/utils/quizGenerator.ts:75-78 | no distractor is one of the drug's own uses or side effects |
| QuizGenerator.OtherListedMembers | src/utils/quizGenerator.ts:75-78 | an entry is in the pool exactly when some other drug lists it and the drug does not |
| QuizGenerator.Distractors | src/utils/quizGenerator.ts:80-82 | min(3, number of distinct pool values) distinct distractors, all from the pool |
| QuizGenerator.MoaQuestionAsWritten | src/utils/quizGenerator.ts:51-69 | the question as written: type moa, 1 to 4 options, and the marked option is the drug's mechanism |
| QuizGenerator.MoaQuestionRepeatsOptions | src/utils/quizGenerator.ts:51-59 | two other drugs sharing a mechanism make the as-written question repeat an option under every random outcome |
| QuizGenerator.MoaQuestion | src/utils/quizGenerator.ts:51-69 | the corrected question: type moa, sound, distinct options, 1 + min(3, distinct other mechanisms) options |
| QuizGenerator.ClassQuestion | src/utils/quizGenerator.ts:123-141 | type general, sound about the class, distinct options, 1 + min(3, distinct other classes) options |
| QuizGenerator.SystemQuestion | src/utils/quizGenerator.ts:143-161 | type general, sound about the system, distinct options, 1 + min(3, distinct other systems) options |
| QuizGenerator.UsesQuestion | src/utils/quizGenerator.ts:71-95 | type uses, the marked option is one of the drug's uses (undefined when it has none), every other option is not one of them, distinct options |
| QuizGenerator.SideEffectsQuestion | src/utils/quizGenerator.ts:97-121 | the same for side effects |
| QuizGenerator.BuildQuestion | src/utils/quizGenerator.ts:20-41 | whatever kind is drawn, the question is sound, well formed and stamped now |
| QuizGenerator.GenerateQuizQuestions | src/utils/quizGenerator.ts:3-49 | at most min(count, n) questions, exactly that many when ids are distinct, never two about one drug, each sound about a catalogue drug |
| QuizGenerator.AskedMeans | src/utils/quizGenerator.ts:14-45 | each generated question is well formed, stamped now and sound about some drug of the catalogue |
| QuizGenerator.KeyOf | src/utils/quizGenerator.ts:169 | the key lists each question's correct index |
| QuizGenerator.Matches | src/utils/quizGenerator.ts:170-172 | the score never exceeds the number of answers or of questions |
| QuizGenerator.CalculateScore | src/utils/quizGenerator.ts:163-180 | total = number of questions; score ≤ both lengths; no percentage exactly for an empty quiz; otherwise 0..100, 100 for full marks, 0 for none |
| QuizGenerator.KeyScoresAll | src/utils/quizGenerator.ts:169-172 | answering with the key scores every question |
| QuizGenerator.PerfectQuiz | src/utils/quizGenerator.ts:163-180 | answering a non-empty quiz with its key gives full score and 100% |
| QuizGenerator.CorrectingAnswerAddsOne | src/utils/quizGenerator.ts:170-172 | correcting one wrong answer raises the score by exactly one |
| QuizGenerator.ExtraAnswersIgnored | src/utils/quizGenerator.ts:170-172 | answers beyond the last question do not change the score |
| SystemUtils.LexTransitive | src/utils/systemUtils.ts:54 | the string order of `sort()` is transitive |
| SystemUtils.LexTotal | src/utils/systemUtils.ts:54 | two different strings are ordered exactly one way |
| SystemUtils.SortedUnique | src/utils/systemUtils.ts:54 | the sorted list of a set of strings is unique |
| SystemUtils.SystemSet | src/utils/systemUtils.ts:48-53 | the set holds exactly the non-empty systems of the drugs |
| SystemUtils.UniqueSystems | src/utils/systemUtils.ts:47-55 | a strictly increasing list holding exactly the set's tags |
| SystemUtils.GetUniqueSystems | src/utils/systemUtils.ts:47-55 | the set-then-sort loop returns the reference list |
| SystemUtils.UniqueSystemsMeaning | src/utils/systemUtils.ts:48-54 | no duplicates, and a tag is listed exactly when it is the non-empty system of some drug |
| SystemUtils.UniqueSystemsOrderFree | src/utils/systemUtils.ts:47-55 | the order of the drugs does not matter |
| SystemUtils.GetSystemInfo | src/utils/systemUtils.ts:75-83 | the key is kept; a known tag gets its table entry; an unknown tag gets itself as label, icon 💊 and colour #666 |
| SystemUtils.LegacyGastrointestinal | src/utils/systemUtils.ts:35 | the legacy tag GI shows as GIT |
| SystemUtils.LegacyAntimicrobial | src/utils/systemUtils.ts:36 | the legacy tag Antibiotics shows as Antimicrobial |
| SystemUtils.LegacyHematological | src/utils/systemUtils.ts:37 | the legacy tag Hemo shows as Hematological |
| SystemUtils.LegacyCardiovascular | src/utils/systemUtils.ts:38 | the legacy tag Cardio shows as CVS |
| SystemUtils.GetSystemsWithMetadata | src/utils/systemUtils.ts:60-70 | one entry per unique system, same length and order, each that tag's info |
| SystemUtils.GetAllSystemOptions | src/utils/systemUtils.ts:88-95 | the "all" entry first, then every system entry; length 1 + number of systems |
| SystemUtils.AllSystemOptionsKeysDistinct | src/utils/systemUtils.ts:88-95 | unless a drug is tagged "all", the option keys are distinct |
| SystemUtils.IsValidSystem | src/utils/systemUtils.ts:100-103 | a key is valid exactly when it is the non-empty system of some drug |
| AppReducer.Flip | src/context/AppContext.tsx:117 | toggling always changes the theme |
| AppReducer.Reduce | src/context/AppContext.tsx:57-123 | each action changes only its own field; TOGGLE_THEME always changes the theme |
| AppReducer.SetActionsReplaceOneField | src/context/AppContext.tsx:59-121 | each SET_* action replaces its one field with the payload; an unknown action returns the state unchanged |
| AppReducer.QuizStartAndEnd | src/context/AppContext.tsx:41-109 | START_QUIZ installs the questions at index 0, score 0, active; END_QUIZ restores the initial quiz |
| AppReducer.ToggleThemeTwice | src/context/AppContext.tsx:114-118 | toggling twice restores the state |
| AppReducer.Run | src/context/AppContext.tsx:57-123 | actions that do not touch the quiz leave it unchanged |
| AppReducer.ThemeAfterRun | src/context/AppContext.tsx:114-118 | after any actions the theme is flipped once per TOGGLE_THEME |
| AppReducer.AnsweringRun | src/context/AppContext.tsx:82-98 | NEXT_QUESTION and UPDATE_SCORE actions move the index by the number of advances and the score by the sum of the points, and change nothing else |
| AppReducer.QuizFromStart | src/context/AppContext.tsx:71-98 | after START_QUIZ and answering, the index counts the advances with no bound against the number of questions |
| AppReducer.IndexStaysNonNegative | src/context/AppContext.tsx:71-109 | the quiz index never becomes negative |

## Left out

- Storage and the network are not modelled. The remote queries, the local table API, authentication and errors thrown by the backend are outside the model. Functions take the rows a query returned.
- Randomness is an explicit parameter, so the probability distribution of the shuffles is not modelled. `ShuffleReaches` shows that every order can occur, and the model makes no claim about how likely each one is.
- Missing rolls or draws count as zeros.
- Session ids built from `Date.now()` and `Math.random()` are not modelled. The model takes the id as a parameter.
- Floating-point arithmetic is not modelled:
  - The ease factor is exact in tenths, so the rounding error of repeated `+ 0.1` steps is not captured.
  - Percentages are exact rationals rounded half up.
  - `calculateProgress` is a Dafny `real`.
- Gamification.CalculateProgress: requires a positive requirement and a non-empty accuracy list when one is given. Every catalogue entry has a positive requirement. An empty list makes `Math.max()` give −Infinity, and that edge is excluded rather than modelled.
- Gamification.CheckAchievements: requires both lists to be present, as the caller always supplies them. `calculateProgress` is modelled with both lists optional.
- Daylight saving time is not modelled. A local calendar day is a fixed zone offset, and `setDate(getDate() + n)` is `n * DayMs`.
- The remote copy adds `n * 24h` in milliseconds. The local copy adds calendar days, which are the same thing without daylight saving.
- UTF-16 order is not modelled. `sort()` compares UTF-16 code units, and the model compares Unicode code points. The two orders differ only for characters outside the Basic Multilingual Plane.
- Prototype keys are not modelled. In the source, a tag such as `constructor` finds an inherited property of the metadata object rather than the fallback. The model treats it as an unknown tag.
- A missing `system` field is modelled as the empty string. Both are skipped by `getUniqueSystems`.
- LocalStore.LocalDatabase.CardsNeedingReview: returns the due drugs in catalogue order. The source returns them in primary-key order, and only membership is stated.
- QuizGenerator.BuildQuestion: the MOA branch calls the corrected `MoaQuestion`, so its distinct-options guarantee holds for the corrected builder only; the source's builder is `MoaQuestionAsWritten` (see Findings).
- QuizGenerator.GenerateQuizQuestions: uses the corrected MOA question, `MoaQuestion`. The source's version is modelled as `MoaQuestionAsWritten` (see Findings).
- Question ids are modelled as structured values (prefix, drug id, timestamp) rather than the joined string.
- The scorer's answers are integers. An answer that is not a number never matches, and that case is not modelled.
- `UPDATE_SCORE` payloads are integers here. Fractional numbers are left out.
- Parts of the application are not modelled: the user interface, React context wiring, notes, bookmarks, the daily drug choice, quiz score storage, admin tools and `getSystemStats`. None of them is part of the scheduling and assessment engine.

## Findings

| source | as written | input that shows it | evidently intended | confidence | as-written member | corrected member |
|---|---|---|---|---|---|---|
| src/utils/quizGenerator.ts:51-59 | the MOA builder takes the mechanisms of three other drugs without removing repeats, unlike the other four builders, which remove repeats with `new Set` | a drug `d` and two other drugs `b`, `c` with `b.moa == c.moa != d.moa`: under every random outcome the question has three options and `b`'s mechanism appears twice | the distractors are distinct, so every option is a different answer | not executed | QuizGenerator.MoaQuestionRepeatsOptions | QuizGenerator.MoaQuestion |
