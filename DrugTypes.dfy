/** The records the study engine works on (src/types/drug.types.ts). Dates are
    millisecond timestamps; the user id of each record is left out, since the
    engine only ever sees the records of one user. */
module DrugTypes {
  import opened Basics

  /** A study item: one drug of the catalogue. */
  datatype Drug = Drug(
    id: int,
    name: string,
    drugClass: string,
    system: string,
    moa: string,
    uses: seq<string>,
    sideEffects: seq<string>)

  /** No two drugs of the list share an id. */
  predicate DistinctIds(drugs: seq<Drug>)
  {
    forall i, j :: 0 <= i < j < |drugs| ==> drugs[i].id != drugs[j].id
  }

  /** The ids of a list of drugs. */
  function IdSet(drugs: seq<Drug>): (s: set<int>)
    ensures forall k :: k in s <==> exists d :: d in drugs && d.id == k
    ensures |s| <= |drugs|
  {
    if drugs == [] then {}
    else
      var init := drugs[..|drugs| - 1];
      assert drugs == init + [drugs[|drugs| - 1]];
      IdSet(init) + {drugs[|drugs| - 1].id}
  }

  datatype Difficulty = Easy | Medium | Hard

  /** The spaced-repetition state of one drug. The ease factor is kept in
      tenths (25 stands for 2.5). */
  datatype ProgressRecord = ProgressRecord(
    drugId: int,
    seen: bool,
    correctCount: nat,
    incorrectCount: nat,
    lastSeen: int,
    difficulty: Difficulty,
    nextReviewDate: int,
    reviewInterval: int,
    easeTenths: int,
    needsReview: bool,
    streakCount: nat)

  datatype StudyMode = All | Bookmarked | Unseen | Review

  datatype StudySession = StudySession(
    id: string,
    startTime: int,
    endTime: Option<int>,
    totalCards: int,
    correctCards: int,
    incorrectCards: int,
    systems: seq<string>,
    studyMode: StudyMode,
    timeSpent: int)

  /** A saved quiz result, as the achievement rules read it. */
  datatype QuizResult = QuizResult(score: int, totalQuestions: int)

  /** An option of a quiz question: a text, or the JavaScript `undefined` that
      indexing an empty list yields. */
  datatype OptionValue = Text(text: string) | Undefined

  datatype QuestionType = MoaType | UsesType | SideEffectsType | General

  /** The generated id `<prefix>_<drugId>_<Date.now()>`, kept as its parts. */
  datatype QuestionId = QuestionId(prefix: string, drugId: int, createdAt: int)

  datatype QuizQuestion = QuizQuestion(
    id: QuestionId,
    drugId: int,
    question: string,
    options: seq<OptionValue>,
    correctAnswer: int,
    questionType: QuestionType)

  datatype Category = StreakCategory | AccuracyCategory | VolumeCategory | SpeedCategory | MasteryCategory

  datatype Achievement = Achievement(
    id: string,
    name: string,
    description: string,
    icon: string,
    category: Category,
    requirement: int)
}
