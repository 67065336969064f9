/** The remote-backend copy of the scheduler (src/services/supabaseService.ts):
    the progress row `updateUserProgress` writes, the due filter of
    `getCardsNeedingReview` and the statistics of `getStudyStatistics`. The
    queries themselves are storage I/O: a function here receives the rows the
    query returned and yields the row to write or the value to return. */
module RemoteStore {
  import opened Basics
  import opened DrugTypes
  import opened SpacedRepetition
  import opened StudyStatistics

  /** The row inserted on the first answer to a drug. */
  function CreatedRecord(drugId: int, correct: bool, now: int): (r: ProgressRecord)
    ensures ValidRecord(r) && r.drugId == drugId && r.seen && r.lastSeen == now
    ensures r.correctCount + r.incorrectCount == 1 && (r.correctCount == 1 <==> correct)
    ensures r.needsReview == !correct && r.streakCount == (if correct then 1 else 0)
    ensures r.difficulty == Medium && r.easeTenths == InitialEase && r.reviewInterval == 1
    ensures r.nextReviewDate == now + DayMs
  {
    ProgressRecord(
      drugId := drugId,
      seen := true,
      correctCount := if correct then 1 else 0,
      incorrectCount := if correct then 0 else 1,
      lastSeen := now,
      difficulty := Medium,
      nextReviewDate := now + DayMs,
      reviewInterval := 1,
      easeTenths := InitialEase,
      needsReview := !correct,
      streakCount := if correct then 1 else 0)
  }

  /** `updateUserProgress`: the row written for an answer, given the row
      fetched for the drug, if any. */
  function UpdateUserProgress(existing: Option<ProgressRecord>, drugId: int, correct: bool, now: int): (r: ProgressRecord)
    ensures r.seen && r.needsReview == !correct && r.lastSeen == now
    ensures existing.None? ==> r == CreatedRecord(drugId, correct, now)
    ensures existing.Some? ==> r == Answered(existing.value, correct, now)
    ensures existing.Some? && ValidRecord(existing.value) ==> ValidRecord(r)
  {
    match existing
    case None => CreatedRecord(drugId, correct, now)
    case Some(p) =>
      if ValidRecord(p) then AnsweredKeepsValid(p, correct, now); Answered(p, correct, now)
      else Answered(p, correct, now)
  }

  /** The query of `getCardsNeedingReview`: answered, and flagged or past its
      review date. A valid record that is due without the flag was last
      answered at least a day ago. */
  predicate IsDue(p: ProgressRecord, now: int)
    ensures IsDue(p, now) ==> p.seen
    ensures ValidRecord(p) && IsDue(p, now) && !p.needsReview ==> now >= p.lastSeen + DayMs
  {
    p.seen && (p.needsReview || p.nextReviewDate <= now)
  }

  /** The ids of the drugs `getCardsNeedingReview` returns. */
  function CardsNeedingReview(rows: seq<ProgressRecord>, now: int): (ids: seq<int>)
    ensures |ids| <= |rows|
    ensures forall id :: id in ids <==> exists p :: p in rows && IsDue(p, now) && p.drugId == id
  {
    if rows == [] then []
    else (if IsDue(rows[0], now) then [rows[0].drugId] else []) + CardsNeedingReview(rows[1..], now)
  }

  /** Right after an answer a card is due exactly when the answer was wrong:
      a correct answer schedules it at least a day ahead and clears the flag. */
  lemma DueRightAfterAnswer(existing: Option<ProgressRecord>, drugId: int, correct: bool, now: int)
    requires existing.Some? ==> ValidRecord(existing.value)
    ensures IsDue(UpdateUserProgress(existing, drugId, correct, now), now) <==> !correct
  {
    var r := UpdateUserProgress(existing, drugId, correct, now);
    assert ValidRecord(r);
  }

  /** The first answer to a drug gives interval 1; a second correct answer
      then gives 6 days, with ease 2.6 and a streak of 2. */
  lemma FirstTwoCorrectAnswers(drugId: int, t1: int, t2: int)
    ensures var r1 := UpdateUserProgress(None, drugId, true, t1);
            var r2 := UpdateUserProgress(Some(r1), drugId, true, t2);
            && r1.reviewInterval == 1 && r1.nextReviewDate == t1 + DayMs
            && r2.reviewInterval == 6 && r2.easeTenths == 26 && r2.streakCount == 2
            && r2.difficulty == Medium
  {
  }

  /** The sessions `getStudyStatistics` reads: those with an end time. */
  predicate HasEnded(s: StudySession)
  {
    s.endTime.Some?
  }

  /** `getStudyStatistics` over all of the user's progress rows and sessions;
      a session belongs to the UTC day of its start. */
  method GetStudyStatistics(progress: seq<ProgressRecord>, sessions: seq<StudySession>, now: int)
    returns (s: Statistics)
    ensures var completed := Filter(sessions, HasEnded);
            s == Aggregate(progress, completed, StreakOf(completed, 0, now))
    ensures s.sessionsCompleted <= |sessions| && s.studyStreak <= StreakHorizon
  {
    var completed := Filter(sessions, HasEnded);
    s := ComputeStatistics(progress, completed, 0, now);
  }
}
