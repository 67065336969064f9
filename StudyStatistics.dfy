/** Study sessions and lifetime statistics (`endStudySession` and
    `getStudyStatistics` in src/services/supabaseService.ts:450-595, repeated in
    src/data/database.ts:325-405). The two copies differ only in which sessions
    count as completed and in the calendar they assign a session to a day; both
    are parameters here: the caller passes the completed sessions, and the zone
    offset that `DayOf` numbers days in (0 for the UTC date strings of the
    remote copy, the local offset for the local copy). */
module StudyStatistics {
  import opened Basics
  import opened DrugTypes
  import opened SpacedRepetition

  // ---------------------------------------------------------------------------
  // Sessions

  /** A session as `startStudySession` writes it: no answers yet, no end. */
  function NewSession(id: string, systems: seq<string>, mode: StudyMode, totalCards: int, now: int): (s: StudySession)
    ensures s.id == id && s.startTime == now && s.endTime == None
    ensures s.correctCards == 0 && s.incorrectCards == 0 && s.timeSpent == 0
  {
    StudySession(id, now, None, totalCards, 0, 0, systems, mode, 0)
  }

  /** `Math.round((end - start) / 60000)`: the whole minutes between two
      instants, to the nearest minute. */
  function SessionMinutes(start: int, end: int): (m: int)
    ensures 2 * MinuteMs * m <= 2 * (end - start) + MinuteMs < 2 * MinuteMs * (m + 1)
    ensures end >= start ==> m >= 0
  {
    RoundDiv(end - start, MinuteMs)
  }

  /** The session `endStudySession` writes back: ended now, with the minutes
      spent since its start. */
  function EndSession(s: StudySession, now: int): (r: StudySession)
    ensures r.endTime == Some(now) && r.timeSpent == SessionMinutes(s.startTime, now)
    ensures r.(endTime := s.endTime, timeSpent := s.timeSpent) == s
  {
    s.(endTime := Some(now), timeSpent := SessionMinutes(s.startTime, now))
  }

  // ---------------------------------------------------------------------------
  // Aggregates over progress records and completed sessions

  datatype Statistics = Statistics(
    totalStudied: nat,
    totalCorrect: nat,
    totalIncorrect: nat,
    averageAccuracy: int,
    studyStreak: nat,
    cardsNeedingReview: nat,
    totalTimeSpent: int,
    sessionsCompleted: nat)

  /** The sum of `f` over the records, the `reduce((sum, p) => sum + ...)` of
      the source; a count is the sum of a 0/1 weight. */
  function SumOf(ps: seq<ProgressRecord>, f: ProgressRecord -> nat): (n: nat)
    ensures n == 0 <==> forall i :: 0 <= i < |ps| ==> f(ps[i]) == 0
  {
    if ps == [] then 0 else f(ps[0]) + SumOf(ps[1..], f)
  }

  predicate IsSeen(p: ProgressRecord) { p.seen }
  predicate IsFlagged(p: ProgressRecord) { p.needsReview }

  function SeenWeight(p: ProgressRecord): nat { if p.seen then 1 else 0 }
  function ReviewWeight(p: ProgressRecord): nat { if p.needsReview then 1 else 0 }
  function CorrectWeight(p: ProgressRecord): nat { p.correctCount }
  function IncorrectWeight(p: ProgressRecord): nat { p.incorrectCount }

  /** A count of 0/1 weights never exceeds the number of records. */
  lemma {:induction false} CountBounded(ps: seq<ProgressRecord>, f: ProgressRecord -> nat)
    requires forall p :: f(p) <= 1
    ensures SumOf(ps, f) <= |ps|
  {
    if ps != [] {
      CountBounded(ps[1..], f);
    }
  }

  /** Replacing one record changes a sum by the difference of that record's
      weights. */
  lemma {:induction false} SumOfUpdate(ps: seq<ProgressRecord>, f: ProgressRecord -> nat, i: nat, q: ProgressRecord)
    requires i < |ps|
    ensures SumOf(ps[i := q], f) == SumOf(ps, f) - f(ps[i]) + f(q)
  {
    if i > 0 {
      assert ps[i := q][1..] == ps[1..][i - 1 := q];
      SumOfUpdate(ps[1..], f, i - 1, q);
    }
  }

  /** Summing the 0/1 weight of a test counts what `filter` keeps, so the
      sum is `filter(...).length`. */
  lemma {:induction false} CountIsFilterLength(ps: seq<ProgressRecord>, f: ProgressRecord -> bool, w: ProgressRecord -> nat)
    requires forall p :: w(p) == if f(p) then 1 else 0
    ensures SumOf(ps, w) == |Filter(ps, f)|
  {
    if ps != [] {
      CountIsFilterLength(ps[1..], f, w);
    }
  }

  function SumTimeSpent(sessions: seq<StudySession>): int
  {
    if sessions == [] then 0 else sessions[0].timeSpent + SumTimeSpent(sessions[1..])
  }

  // ---------------------------------------------------------------------------
  // The study streak

  /** The walk looks at today and the 364 days before it. */
  const StreakHorizon: nat := 365

  /** Some session started on calendar day `day` (`sessions.some(...)`). */
  predicate HasSessionOn(sessions: seq<StudySession>, zone: int, day: int)
  {
    exists k :: 0 <= k < |sessions| && DayOf(sessions[k].startTime, zone) == day
  }

  /** The number of consecutive days with a session, counting back from `day`
      and looking at no more than `span` days. */
  function ActiveRun(sessions: seq<StudySession>, zone: int, day: int, span: nat): (n: nat)
    ensures n <= span
    decreases span
  {
    if span == 0 || !HasSessionOn(sessions, zone, day) then 0
    else 1 + ActiveRun(sessions, zone, day - 1, span - 1)
  }

  /** The streak as the source means it: today counts if it has a session, but
      an empty today does not end the streak; from yesterday back, the run of
      days with a session, within the horizon. */
  function StreakOf(sessions: seq<StudySession>, zone: int, now: int): (n: nat)
    ensures n <= StreakHorizon
  {
    var today := DayOf(now, zone);
    (if HasSessionOn(sessions, zone, today) then 1 else 0)
      + ActiveRun(sessions, zone, today - 1, StreakHorizon - 1)
  }

  /** The streak loop of `getStudyStatistics`: day offsets 0 to 364, counting
      days with a session and stopping at the first empty day after today. */
  method StudyStreak(sessions: seq<StudySession>, zone: int, now: int) returns (streak: nat)
    ensures streak == StreakOf(sessions, zone, now)
  {
    var today := DayOf(now, zone);
    streak := 0;
    var i := 0;
    while i < StreakHorizon
      invariant 0 <= i <= StreakHorizon
      invariant i == 0 ==> streak == 0
      invariant i > 0 ==> StreakOf(sessions, zone, now) == streak + ActiveRun(sessions, zone, today - i, StreakHorizon - i)
    {
      var hasSession := HasSessionOn(sessions, zone, today - i);
      if hasSession {
        streak := streak + 1;
      } else if i > 0 {
        break;
      }
      i := i + 1;
    }
  }

  /** No session today and none yesterday: the streak is 0, whatever happened
      before. */
  lemma TwoEmptyDaysNoStreak(sessions: seq<StudySession>, zone: int, now: int)
    requires !HasSessionOn(sessions, zone, DayOf(now, zone))
    requires !HasSessionOn(sessions, zone, DayOf(now, zone) - 1)
    ensures StreakOf(sessions, zone, now) == 0
  {
  }

  /** An empty today neither adds to the streak nor ends it: the streak is the
      run that ends yesterday. */
  lemma EmptyTodayKeepsStreak(sessions: seq<StudySession>, zone: int, now: int)
    requires !HasSessionOn(sessions, zone, DayOf(now, zone))
    ensures StreakOf(sessions, zone, now) == ActiveRun(sessions, zone, DayOf(now, zone) - 1, StreakHorizon - 1)
  {
  }

  /** Sessions on today and the two days before, none the day before those:
      a streak of three. */
  lemma ThreeDayStreak(sessions: seq<StudySession>, zone: int, now: int)
    requires forall d :: DayOf(now, zone) - 3 < d <= DayOf(now, zone) ==> HasSessionOn(sessions, zone, d)
    requires !HasSessionOn(sessions, zone, DayOf(now, zone) - 3)
    ensures StreakOf(sessions, zone, now) == 3
  {
    var today := DayOf(now, zone);
    assert HasSessionOn(sessions, zone, today);
    assert HasSessionOn(sessions, zone, today - 1);
    assert HasSessionOn(sessions, zone, today - 2);
    assert ActiveRun(sessions, zone, today - 3, StreakHorizon - 3) == 0;
    assert ActiveRun(sessions, zone, today - 2, StreakHorizon - 2) == 1;
    assert ActiveRun(sessions, zone, today - 1, StreakHorizon - 1) == 2;
  }

  /** A session on each of the `n` days up to `day` makes a run of at least
      `n`, within the span looked at. */
  lemma {:induction false} DailySessionsCount(sessions: seq<StudySession>, zone: int, day: int, span: nat, n: nat)
    requires n <= span
    requires forall d :: day - n < d <= day ==> HasSessionOn(sessions, zone, d)
    ensures ActiveRun(sessions, zone, day, span) >= n
    decreases n
  {
    if n > 0 {
      assert HasSessionOn(sessions, zone, day);
      DailySessionsCount(sessions, zone, day - 1, span - 1, n - 1);
    }
  }

  /** The statistics `getStudyStatistics` returns, from all progress records,
      the completed sessions and the streak: the number of answered records,
      the correct and incorrect answers over all records, the rounded accuracy
      of those two sums, the number of flagged records, the minutes of the
      completed sessions and their number. */
  function Aggregate(ps: seq<ProgressRecord>, completed: seq<StudySession>, streak: nat): (s: Statistics)
    ensures s.totalStudied == |Filter(ps, IsSeen)| && s.cardsNeedingReview == |Filter(ps, IsFlagged)|
    ensures s.totalStudied <= |ps| && s.cardsNeedingReview <= |ps|
    ensures s.totalCorrect == SumOf(ps, CorrectWeight) && s.totalIncorrect == SumOf(ps, IncorrectWeight)
    ensures s.averageAccuracy == Accuracy(s.totalCorrect, s.totalIncorrect)
    ensures 0 <= s.averageAccuracy <= 100
    ensures s.totalTimeSpent == SumTimeSpent(completed)
    ensures s.sessionsCompleted == |completed| && s.studyStreak == streak
  {
    CountIsFilterLength(ps, IsSeen, SeenWeight);
    CountIsFilterLength(ps, IsFlagged, ReviewWeight);
    var correct := SumOf(ps, CorrectWeight);
    var incorrect := SumOf(ps, IncorrectWeight);
    Statistics(
      SumOf(ps, SeenWeight),
      correct,
      incorrect,
      Accuracy(correct, incorrect),
      streak,
      SumOf(ps, ReviewWeight),
      SumTimeSpent(completed),
      |completed|)
  }

  /** One answer on the record at index `i` adds exactly one answer to the
      totals, on the side the answer fell; the card counts as studied from
      then on, and is flagged exactly when the answer was wrong. */
  lemma AnswerCountsOnce(ps: seq<ProgressRecord>, completed: seq<StudySession>, streak: nat,
                         i: nat, correct: bool, now: int)
    requires i < |ps|
    ensures var before := Aggregate(ps, completed, streak);
            var after := Aggregate(ps[i := Answered(ps[i], correct, now)], completed, streak);
            && after.totalCorrect + after.totalIncorrect == before.totalCorrect + before.totalIncorrect + 1
            && after.totalCorrect == before.totalCorrect + (if correct then 1 else 0)
            && after.totalStudied == before.totalStudied + (if ps[i].seen then 0 else 1)
            && after.cardsNeedingReview + (if ps[i].needsReview then 1 else 0)
               == before.cardsNeedingReview + (if correct then 0 else 1)
  {
    var q := Answered(ps[i], correct, now);
    SumOfUpdate(ps, CorrectWeight, i, q);
    SumOfUpdate(ps, IncorrectWeight, i, q);
    SumOfUpdate(ps, SeenWeight, i, q);
    SumOfUpdate(ps, ReviewWeight, i, q);
    CountIsFilterLength(ps, IsSeen, SeenWeight);
    CountIsFilterLength(ps, IsFlagged, ReviewWeight);
    CountIsFilterLength(ps[i := q], IsSeen, SeenWeight);
    CountIsFilterLength(ps[i := q], IsFlagged, ReviewWeight);
  }

  /** `getStudyStatistics` over already fetched records and completed
      sessions; days are numbered in zone `zone`. */
  method ComputeStatistics(ps: seq<ProgressRecord>, completed: seq<StudySession>, zone: int, now: int)
    returns (s: Statistics)
    ensures s == Aggregate(ps, completed, StreakOf(completed, zone, now))
    ensures s.studyStreak <= StreakHorizon
  {
    var streak := StudyStreak(completed, zone, now);
    s := Aggregate(ps, completed, streak);
  }
}
