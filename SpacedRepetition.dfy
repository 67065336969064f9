/** The simplified SM-2 rules both stores apply when a card is answered
    (src/services/supabaseService.ts:291-345; src/data/database.ts:203-251 is a
    line-for-line copy). The ease factor is held in tenths: 25 is 2.5 and the
    floor 1.3 is 13, so `Math.round(interval * ease)` is a rounded division by
    ten. */
module SpacedRepetition {
  import opened Basics
  import opened DrugTypes

  const InitialEase: int := 25
  const MinEase: int := 13

  /** `calculateEaseFactor`: +0.1 after a correct answer, -0.2 after an
      incorrect one, never below 1.3. */
  function CalculateEaseFactor(ease: int, correct: bool): (r: int)
    ensures r >= MinEase
    ensures var moved := if correct then ease + 1 else ease - 2;
            r >= moved && (moved >= MinEase ==> r == moved) && (moved < MinEase ==> r == MinEase)
  {
    if correct then
      (if MinEase >= ease + 1 then MinEase else ease + 1)
    else
      (if MinEase >= ease - 2 then MinEase else ease - 2)
  }

  /** `calculateNextInterval`, in days, given the already updated ease. */
  function CalculateNextInterval(interval: int, ease: int, correct: bool): (r: int)
    ensures !correct ==> r == 1
    ensures correct && interval == 1 ==> r == 6
    ensures correct && interval != 1 ==> 10 * r <= interval * ease + 5 < 10 * r + 10
  {
    if !correct then 1
    else if interval == 1 then 6
    else RoundDiv(interval * ease, 10)
  }

  /** An interval of two days or more strictly grows on a correct answer, since
      the ease the interval is multiplied by is at least 1.4 by then. */
  lemma CorrectAnswerGrowsInterval(interval: int, ease: int)
    requires interval >= 2 && ease >= MinEase
    ensures CalculateNextInterval(interval, CalculateEaseFactor(ease, true), true) > interval
  {
    var e := CalculateEaseFactor(ease, true);
    assert e >= 14;
    assert interval * e >= interval * 14;
  }

  /** The position of a difficulty on the easy-to-hard ladder. */
  function Rank(d: Difficulty): int
  {
    match d
    case Easy => 1
    case Medium => 2
    case Hard => 3
  }

  /** The difficulty after an answer: one step toward easy after a correct
      answer that extends a streak of at least three, one step toward hard after
      an incorrect answer, otherwise unchanged; both ends saturate. */
  function NextDifficulty(d: Difficulty, correct: bool, oldStreak: nat): (r: Difficulty)
    ensures correct && oldStreak >= 3 ==> Rank(r) == if d == Easy then 1 else Rank(d) - 1
    ensures !correct ==> Rank(r) == if d == Hard then 3 else Rank(d) + 1
    ensures correct && oldStreak < 3 ==> r == d
  {
    if correct && oldStreak >= 3 then
      (if d == Hard then Medium else Easy)
    else if !correct then
      (if d == Easy then Medium else Hard)
    else d
  }

  /** The record an answer turns `p` into (the update branch of both stores). */
  function Answered(p: ProgressRecord, correct: bool, now: int): (r: ProgressRecord)
    ensures r.drugId == p.drugId && r.seen && r.lastSeen == now
    ensures r.needsReview == !correct
    ensures r.correctCount + r.incorrectCount == p.correctCount + p.incorrectCount + 1
    ensures correct ==> r.correctCount == p.correctCount + 1 && r.streakCount == p.streakCount + 1
    ensures !correct ==> r.incorrectCount == p.incorrectCount + 1 && r.streakCount == 0
    ensures r.easeTenths == CalculateEaseFactor(p.easeTenths, correct)
    ensures r.reviewInterval == CalculateNextInterval(p.reviewInterval, r.easeTenths, correct)
    ensures r.difficulty == NextDifficulty(p.difficulty, correct, p.streakCount)
    ensures r.nextReviewDate == AddDays(now, r.reviewInterval)
  {
    var ease := CalculateEaseFactor(p.easeTenths, correct);
    var interval := CalculateNextInterval(p.reviewInterval, ease, correct);
    p.(seen := true,
       correctCount := if correct then p.correctCount + 1 else p.correctCount,
       incorrectCount := if correct then p.incorrectCount else p.incorrectCount + 1,
       lastSeen := now,
       difficulty := NextDifficulty(p.difficulty, correct, p.streakCount),
       nextReviewDate := AddDays(now, interval),
       reviewInterval := interval,
       easeTenths := ease,
       needsReview := !correct,
       streakCount := if correct then p.streakCount + 1 else 0)
  }

  /** The invariants every stored record keeps: the ease floor, an interval of
      at least one day, a review flag only on a card already answered, and an
      answered card scheduled at least one day after it was last seen. */
  predicate ValidRecord(p: ProgressRecord)
  {
    && p.easeTenths >= MinEase
    && p.reviewInterval >= 1
    && (!p.seen ==> !p.needsReview)
    && (p.seen ==> p.nextReviewDate >= p.lastSeen + DayMs)
  }

  lemma AnsweredKeepsValid(p: ProgressRecord, correct: bool, now: int)
    requires ValidRecord(p)
    ensures ValidRecord(Answered(p, correct, now))
  {
    var r := Answered(p, correct, now);
    if correct && p.reviewInterval != 1 {
      assert p.reviewInterval * r.easeTenths >= p.reviewInterval * MinEase;
    }
  }

  /** The answers `answers` given one after another, all at time `now`. */
  function Replay(p: ProgressRecord, answers: seq<bool>, now: int): ProgressRecord
    decreases |answers|
  {
    if answers == [] then p else Replay(Answered(p, answers[0], now), answers[1..], now)
  }

  function CountTrue(s: seq<bool>): nat
  {
    if s == [] then 0 else (if s[0] then 1 else 0) + CountTrue(s[1..])
  }

  /** The number of `true` answers at the end of `s`. */
  function TrailingTrue(s: seq<bool>): nat
    ensures TrailingTrue(s) <= |s|
  {
    if s == [] || !s[|s| - 1] then 0 else 1 + TrailingTrue(s[..|s| - 1])
  }

  lemma TrailingTrueCons(b: bool, s: seq<bool>)
    ensures TrailingTrue([b] + s) == if TrailingTrue(s) == |s| then (if b then |s| + 1 else |s|) else TrailingTrue(s)
    decreases |s|
  {
    var t := [b] + s;
    if s != [] {
      assert t[..|t| - 1] == [b] + s[..|s| - 1];
      if s[|s| - 1] {
        TrailingTrueCons(b, s[..|s| - 1]);
      }
    }
  }

  /** A run of answers: the counters add up the outcomes, the streak counts
      the correct answers since the last incorrect one (continuing the old
      streak if there was none), and the record stays valid. */
  lemma {:induction false} ReplayCounts(p: ProgressRecord, answers: seq<bool>, now: int)
    requires ValidRecord(p)
    ensures var r := Replay(p, answers, now);
            && ValidRecord(r)
            && r.correctCount == p.correctCount + CountTrue(answers)
            && r.correctCount + r.incorrectCount == p.correctCount + p.incorrectCount + |answers|
            && r.streakCount == (if TrailingTrue(answers) == |answers| then p.streakCount + |answers| else TrailingTrue(answers))
            && (answers != [] ==> r.seen && r.needsReview == !answers[|answers| - 1])
    decreases |answers|
  {
    if answers != [] {
      var q := Answered(p, answers[0], now);
      AnsweredKeepsValid(p, answers[0], now);
      ReplayCounts(q, answers[1..], now);
      TrailingTrueCons(answers[0], answers[1..]);
      assert [answers[0]] + answers[1..] == answers;
      if |answers| > 1 {
        assert answers[1..][|answers[1..]| - 1] == answers[|answers| - 1];
      }
    }
  }
}
