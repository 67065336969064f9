/** The local-store copy of the scheduler (src/data/database.ts). The embedded
    database is a `LocalDatabase` object whose fields are its tables: the drug
    catalogue, the flashcard progress table keyed by drug id and the study
    sessions keyed by session id. A table is held as the sequence of its rows,
    which is what `toArray()` returns; `Valid()` keeps the keys unique. */
module LocalStore {
  import opened Basics
  import opened DrugTypes
  import opened SpacedRepetition
  import opened StudyStatistics
  import RemoteStore

  /** The progress record `initializeDatabase` seeds for every drug. */
  function SeedRecord(drugId: int, now: int): (r: ProgressRecord)
    ensures ValidRecord(r) && r.drugId == drugId && !r.seen && !r.needsReview
    ensures r.correctCount == 0 && r.incorrectCount == 0 && r.streakCount == 0
    ensures r.difficulty == Medium && r.easeTenths == InitialEase && r.reviewInterval == 1
  {
    ProgressRecord(
      drugId := drugId,
      seen := false,
      correctCount := 0,
      incorrectCount := 0,
      lastSeen := now,
      difficulty := Medium,
      nextReviewDate := now,
      reviewInterval := 1,
      easeTenths := InitialEase,
      needsReview := false,
      streakCount := 0)
  }

  /** The filter of `getCardsNeedingReview`: flagged, or answered and past its
      review date. */
  predicate IsDue(p: ProgressRecord, now: int)
    ensures ValidRecord(p) && IsDue(p, now) ==> p.seen
    ensures ValidRecord(p) && IsDue(p, now) && !p.needsReview ==> now >= p.lastSeen + DayMs
  {
    p.needsReview || (p.seen && p.nextReviewDate <= now)
  }

  /** Every record the remote query returns passes the local filter too; the
      converse holds for records that keep the invariants, since only an
      unanswered record with the review flag set tells the two apart. */
  lemma DueFiltersCompared(p: ProgressRecord, now: int)
    ensures RemoteStore.IsDue(p, now) ==> IsDue(p, now)
    ensures IsDue(p, now) && !RemoteStore.IsDue(p, now) <==> !p.seen && p.needsReview
    ensures ValidRecord(p) ==> (IsDue(p, now) <==> RemoteStore.IsDue(p, now))
  {
  }

  /** The first correct answer on a seeded record already gives 6 days and ease
      2.6, whereas the remote copy creates its first record with 1 day and
      ease 2.5. */
  lemma FirstCorrectAnswerComparedWithRemote(drugId: int, seededAt: int, now: int)
    ensures var local := Answered(SeedRecord(drugId, seededAt), true, now);
            var remote := RemoteStore.UpdateUserProgress(None, drugId, true, now);
            && local.reviewInterval == 6 && local.easeTenths == 26
            && remote.reviewInterval == 1 && remote.easeTenths == InitialEase
            && local.streakCount == 1 && remote.streakCount == 1
            && local.correctCount == 1 && remote.correctCount == 1
  {
  }

  predicate UniqueKeys(rows: seq<ProgressRecord>)
  {
    forall i, j :: 0 <= i < j < |rows| ==> rows[i].drugId != rows[j].drugId
  }

  predicate UniqueSessionIds(sessions: seq<StudySession>)
  {
    forall i, j :: 0 <= i < j < |sessions| ==> sessions[i].id != sessions[j].id
  }

  /** The primary key of a progress row and of a session row. */
  function DrugKey(p: ProgressRecord): int { p.drugId }
  function SessionKey(s: StudySession): string { s.id }

  /** The position of the row whose primary key is `k` (`table.get(k)`). */
  function FindKey<R, K(==)>(rows: seq<R>, key: R -> K, k: K): (r: Option<nat>)
    ensures r.Some? ==> r.value < |rows| && key(rows[r.value]) == k
    ensures r.None? <==> forall i :: 0 <= i < |rows| ==> key(rows[i]) != k
  {
    if rows == [] then None
    else if key(rows[0]) == k then Some(0)
    else match FindKey(rows[1..], key, k)
      case None => None
      case Some(i) => Some(i + 1)
  }

  /** The drugs of the catalogue whose progress record is due. */
  function DueDrugs(drugs: seq<Drug>, rows: seq<ProgressRecord>, now: int): (due: seq<Drug>)
    ensures |due| <= |drugs|
    ensures forall d :: d in due <==> d in drugs && exists p :: p in rows && p.drugId == d.id && IsDue(p, now)
  {
    if drugs == [] then []
    else
      (if exists p :: p in rows && p.drugId == drugs[0].id && IsDue(p, now) then [drugs[0]] else [])
        + DueDrugs(drugs[1..], rows, now)
  }

  /** The sessions the local statistics read: `where('endTime').above(new
      Date(0))` keeps only sessions whose end time is after the epoch. */
  predicate EndedAfterEpoch(s: StudySession)
  {
    s.endTime.Some? && s.endTime.value > 0
  }

  // ---------------------------------------------------------------------------
  // Per-system performance (`getSystemPerformance`)

  datatype SystemPerformance = SystemPerformance(
    system: string,
    totalCards: nat,
    studiedCards: nat,
    accuracy: int,
    averageDifficulty: Difficulty)

  /** `drugs.map(d => d.system)`. */
  function SystemTags(drugs: seq<Drug>): (tags: seq<string>)
    ensures |tags| == |drugs| && forall i :: 0 <= i < |drugs| ==> tags[i] == drugs[i].system
  {
    seq(|drugs|, i requires 0 <= i < |drugs| => drugs[i].system)
  }

  /** `Array.from(new Set(drugs.map(d => d.system)))`: every system once, a
      system before another when its first drug comes first. */
  function SystemsOf(drugs: seq<Drug>): (r: seq<string>)
    ensures forall x :: x in r <==> exists d :: d in drugs && d.system == x
    ensures Distinct(r)
    ensures forall x :: x in r <==> x in SystemTags(drugs)
    ensures forall i, j :: 0 <= i < j < |r| ==>
      FirstIndex(SystemTags(drugs), r[i]) < FirstIndex(SystemTags(drugs), r[j])
  {
    var tags := SystemTags(drugs);
    assert forall x :: x in tags <==> exists d :: d in drugs && d.system == x by {
      forall x ensures x in tags ==> exists d :: d in drugs && d.system == x {
        if x in tags {
          var i :| 0 <= i < |tags| && tags[i] == x;
          assert drugs[i] in drugs;
        }
      }
      forall x ensures (exists d :: d in drugs && d.system == x) ==> x in tags {
        if exists d :: d in drugs && d.system == x {
          var d :| d in drugs && d.system == x;
          var i :| 0 <= i < |drugs| && drugs[i] == d;
          assert tags[i] == x;
        }
      }
    }
    Dedup(tags)
  }

  /** easy = 1, medium = 2, hard = 3. */
  function DifficultyScore(p: ProgressRecord): nat
  {
    match p.difficulty
    case Easy => 1
    case Medium => 2
    case Hard => 3
  }

  /** Scores of 2 or more average to 2 or more; scores of at most 2 average
      to at most 2. */
  lemma {:induction false} DifficultyScoreBounds(seen: seq<ProgressRecord>)
    ensures (forall i :: 0 <= i < |seen| ==> seen[i].difficulty != Easy) ==> 2 * |seen| <= SumOf(seen, DifficultyScore)
    ensures (forall i :: 0 <= i < |seen| ==> seen[i].difficulty != Hard) ==> SumOf(seen, DifficultyScore) <= 2 * |seen|
  {
    if seen != [] {
      DifficultyScoreBounds(seen[1..]);
      assert forall i :: 0 <= i < |seen[1..]| ==> seen[1..][i] == seen[i + 1];
    }
  }

  /** The bucket of the mean difficulty score of the answered records: at most
      1.5 is easy, at most 2.5 medium, above that hard; no answered record
      counts as a mean of 2. So a system is easy only with some easy card
      answered, and hard only with some hard card answered. */
  function AverageDifficulty(ps: seq<ProgressRecord>): (r: Difficulty)
    ensures (forall p :: p in ps ==> !p.seen) ==> r == Medium
    ensures r == Easy ==> exists p :: p in ps && p.seen && p.difficulty == Easy
    ensures r == Hard ==> exists p :: p in ps && p.seen && p.difficulty == Hard
  {
    var seen := Filter(ps, IsSeen);
    var n := |seen|;
    var score := SumOf(seen, DifficultyScore);
    DifficultyScoreBounds(seen);
    assert forall i :: 0 <= i < |seen| ==> seen[i] in seen;
    if n == 0 then Medium
    else if 2 * score <= 3 * n then Easy
    else if 2 * score <= 5 * n then Medium
    else Hard
  }

  lemma {:induction false} SumOfConstant(ps: seq<ProgressRecord>, f: ProgressRecord -> nat, c: nat)
    requires forall i :: 0 <= i < |ps| ==> f(ps[i]) == c
    ensures SumOf(ps, f) == c * |ps|
  {
    if ps != [] {
      SumOfConstant(ps[1..], f, c);
    }
  }

  /** When every answered record of a system has the same difficulty, that
      difficulty is the system's bucket; with none answered it is medium. */
  lemma AverageDifficultyOfUniformCards(ps: seq<ProgressRecord>, d: Difficulty)
    requires forall p :: p in ps && p.seen ==> p.difficulty == d
    ensures (forall p :: p in ps ==> !p.seen) ==> AverageDifficulty(ps) == Medium
    ensures (exists p :: p in ps && p.seen) ==> AverageDifficulty(ps) == d
  {
    var seen := Filter(ps, IsSeen);
    var c: nat := match d case Easy => 1 case Medium => 2 case Hard => 3;
    assert forall i :: 0 <= i < |seen| ==> seen[i] in seen;
    SumOfConstant(seen, DifficultyScore, c);
    if exists p :: p in ps && p.seen {
      var p :| p in ps && p.seen;
      assert p in seen;
    }
  }

  function SystemDrugs(drugs: seq<Drug>, system: string): seq<Drug>
  {
    Filter(drugs, (d: Drug) => d.system == system)
  }

  function SystemProgress(rows: seq<ProgressRecord>, systemDrugs: seq<Drug>): seq<ProgressRecord>
  {
    Filter(rows, (p: ProgressRecord) => exists d :: d in systemDrugs && d.id == p.drugId)
  }

  /** One entry of `getSystemPerformance`: the number of the system's drugs,
      the number of answered records among the system's records, the rounded
      accuracy of their correct and incorrect sums and the bucket of their
      mean difficulty. With one record per drug, no more cards are studied than
      the system has. */
  function PerformanceOf(drugs: seq<Drug>, rows: seq<ProgressRecord>, system: string): (r: SystemPerformance)
    ensures r.system == system && r.totalCards == |SystemDrugs(drugs, system)|
    ensures var ps := SystemProgress(rows, SystemDrugs(drugs, system));
            && r.studiedCards == |Filter(ps, IsSeen)|
            && r.accuracy == Accuracy(SumOf(ps, CorrectWeight), SumOf(ps, IncorrectWeight))
            && r.averageDifficulty == AverageDifficulty(ps)
    ensures 0 <= r.accuracy <= 100
    ensures UniqueKeys(rows) ==> r.studiedCards <= r.totalCards
  {
    var ds := SystemDrugs(drugs, system);
    var ps := SystemProgress(rows, ds);
    CountIsFilterLength(ps, IsSeen, SeenWeight);
    StudiedWithinTotal(ds, rows);
    SystemPerformance(
      system,
      |ds|,
      SumOf(ps, SeenWeight),
      Accuracy(SumOf(ps, CorrectWeight), SumOf(ps, IncorrectWeight)),
      AverageDifficulty(ps))
  }

  /** `getSystemPerformance`: one entry per distinct system, in order of
      first appearance in the catalogue. */
  function SystemPerformanceOf(drugs: seq<Drug>, rows: seq<ProgressRecord>): (r: seq<SystemPerformance>)
    ensures |r| == |SystemsOf(drugs)|
    ensures forall i :: 0 <= i < |r| ==> r[i] == PerformanceOf(drugs, rows, SystemsOf(drugs)[i])
  {
    var systems := SystemsOf(drugs);
    seq(|systems|, i requires 0 <= i < |systems| => PerformanceOf(drugs, rows, systems[i]))
  }

  /** Rows with distinct keys drawn from `ids` are no more than `ids`. */
  lemma {:induction false} UniqueKeysWithin(rows: seq<ProgressRecord>, ids: set<int>)
    requires UniqueKeys(rows)
    requires forall p :: p in rows ==> p.drugId in ids
    ensures |rows| <= |ids|
  {
    if rows != [] {
      var rest := rows[1..];
      forall p | p in rest
        ensures p.drugId in ids - {rows[0].drugId}
      {
        var k :| 0 <= k < |rest| && rest[k] == p;
        assert rows[k + 1] == p;
      }
      UniqueKeysWithin(rest, ids - {rows[0].drugId});
    }
  }

  lemma {:induction false} FilterKeepsUniqueKeys(rows: seq<ProgressRecord>, f: ProgressRecord -> bool)
    requires UniqueKeys(rows)
    ensures UniqueKeys(Filter(rows, f))
  {
    if rows != [] {
      FilterKeepsUniqueKeys(rows[1..], f);
      var rest := Filter(rows[1..], f);
      forall p | p in rest
        ensures p.drugId != rows[0].drugId
      {
        var k :| 0 <= k < |rows[1..]| && rows[1..][k] == p;
        assert rows[k + 1] == p;
      }
    }
  }

  /** A group of drugs never has more answered records than drugs, because
      progress rows are keyed by drug id. */
  lemma StudiedWithinTotal(ds: seq<Drug>, rows: seq<ProgressRecord>)
    ensures UniqueKeys(rows) ==> SumOf(SystemProgress(rows, ds), SeenWeight) <= |ds|
  {
    if UniqueKeys(rows) {
      var ps := SystemProgress(rows, ds);
      CountBounded(ps, SeenWeight);
      FilterKeepsUniqueKeys(rows, (p: ProgressRecord) => exists d :: d in ds && d.id == p.drugId);
      UniqueKeysWithin(ps, IdSet(ds));
    }
  }

  // ---------------------------------------------------------------------------
  // The database object

  class LocalDatabase {
    var drugs: seq<Drug>
    var progress: seq<ProgressRecord>
    var sessions: seq<StudySession>

    ghost predicate Valid()
      reads this
    {
      && DistinctIds(drugs)
      && UniqueKeys(progress)
      && UniqueSessionIds(sessions)
      && forall i :: 0 <= i < |progress| ==> ValidRecord(progress[i])
    }

    /** `initializeDatabase` on an empty database: the catalogue, and one
        seeded progress record per drug. */
    constructor (catalogue: seq<Drug>, now: int)
      requires DistinctIds(catalogue)
      ensures Valid() && drugs == catalogue && sessions == []
      ensures |progress| == |catalogue|
      ensures forall i :: 0 <= i < |catalogue| ==> progress[i] == SeedRecord(catalogue[i].id, now)
    {
      drugs := catalogue;
      progress := seq(|catalogue|, i requires 0 <= i < |catalogue| => SeedRecord(catalogue[i].id, now));
      sessions := [];
    }

    /** `updateFlashcardProgress`: the answer updates the drug's record in
        place; a drug without a record is left alone. */
    method UpdateFlashcardProgress(drugId: int, correct: bool, now: int)
      requires Valid()
      modifies this`progress
      ensures Valid()
      ensures match FindKey(old(progress), DrugKey, drugId)
              case None => progress == old(progress)
              case Some(i) => progress == old(progress)[i := Answered(old(progress)[i], correct, now)]
    {
      var found := FindKey(progress, DrugKey, drugId);
      match found {
        case None =>
        case Some(i) =>
          AnsweredKeepsValid(progress[i], correct, now);
          progress := progress[i := Answered(progress[i], correct, now)];
      }
    }

    /** `getCardsNeedingReview`: the drugs whose record is due. */
    function CardsNeedingReview(now: int): (due: seq<Drug>)
      reads this
      ensures forall d :: d in due <==> d in drugs && exists p :: p in progress && p.drugId == d.id && IsDue(p, now)
    {
      DueDrugs(drugs, progress, now)
    }

    /** `getStudyStatistics`: a session belongs to the day of its start in the
        local zone, whose offset from UTC is `zone`. */
    method GetStudyStatistics(zone: int, now: int) returns (s: Statistics)
      ensures var completed := Filter(sessions, EndedAfterEpoch);
              s == Aggregate(progress, completed, StreakOf(completed, zone, now))
      ensures s.totalStudied <= |progress| && s.studyStreak <= StreakHorizon
    {
      var completed := Filter(sessions, EndedAfterEpoch);
      s := ComputeStatistics(progress, completed, zone, now);
    }

    /** `getSystemPerformance`. */
    function GetSystemPerformance(): (r: seq<SystemPerformance>)
      reads this
      requires Valid()
      ensures |r| == |SystemsOf(drugs)|
      ensures forall i :: 0 <= i < |r| ==> r[i] == PerformanceOf(drugs, progress, SystemsOf(drugs)[i])
      ensures forall i :: 0 <= i < |r| ==> r[i].studiedCards <= r[i].totalCards
    {
      SystemPerformanceOf(drugs, progress)
    }

    /** `startStudySession`: adding a session whose id is already taken fails,
        as the store's `add` does, and changes nothing. */
    method StartStudySession(id: string, systems: seq<string>, mode: StudyMode, totalCards: int, now: int)
      returns (ok: bool)
      requires Valid()
      modifies this`sessions
      ensures Valid()
      ensures ok <==> FindKey(old(sessions), SessionKey, id).None?
      ensures sessions == if ok then old(sessions) + [NewSession(id, systems, mode, totalCards, now)] else old(sessions)
    {
      ok := FindKey(sessions, SessionKey, id).None?;
      if ok {
        sessions := sessions + [NewSession(id, systems, mode, totalCards, now)];
      }
    }

    /** `updateStudySession`: records the running counts, if the session
        exists. */
    method UpdateStudySession(id: string, correctCards: int, incorrectCards: int)
      requires Valid()
      modifies this`sessions
      ensures Valid()
      ensures match FindKey(old(sessions), SessionKey, id)
              case None => sessions == old(sessions)
              case Some(i) => sessions == old(sessions)[i := old(sessions)[i].(correctCards := correctCards, incorrectCards := incorrectCards)]
    {
      match FindKey(sessions, SessionKey, id) {
        case None =>
        case Some(i) =>
          sessions := sessions[i := sessions[i].(correctCards := correctCards, incorrectCards := incorrectCards)];
      }
    }

    /** `endStudySession`: stamps the end and the minutes spent, if the
        session exists. */
    method EndStudySession(id: string, now: int)
      requires Valid()
      modifies this`sessions
      ensures Valid()
      ensures match FindKey(old(sessions), SessionKey, id)
              case None => sessions == old(sessions)
              case Some(i) => sessions == old(sessions)[i := EndSession(old(sessions)[i], now)]
    {
      match FindKey(sessions, SessionKey, id) {
        case None =>
        case Some(i) =>
          sessions := sessions[i := EndSession(sessions[i], now)];
      }
    }
  }
}
