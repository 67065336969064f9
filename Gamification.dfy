/** The achievement engine (src/utils/gamification.ts): a fixed catalogue of
    seventeen achievements, the rules that unlock them from a user's
    statistics, the progress shown toward each, and the streak milestones,
    emoji and messages. */
module Gamification {
  import opened Basics
  import opened DrugTypes

  // ---------------------------------------------------------------------------
  // The catalogue

  const Streak3 := Achievement("streak_3", "Getting Started", "Study for 3 consecutive days", "🔥", StreakCategory, 3)
  const Streak7 := Achievement("streak_7", "Week Warrior", "Study for 7 consecutive days", "⚡", StreakCategory, 7)
  const Streak30 := Achievement("streak_30", "Monthly Master", "Study for 30 consecutive days", "🏆", StreakCategory, 30)
  const Streak100 := Achievement("streak_100", "Century Scholar", "Study for 100 consecutive days", "👑", StreakCategory, 100)
  const Accuracy80 := Achievement("accuracy_80", "Sharp Mind", "Achieve 80% accuracy overall", "🎯", AccuracyCategory, 80)
  const Accuracy90 := Achievement("accuracy_90", "Precision Expert", "Achieve 90% accuracy overall", "🏹", AccuracyCategory, 90)
  const Accuracy95 := Achievement("accuracy_95", "Near Perfect", "Achieve 95% accuracy overall", "💎", AccuracyCategory, 95)
  const Cards50 := Achievement("cards_50", "Dedicated Learner", "Study 50 flashcards", "📚", VolumeCategory, 50)
  const Cards200 := Achievement("cards_200", "Knowledge Seeker", "Study 200 flashcards", "🎓", VolumeCategory, 200)
  const Cards500 := Achievement("cards_500", "Study Machine", "Study 500 flashcards", "🤖", VolumeCategory, 500)
  const Cards1000 := Achievement("cards_1000", "Master Scholar", "Study 1000 flashcards", "🧙‍♂️", VolumeCategory, 1000)
  const QuizPerfect := Achievement("quiz_perfect", "Perfect Score", "Get 100% on any quiz", "⭐", SpeedCategory, 100)
  const Sessions10 := Achievement("sessions_10", "Consistent Student", "Complete 10 study sessions", "📖", SpeedCategory, 10)
  const Sessions50 := Achievement("sessions_50", "Study Veteran", "Complete 50 study sessions", "🎖️", SpeedCategory, 50)
  const SystemMaster := Achievement("system_master", "System Master", "Achieve 90% accuracy in any system", "🏅", MasteryCategory, 90)
  /** The requirement of the time achievements is in minutes. */
  const Time10h := Achievement("time_10h", "Time Invested", "Study for 10 total hours", "⏰", MasteryCategory, 600)
  const Time50h := Achievement("time_50h", "Dedicated Scholar", "Study for 50 total hours", "⌛", MasteryCategory, 3000)

  const StreakAchievements: seq<Achievement> := [Streak3, Streak7, Streak30, Streak100]
  const AccuracyAchievements: seq<Achievement> := [Accuracy80, Accuracy90, Accuracy95]
  const VolumeAchievements: seq<Achievement> := [Cards50, Cards200, Cards500, Cards1000]
  const SpeedAchievements: seq<Achievement> := [QuizPerfect, Sessions10, Sessions50]
  const MasteryAchievements: seq<Achievement> := [SystemMaster, Time10h, Time50h]

  /** `ACHIEVEMENTS`, in declaration order. */
  const Achievements: seq<Achievement> :=
    StreakAchievements + AccuracyAchievements + VolumeAchievements + SpeedAchievements + MasteryAchievements

  predicate UniqueIds(cat: seq<Achievement>)
  {
    forall i, j :: 0 <= i < j < |cat| ==> cat[i].id != cat[j].id
  }

  /** The first entry of `cat` with id `id` (`find`). */
  function FindById(cat: seq<Achievement>, id: string): (r: Option<Achievement>)
    ensures r.Some? ==> r.value in cat && r.value.id == id
    ensures r.None? <==> forall a :: a in cat ==> a.id != id
  {
    if cat == [] then None
    else if cat[0].id == id then Some(cat[0])
    else FindById(cat[1..], id)
  }

  /** `getAchievementById`. */
  function GetAchievementById(id: string): (r: Option<Achievement>)
    ensures r.Some? ==> r.value in Achievements && r.value.id == id
    ensures r.None? <==> forall a :: a in Achievements ==> a.id != id
  {
    FindById(Achievements, id)
  }

  /** Seventeen entries with distinct ids. */
  lemma CatalogueIds()
    ensures |Achievements| == 17
    ensures UniqueIds(Achievements)
  {
  }

  /** Looking an entry up by its own id finds that entry. */
  lemma {:induction false} FindByOwnId(cat: seq<Achievement>, a: Achievement)
    requires UniqueIds(cat) && a in cat
    ensures FindById(cat, a.id) == Some(a)
  {
    if cat[0] != a {
      assert a in cat[1..];
      var k :| 0 <= k < |cat[1..]| && cat[1..][k] == a;
      assert cat[k + 1] == a;
      FindByOwnId(cat[1..], a);
    }
  }

  lemma GetAchievementByOwnId(a: Achievement)
    requires a in Achievements
    ensures GetAchievementById(a.id) == Some(a)
  {
    CatalogueIds();
    FindByOwnId(Achievements, a);
  }

  /** The entries of `cat` in category `c`, in order (`filter`). */
  function ByCategory(cat: seq<Achievement>, c: Category): seq<Achievement>
  {
    if cat == [] then [] else (if cat[0].category == c then [cat[0]] else []) + ByCategory(cat[1..], c)
  }

  lemma {:induction false} ByCategoryMembers(cat: seq<Achievement>, c: Category)
    ensures forall a :: a in ByCategory(cat, c) <==> a in cat && a.category == c
  {
    if cat != [] {
      ByCategoryMembers(cat[1..], c);
    }
  }

  /** `getAchievementsByCategory`. */
  function GetAchievementsByCategory(c: Category): (r: seq<Achievement>)
    ensures forall a :: a in r <==> a in Achievements && a.category == c
  {
    ByCategoryMembers(Achievements, c);
    ByCategory(Achievements, c)
  }

  lemma {:induction false} ByCategoryAppend(x: seq<Achievement>, y: seq<Achievement>, c: Category)
    ensures ByCategory(x + y, c) == ByCategory(x, c) + ByCategory(y, c)
  {
    if x == [] {
      assert x + y == y;
    } else {
      assert (x + y)[1..] == x[1..] + y;
      ByCategoryAppend(x[1..], y, c);
    }
  }

  lemma {:induction false} ByCategoryUniform(x: seq<Achievement>, c: Category, d: Category)
    requires forall i :: 0 <= i < |x| ==> x[i].category == d
    ensures ByCategory(x, c) == if c == d then x else []
  {
    if x != [] {
      assert x == [x[0]] + x[1..];
      ByCategoryUniform(x[1..], c, d);
    }
  }

  lemma CatalogueSplits(c: Category)
    ensures ByCategory(Achievements, c) ==
      ByCategory(StreakAchievements, c) + ByCategory(AccuracyAchievements, c) + ByCategory(VolumeAchievements, c)
      + ByCategory(SpeedAchievements, c) + ByCategory(MasteryAchievements, c)
  {
    var s1, s2, s3, s4, s5 := StreakAchievements, AccuracyAchievements, VolumeAchievements, SpeedAchievements, MasteryAchievements;
    ByCategoryAppend(s1 + s2 + s3 + s4, s5, c);
    ByCategoryAppend(s1 + s2 + s3, s4, c);
    ByCategoryAppend(s1 + s2, s3, c);
    ByCategoryAppend(s1, s2, c);
  }

  lemma BlocksAreUniform(c: Category)
    ensures ByCategory(StreakAchievements, c) == if c == StreakCategory then StreakAchievements else []
    ensures ByCategory(AccuracyAchievements, c) == if c == AccuracyCategory then AccuracyAchievements else []
    ensures ByCategory(VolumeAchievements, c) == if c == VolumeCategory then VolumeAchievements else []
    ensures ByCategory(SpeedAchievements, c) == if c == SpeedCategory then SpeedAchievements else []
    ensures ByCategory(MasteryAchievements, c) == if c == MasteryCategory then MasteryAchievements else []
  {
    ByCategoryUniform(StreakAchievements, c, StreakCategory);
    ByCategoryUniform(AccuracyAchievements, c, AccuracyCategory);
    ByCategoryUniform(VolumeAchievements, c, VolumeCategory);
    ByCategoryUniform(SpeedAchievements, c, SpeedCategory);
    ByCategoryUniform(MasteryAchievements, c, MasteryCategory);
  }

  /** Each category is one block of the catalogue: 4 streak, 3 accuracy,
      4 volume, 3 speed and 3 mastery achievements. */
  lemma CategoryBlocks(c: Category)
    ensures GetAchievementsByCategory(c) == BlockOf(c)
    ensures |GetAchievementsByCategory(c)| == if c == StreakCategory || c == VolumeCategory then 4 else 3
  {
    CatalogueSplits(c);
    BlocksAreUniform(c);
    var s1, s2, s3, s4, s5 := StreakAchievements, AccuracyAchievements, VolumeAchievements, SpeedAchievements, MasteryAchievements;
    var e: seq<Achievement> := [];
    match c
    case StreakCategory =>
      assert s1 + e + e + e + e == s1;
    case AccuracyCategory =>
      assert e + s2 + e + e + e == s2;
    case VolumeCategory =>
      assert e + e + s3 + e + e == s3;
    case SpeedCategory =>
      assert e + e + e + s4 + e == s4;
    case MasteryCategory =>
      assert e + e + e + e + s5 == s5;
  }

  function BlockOf(c: Category): seq<Achievement>
  {
    match c
    case StreakCategory => StreakAchievements
    case AccuracyCategory => AccuracyAchievements
    case VolumeCategory => VolumeAchievements
    case SpeedCategory => SpeedAchievements
    case MasteryCategory => MasteryAchievements
  }

  // ---------------------------------------------------------------------------
  // Unlock rules

  /** The statistics the rules read. The two lists are optional because
      `calculateProgress` also receives statistics without them. */
  datatype AchievementStats = AchievementStats(
    studyStreak: int,
    averageAccuracy: int,
    totalStudied: int,
    sessionsCompleted: int,
    totalTimeSpent: int,
    systemPerformance: Option<seq<int>>,
    quizScores: Option<seq<QuizResult>>)

  /** The statistic a threshold achievement compares with its requirement. */
  datatype Metric = StreakMetric | AccuracyMetric | StudiedMetric | SessionsMetric | TimeMetric

  function MetricOf(id: string): Option<Metric>
  {
    if id == "streak_3" || id == "streak_7" || id == "streak_30" || id == "streak_100" then Some(StreakMetric)
    else if id == "accuracy_80" || id == "accuracy_90" || id == "accuracy_95" then Some(AccuracyMetric)
    else if id == "cards_50" || id == "cards_200" || id == "cards_500" || id == "cards_1000" then Some(StudiedMetric)
    else if id == "sessions_10" || id == "sessions_50" then Some(SessionsMetric)
    else if id == "time_10h" || id == "time_50h" then Some(TimeMetric)
    else None
  }

  function Stat(m: Metric, s: AchievementStats): int
  {
    match m
    case StreakMetric => s.studyStreak
    case AccuracyMetric => s.averageAccuracy
    case StudiedMetric => s.totalStudied
    case SessionsMetric => s.sessionsCompleted
    case TimeMetric => s.totalTimeSpent
  }

  /** Some quiz was answered in full (and had questions). */
  predicate HasPerfectScore(quizzes: Option<seq<QuizResult>>)
  {
    quizzes.Some? && exists q :: q in quizzes.value && q.score == q.totalQuestions && q.totalQuestions > 0
  }

  /** Some system reaches the given accuracy. */
  predicate HasSystemAtLeast(accuracies: Option<seq<int>>, level: int)
  {
    accuracies.Some? && exists x :: x in accuracies.value && x >= level
  }

  /** How an achievement is earned. */
  datatype Rule = Threshold(metric: Metric) | PerfectQuiz | SystemMastery

  /** The rule of a catalogue entry, read from its category: a threshold on
      the category's statistic, except for the perfect quiz among the speed
      entries and the system mastery among the mastery entries. */
  function RuleOf(a: Achievement): Rule
  {
    match a.category
    case StreakCategory => Threshold(StreakMetric)
    case AccuracyCategory => Threshold(AccuracyMetric)
    case VolumeCategory => Threshold(StudiedMetric)
    case SpeedCategory => if a.id == "quiz_perfect" then PerfectQuiz else Threshold(SessionsMetric)
    case MasteryCategory => if a.id == "system_master" then SystemMastery else Threshold(TimeMetric)
  }

  /** When an achievement is earned, stated through its catalogue entry: a
      threshold achievement when its statistic reaches the entry's
      requirement, the perfect quiz on a full score, the system mastery when
      some system reaches the entry's requirement. */
  predicate Unlocked(a: Achievement, s: AchievementStats)
  {
    match RuleOf(a)
    case Threshold(m) => Stat(m, s) >= a.requirement
    case PerfectQuiz => HasPerfectScore(s.quizScores)
    case SystemMastery => HasSystemAtLeast(s.systemPerformance, a.requirement)
  }

  /** The rule `calculateProgress` applies, chosen by id; none for an id it
      does not know. */
  function ProgressRule(id: string): Option<Rule>
  {
    match MetricOf(id)
    case Some(m) => Some(Threshold(m))
    case None =>
      if id == "quiz_perfect" then Some(PerfectQuiz)
      else if id == "system_master" then Some(SystemMastery)
      else None
  }

  /** For every catalogue entry the id switch of `calculateProgress` picks
      the rule its category gives. */
  lemma ProgressRuleOfCatalogue(a: Achievement)
    requires a in Achievements
    ensures ProgressRule(a.id) == Some(RuleOf(a))
  {
    if a in StreakAchievements {
    } else if a in AccuracyAchievements {
    } else if a in VolumeAchievements {
    } else if a in SpeedAchievements {
    } else {
      assert a in MasteryAchievements;
    }
  }

  /** The order in which `checkAchievements` tests the rules: streaks,
      accuracies, volumes, sessions, time, the perfect quiz and the system
      mastery. */
  const CheckOrder: seq<Achievement> :=
    [Streak3] + [Streak7] + [Streak30] + [Streak100]
    + [Accuracy80] + [Accuracy90] + [Accuracy95]
    + [Cards50] + [Cards200] + [Cards500] + [Cards1000]
    + [Sessions10] + [Sessions50] + [Time10h] + [Time50h]
    + [QuizPerfect] + [SystemMaster]

  /** The entries of `cat` that the statistics unlock, in the order of
      `cat`. */
  function UnlockedAmong(cat: seq<Achievement>, s: AchievementStats): seq<Achievement>
  {
    if cat == [] then []
    else
      var last := cat[|cat| - 1];
      UnlockedAmong(cat[..|cat| - 1], s) + (if Unlocked(last, s) then [last] else [])
  }

  lemma {:induction false} UnlockedAmongMembers(cat: seq<Achievement>, s: AchievementStats)
    ensures forall a :: a in UnlockedAmong(cat, s) <==> a in cat && Unlocked(a, s)
  {
    if cat != [] {
      UnlockedAmongMembers(cat[..|cat| - 1], s);
      assert cat == cat[..|cat| - 1] + [cat[|cat| - 1]];
    }
  }

  /** The check order lists exactly the catalogue. */
  lemma CheckOrderIsCatalogue()
    ensures |CheckOrder| == |Achievements|
    ensures forall a :: a in CheckOrder <==> a in Achievements
  {
  }

  /** One check: `if (hit) unlockedAchievements.push(getAchievementById(id)!)`,
      where `checked` are the entries tested so far. */
  method PushWhen(u: seq<Achievement>, hit: bool, id: string, ghost entry: Achievement,
                  ghost checked: seq<Achievement>, ghost s: AchievementStats)
    returns (u': seq<Achievement>)
    requires entry in Achievements && entry.id == id
    requires hit == Unlocked(entry, s)
    requires u == UnlockedAmong(checked, s)
    ensures u' == UnlockedAmong(checked + [entry], s)
  {
    GetAchievementByOwnId(entry);
    assert (checked + [entry])[..|checked|] == checked;
    if hit {
      u' := u + [GetAchievementById(id).value];
    } else {
      u' := u;
    }
  }

  lemma CatalogueMembers()
    ensures Streak3 in Achievements && Streak7 in Achievements && Streak30 in Achievements && Streak100 in Achievements
    ensures Accuracy80 in Achievements && Accuracy90 in Achievements && Accuracy95 in Achievements
    ensures Cards50 in Achievements && Cards200 in Achievements && Cards500 in Achievements && Cards1000 in Achievements
    ensures QuizPerfect in Achievements && Sessions10 in Achievements && Sessions50 in Achievements
    ensures SystemMaster in Achievements && Time10h in Achievements && Time50h in Achievements
  {
  }

  /** `getAchievementById` finds every entry under its id. */
  lemma LookupTable()
    ensures GetAchievementById("streak_3") == Some(Streak3)
    ensures GetAchievementById("streak_7") == Some(Streak7)
    ensures GetAchievementById("streak_30") == Some(Streak30)
    ensures GetAchievementById("streak_100") == Some(Streak100)
    ensures GetAchievementById("accuracy_80") == Some(Accuracy80)
    ensures GetAchievementById("accuracy_90") == Some(Accuracy90)
    ensures GetAchievementById("accuracy_95") == Some(Accuracy95)
    ensures GetAchievementById("cards_50") == Some(Cards50)
    ensures GetAchievementById("cards_200") == Some(Cards200)
    ensures GetAchievementById("cards_500") == Some(Cards500)
    ensures GetAchievementById("cards_1000") == Some(Cards1000)
    ensures GetAchievementById("sessions_10") == Some(Sessions10)
    ensures GetAchievementById("sessions_50") == Some(Sessions50)
    ensures GetAchievementById("time_10h") == Some(Time10h)
    ensures GetAchievementById("time_50h") == Some(Time50h)
    ensures GetAchievementById("quiz_perfect") == Some(QuizPerfect)
    ensures GetAchievementById("system_master") == Some(SystemMaster)
  {
    forall a | a in Achievements
      ensures GetAchievementById(a.id) == Some(a)
    {
      GetAchievementByOwnId(a);
    }
  }

  /** Each check of `checkAchievements` tests exactly the catalogue rule of
      its entry, with the entry's own requirement as the threshold. */
  lemma ThresholdRules(s: AchievementStats)
    ensures Unlocked(Streak3, s) == (s.studyStreak >= 3)
    ensures Unlocked(Streak7, s) == (s.studyStreak >= 7)
    ensures Unlocked(Streak30, s) == (s.studyStreak >= 30)
    ensures Unlocked(Streak100, s) == (s.studyStreak >= 100)
    ensures Unlocked(Accuracy80, s) == (s.averageAccuracy >= 80)
    ensures Unlocked(Accuracy90, s) == (s.averageAccuracy >= 90)
    ensures Unlocked(Accuracy95, s) == (s.averageAccuracy >= 95)
    ensures Unlocked(Cards50, s) == (s.totalStudied >= 50)
    ensures Unlocked(Cards200, s) == (s.totalStudied >= 200)
    ensures Unlocked(Cards500, s) == (s.totalStudied >= 500)
    ensures Unlocked(Cards1000, s) == (s.totalStudied >= 1000)
    ensures Unlocked(Sessions10, s) == (s.sessionsCompleted >= 10)
    ensures Unlocked(Sessions50, s) == (s.sessionsCompleted >= 50)
    ensures Unlocked(Time10h, s) == (s.totalTimeSpent >= 600)
    ensures Unlocked(Time50h, s) == (s.totalTimeSpent >= 3000)
  {
  }

  lemma ListRules(s: AchievementStats)
    requires s.systemPerformance.Some? && s.quizScores.Some?
    ensures Unlocked(QuizPerfect, s) ==
              exists q :: q in s.quizScores.value && q.score == q.totalQuestions && q.totalQuestions > 0
    ensures Unlocked(SystemMaster, s) == exists x :: x in s.systemPerformance.value && x >= 90
  {
  }

  /** `checkAchievements`: every catalogue entry the statistics earn, and no
      other, in the fixed order of the checks. */
  method CheckAchievements(s: AchievementStats) returns (unlocked: seq<Achievement>)
    requires s.systemPerformance.Some? && s.quizScores.Some?
    ensures unlocked == UnlockedAmong(CheckOrder, s)
  {
    CatalogueMembers();
    ThresholdRules(s);
    ListRules(s);
    ghost var checked: seq<Achievement> := [];
    unlocked := [];
    unlocked := PushWhen(unlocked, s.studyStreak >= 3, "streak_3", Streak3, checked, s);
    checked := [Streak3];
    unlocked := PushWhen(unlocked, s.studyStreak >= 7, "streak_7", Streak7, checked, s);
    checked := checked + [Streak7];
    unlocked := PushWhen(unlocked, s.studyStreak >= 30, "streak_30", Streak30, checked, s);
    checked := checked + [Streak30];
    unlocked := PushWhen(unlocked, s.studyStreak >= 100, "streak_100", Streak100, checked, s);
    checked := checked + [Streak100];

    unlocked := PushWhen(unlocked, s.averageAccuracy >= 80, "accuracy_80", Accuracy80, checked, s);
    checked := checked + [Accuracy80];
    unlocked := PushWhen(unlocked, s.averageAccuracy >= 90, "accuracy_90", Accuracy90, checked, s);
    checked := checked + [Accuracy90];
    unlocked := PushWhen(unlocked, s.averageAccuracy >= 95, "accuracy_95", Accuracy95, checked, s);
    checked := checked + [Accuracy95];

    unlocked := PushWhen(unlocked, s.totalStudied >= 50, "cards_50", Cards50, checked, s);
    checked := checked + [Cards50];
    unlocked := PushWhen(unlocked, s.totalStudied >= 200, "cards_200", Cards200, checked, s);
    checked := checked + [Cards200];
    unlocked := PushWhen(unlocked, s.totalStudied >= 500, "cards_500", Cards500, checked, s);
    checked := checked + [Cards500];
    unlocked := PushWhen(unlocked, s.totalStudied >= 1000, "cards_1000", Cards1000, checked, s);
    checked := checked + [Cards1000];

    unlocked := PushWhen(unlocked, s.sessionsCompleted >= 10, "sessions_10", Sessions10, checked, s);
    checked := checked + [Sessions10];
    unlocked := PushWhen(unlocked, s.sessionsCompleted >= 50, "sessions_50", Sessions50, checked, s);
    checked := checked + [Sessions50];

    unlocked := PushWhen(unlocked, s.totalTimeSpent >= 600, "time_10h", Time10h, checked, s);
    checked := checked + [Time10h];
    unlocked := PushWhen(unlocked, s.totalTimeSpent >= 3000, "time_50h", Time50h, checked, s);
    checked := checked + [Time50h];

    var hasPerfectScore := exists q :: q in s.quizScores.value && q.score == q.totalQuestions && q.totalQuestions > 0;
    unlocked := PushWhen(unlocked, hasPerfectScore, "quiz_perfect", QuizPerfect, checked, s);
    checked := checked + [QuizPerfect];

    var hasSystemMastery := exists x :: x in s.systemPerformance.value && x >= 90;
    unlocked := PushWhen(unlocked, hasSystemMastery, "system_master", SystemMaster, checked, s);
    checked := checked + [SystemMaster];

    assert checked == CheckOrder;
  }

  /** The list `checkAchievements` returns holds every catalogue entry the
      statistics earn, and no other. */
  lemma CheckedAreEarned(s: AchievementStats)
    ensures forall a :: a in UnlockedAmong(CheckOrder, s) <==> a in Achievements && Unlocked(a, s)
  {
    CheckOrderIsCatalogue();
    UnlockedAmongMembers(CheckOrder, s);
  }

  /** One set of statistics is at least another: every number is at least as
      large, every quiz of the other is among its quizzes, and every system
      accuracy of the other is matched or beaten. */
  predicate AtLeast(t: AchievementStats, s: AchievementStats)
  {
    && t.studyStreak >= s.studyStreak
    && t.averageAccuracy >= s.averageAccuracy
    && t.totalStudied >= s.totalStudied
    && t.sessionsCompleted >= s.sessionsCompleted
    && t.totalTimeSpent >= s.totalTimeSpent
    && (s.quizScores.Some? ==> t.quizScores.Some? && forall q :: q in s.quizScores.value ==> q in t.quizScores.value)
    && (s.systemPerformance.Some? ==>
          t.systemPerformance.Some? &&
          forall x :: x in s.systemPerformance.value ==> exists y :: y in t.systemPerformance.value && y >= x)
  }

  /** Raising statistics never takes an achievement away. */
  lemma UnlockingIsMonotone(a: Achievement, s: AchievementStats, t: AchievementStats)
    requires AtLeast(t, s) && Unlocked(a, s)
    ensures Unlocked(a, t)
  {
    if RuleOf(a) == SystemMastery {
      var x :| x in s.systemPerformance.value && x >= a.requirement;
      var y :| y in t.systemPerformance.value && y >= x;
    }
  }

  // ---------------------------------------------------------------------------
  // Progress toward an achievement

  function RealMin(a: real, b: real): real
  {
    if a <= b then a else b
  }

  /** The largest element of a non-empty list. */
  function MaxOf(xs: seq<int>): (m: int)
    requires |xs| > 0
    ensures m in xs && forall x :: x in xs ==> x <= m
  {
    if |xs| == 1 then xs[0]
    else
      var rest := MaxOf(xs[1..]);
      assert forall x :: x in xs ==> x == xs[0] || x in xs[1..];
      if xs[0] >= rest then xs[0] else rest
  }

  /** `Math.max(...(list || [0]))`: an absent list counts as a single 0. */
  function MaxAccuracy(accuracies: Option<seq<int>>): int
    requires accuracies.Some? ==> |accuracies.value| > 0
  {
    match accuracies
    case None => 0
    case Some(xs) => MaxOf(xs)
  }

  /** `calculateProgress`, in percent. */
  function CalculateProgress(a: Achievement, s: AchievementStats): (r: real)
    requires a.requirement > 0
    requires s.systemPerformance.Some? ==> |s.systemPerformance.value| > 0
    ensures r <= 100.0
    ensures ProgressRule(a.id) == Some(PerfectQuiz) ==> r == 0.0 || r == 100.0
  {
    match ProgressRule(a.id)
    case Some(Threshold(m)) => RealMin(100.0, (Stat(m, s) as real / a.requirement as real) * 100.0)
    case Some(PerfectQuiz) => if HasPerfectScore(s.quizScores) then 100.0 else 0.0
    case Some(SystemMastery) =>
      RealMin(100.0, (MaxAccuracy(s.systemPerformance) as real / a.requirement as real) * 100.0)
    case None => 0.0
  }

  /** For a positive requirement, `min(100, x / q * 100)` is full exactly
      when `x` reaches `q`. */
  lemma RatioFull(x: int, q: int)
    requires q > 0
    ensures RealMin(100.0, (x as real / q as real) * 100.0) == 100.0 <==> x >= q
  {
    var t := x as real / q as real;
    assert t * q as real == x as real;
    if x >= q {
      assert t >= 1.0;
    } else {
      assert t < 1.0;
    }
  }

  /** The progress is complete exactly when the achievement is unlocked. */
  lemma ProgressFullIffUnlocked(a: Achievement, s: AchievementStats)
    requires a in Achievements
    requires s.systemPerformance.Some? ==> |s.systemPerformance.value| > 0
    ensures CalculateProgress(a, s) == 100.0 <==> Unlocked(a, s)
  {
    ProgressRuleOfCatalogue(a);
    match RuleOf(a)
    case Threshold(m) => RatioFull(Stat(m, s), a.requirement);
    case PerfectQuiz =>
    case SystemMastery =>
      var best := MaxAccuracy(s.systemPerformance);
      RatioFull(best, a.requirement);
      if HasSystemAtLeast(s.systemPerformance, a.requirement) {
        var x :| x in s.systemPerformance.value && x >= a.requirement;
        assert best >= x;
      }
  }

  // ---------------------------------------------------------------------------
  // Streak milestones, emoji and messages

  datatype Milestone = Milestone(milestone: int, emoji: string, name: string)

  const Milestones: seq<Milestone> := [
    Milestone(3, "🔥", "Getting Started"),
    Milestone(7, "⚡", "Week Warrior"),
    Milestone(30, "🏆", "Monthly Master"),
    Milestone(100, "👑", "Century Scholar")]

  /** The first milestone beyond the streak (`find`). */
  function FirstAbove(ms: seq<Milestone>, streak: int): (r: Option<Milestone>)
    ensures r.None? <==> forall m :: m in ms ==> m.milestone <= streak
    ensures r.Some? ==> exists i :: 0 <= i < |ms| && ms[i] == r.value && r.value.milestone > streak &&
                          forall j :: 0 <= j < i ==> ms[j].milestone <= streak
  {
    if ms == [] then None
    else if ms[0].milestone > streak then Some(ms[0])
    else
      assert forall i :: 0 <= i < |ms[1..]| ==> ms[1..][i] == ms[i + 1];
      FirstAbove(ms[1..], streak)
  }

  /** `getNextMilestone`: the smallest milestone strictly above the streak,
      none from 100 on. */
  function GetNextMilestone(streak: int): (r: Option<Milestone>)
    ensures r.None? <==> streak >= 100
    ensures r.Some? ==> r.value in Milestones && r.value.milestone > streak
    ensures r.Some? ==> forall m :: m in Milestones && m.milestone > streak ==> r.value.milestone <= m.milestone
  {
    FirstAboveIsSmallest(Milestones, streak);
    assert Milestones[3].milestone == 100;
    FirstAbove(Milestones, streak)
  }

  /** In a list of increasing milestones the first one above the streak is the
      smallest one above it. */
  lemma FirstAboveIsSmallest(ms: seq<Milestone>, streak: int)
    requires forall i, j :: 0 <= i < j < |ms| ==> ms[i].milestone < ms[j].milestone
    ensures var r := FirstAbove(ms, streak);
            r.Some? ==> forall m :: m in ms && m.milestone > streak ==> r.value.milestone <= m.milestone
  {
    var r := FirstAbove(ms, streak);
    if r.Some? {
      var i :| 0 <= i < |ms| && ms[i] == r.value && r.value.milestone > streak &&
               forall j :: 0 <= j < i ==> ms[j].milestone <= streak;
      forall m | m in ms && m.milestone > streak
        ensures r.value.milestone <= m.milestone
      {
        var k :| 0 <= k < |ms| && ms[k] == m;
        assert i <= k;
      }
    }
  }

  /** The milestones are the streak achievements, with their names and
      icons. */
  lemma MilestonesAreStreakAchievements()
    ensures |Milestones| == |GetAchievementsByCategory(StreakCategory)|
    ensures forall i :: 0 <= i < |Milestones| ==>
              var a := GetAchievementsByCategory(StreakCategory)[i];
              a.requirement == Milestones[i].milestone && a.name == Milestones[i].name && a.icon == Milestones[i].emoji
  {
    CategoryBlocks(StreakCategory);
  }

  /** The bands the emoji and the message switch on: 0, below 3, below 7,
      below 30, below 100, and from 100 on. */
  function StreakBand(streak: int): nat
  {
    if streak == 0 then 0
    else if streak < 3 then 1
    else if streak < 7 then 2
    else if streak < 30 then 3
    else if streak < 100 then 4
    else 5
  }

  /** `getStreakEmoji`: the seedling for no streak, the crown from 100 days
      on, and one emoji per band in between. */
  function GetStreakEmoji(streak: int): (r: string)
    ensures r == "🌱" <==> streak == 0
    ensures r == "👑" <==> streak >= 100
  {
    if streak == 0 then "🌱"
    else if streak < 3 then "🔥"
    else if streak < 7 then "⚡"
    else if streak < 30 then "🏆"
    else if streak < 100 then "💎"
    else "👑"
  }

  /** Two streaks get the same emoji exactly when they are in the same band;
      up to 30 days the emoji is that of the next milestone, and from 100 on
      that of the last. */
  lemma StreakEmojiBands(s: int, t: int)
    ensures GetStreakEmoji(s) == GetStreakEmoji(t) <==> StreakBand(s) == StreakBand(t)
    ensures 0 < s < 30 ==> GetStreakEmoji(s) == GetNextMilestone(s).value.emoji
    ensures s >= 100 ==> GetStreakEmoji(s) == Streak100.icon
  {
    if 0 < s < 30 {
      var r := GetNextMilestone(s);
      assert Milestones[0] in Milestones && Milestones[1] in Milestones && Milestones[2] in Milestones;
      if s < 3 {
        assert r.value.milestone <= 3;
      } else if s < 7 {
        assert r.value.milestone <= 7;
      } else {
        assert r.value.milestone <= 30;
      }
    }
  }

  /** The first letters of the six messages, band by band. */
  const MessageInitials: string := "SGYAIL"

  /** `getMotivationalMessage`; from three days on it quotes the streak. Like
      the emoji it takes any number, and a negative one falls in the band
      below 3. Each band's message opens with its own letter. */
  function GetMotivationalMessage(streak: int): (r: string)
    ensures |r| > 0 && r[0] == MessageInitials[StreakBand(streak)]
  {
    if streak == 0 then "Start your learning journey today! 🚀"
    else if streak < 3 then "Great start! " + "Keep going to build your streak! 🔥"
    else if streak < 7 then "You're on fire! " + NatToString(streak) + " days strong! 🔥"
    else if streak < 30 then "Amazing consistency! " + NatToString(streak) + " days of learning! ⚡"
    else if streak < 100 then "Incredible dedication! " + NatToString(streak) + " days streak! 🏆"
    else "Legendary scholar! " + NatToString(streak) + " days of mastery! 👑"
  }

  /** `part` occurs in `text` as a contiguous piece. */
  predicate Contains(text: string, part: string)
  {
    |part| <= |text| && (text[..|part|] == part || Contains(text[1..], part))
  }

  lemma {:induction false} ContainsMiddle(prefix: string, part: string, suffix: string)
    ensures Contains(prefix + part + suffix, part)
  {
    var text := prefix + part + suffix;
    if prefix == [] {
      assert text[..|part|] == part;
    } else {
      assert text[1..] == prefix[1..] + part + suffix;
      ContainsMiddle(prefix[1..], part, suffix);
    }
  }

  /** The message quotes the streak from three days on, is fixed within each
      band below that, and streaks in different bands get different
      messages, so the wording switches at 0, 3, 7, 30 and 100 as the emoji
      does. */
  lemma MotivationalMessageBands(s: int, t: int)
    ensures s >= 3 ==> Contains(GetMotivationalMessage(s), NatToString(s))
    ensures s < 3 && t < 3 && StreakBand(s) == StreakBand(t) ==> GetMotivationalMessage(s) == GetMotivationalMessage(t)
    ensures StreakBand(s) != StreakBand(t) ==> GetMotivationalMessage(s) != GetMotivationalMessage(t)
  {
    assert Distinct(MessageInitials);
    if s >= 3 {
      MessageQuotesStreak(s);
    }
  }

  lemma MessageQuotesStreak(s: nat)
    requires s >= 3
    ensures Contains(GetMotivationalMessage(s), NatToString(s))
  {
    var n := NatToString(s);
    if s < 7 {
      ContainsMiddle("You're on fire! ", n, " days strong! 🔥");
    } else if s < 30 {
      ContainsMiddle("Amazing consistency! ", n, " days of learning! ⚡");
    } else if s < 100 {
      ContainsMiddle("Incredible dedication! ", n, " days streak! 🏆");
    } else {
      ContainsMiddle("Legendary scholar! ", n, " days of mastery! 👑");
    }
  }
}
