/** The application state and its reducer (src/context/AppContext.tsx): loading
    flags, the daily drug, per-system counts, the quiz in progress, the last
    error and the colour theme. The reducer builds a new state from the old one
    and an action, and never changes its input. */
module AppReducer {
  import opened Basics
  import opened DrugTypes

  datatype Theme = Light | Dark

  datatype SystemStat = SystemStat(system: string, totalDrugs: int, bookmarkedDrugs: int)

  /** The quiz in progress. */
  datatype Quiz = Quiz(questions: seq<QuizQuestion>, currentIndex: int, score: int, isActive: bool)

  datatype AppState = AppState(
    isLoading: bool,
    isInitialized: bool,
    dailyDrug: Option<Drug>,
    systemStats: seq<SystemStat>,
    currentQuiz: Quiz,
    error: Option<string>,
    theme: Theme)

  /** The actions the reducer knows, and any other action by its type tag. */
  datatype AppAction =
    | SetLoading(loading: bool)
    | SetInitialized(initialized: bool)
    | SetDailyDrug(drug: Option<Drug>)
    | SetSystemStats(stats: seq<SystemStat>)
    | StartQuiz(questions: seq<QuizQuestion>)
    | NextQuestion
    | UpdateScore(points: int)
    | EndQuiz
    | SetError(message: Option<string>)
    | ToggleTheme
    | Unknown(tag: string)

  /** The quiz of the initial state, and the one END_QUIZ leaves behind. */
  const NoQuiz: Quiz := Quiz([], 0, 0, false)

  const InitialState: AppState := AppState(true, false, None, [], NoQuiz, None, Light)

  function Flip(t: Theme): (r: Theme)
    ensures r != t
  {
    if t == Light then Dark else Light
  }

  /** The actions that touch the quiz in progress. */
  predicate QuizAction(a: AppAction)
  {
    a.StartQuiz? || a.NextQuestion? || a.UpdateScore? || a.EndQuiz?
  }

  /** The reducer. Each action changes its own field only; an action it does
      not know leaves the state as it is. */
  function Reduce(state: AppState, action: AppAction): (r: AppState)
    ensures !action.SetLoading? ==> r.isLoading == state.isLoading
    ensures !action.SetInitialized? ==> r.isInitialized == state.isInitialized
    ensures !action.SetDailyDrug? ==> r.dailyDrug == state.dailyDrug
    ensures !action.SetSystemStats? ==> r.systemStats == state.systemStats
    ensures !QuizAction(action) ==> r.currentQuiz == state.currentQuiz
    ensures !action.SetError? ==> r.error == state.error
    ensures !action.ToggleTheme? ==> r.theme == state.theme
    ensures action.ToggleTheme? ==> r.theme != state.theme
  {
    match action
    case SetLoading(b) => state.(isLoading := b)
    case SetInitialized(b) => state.(isInitialized := b)
    case SetDailyDrug(d) => state.(dailyDrug := d)
    case SetSystemStats(s) => state.(systemStats := s)
    case StartQuiz(qs) => state.(currentQuiz := Quiz(qs, 0, 0, true))
    case NextQuestion =>
      state.(currentQuiz := state.currentQuiz.(currentIndex := state.currentQuiz.currentIndex + 1))
    case UpdateScore(p) =>
      state.(currentQuiz := state.currentQuiz.(score := state.currentQuiz.score + p))
    case EndQuiz => state.(currentQuiz := NoQuiz)
    case SetError(e) => state.(error := e)
    case ToggleTheme => state.(theme := Flip(state.theme))
    case Unknown(_) => state
  }

  /** Each SET_* action replaces its field with the payload. */
  lemma SetActionsReplaceOneField(state: AppState, action: AppAction)
    ensures action.SetLoading? ==> Reduce(state, action) == state.(isLoading := action.loading)
    ensures action.SetInitialized? ==> Reduce(state, action) == state.(isInitialized := action.initialized)
    ensures action.SetDailyDrug? ==> Reduce(state, action) == state.(dailyDrug := action.drug)
    ensures action.SetSystemStats? ==> Reduce(state, action) == state.(systemStats := action.stats)
    ensures action.SetError? ==> Reduce(state, action) == state.(error := action.message)
    ensures action.Unknown? ==> Reduce(state, action) == state
  {
  }

  /** START_QUIZ installs the questions at index 0 with score 0 and marks the
      quiz active; END_QUIZ puts back the quiz of the initial state. */
  lemma QuizStartAndEnd(state: AppState, questions: seq<QuizQuestion>)
    ensures Reduce(state, StartQuiz(questions)).currentQuiz == Quiz(questions, 0, 0, true)
    ensures Reduce(state, EndQuiz).currentQuiz == InitialState.currentQuiz
    ensures Reduce(Reduce(state, StartQuiz(questions)), EndQuiz) == state.(currentQuiz := NoQuiz)
  {
  }

  /** TOGGLE_THEME undoes itself. */
  lemma ToggleThemeTwice(state: AppState)
    ensures Reduce(Reduce(state, ToggleTheme), ToggleTheme) == state
  {
  }

  // ---------------------------------------------------------------------------
  // Sequences of dispatched actions.

  /** The state after dispatching `actions` in order. */
  function Run(state: AppState, actions: seq<AppAction>): (r: AppState)
    ensures (forall i :: 0 <= i < |actions| ==> !QuizAction(actions[i])) ==> r.currentQuiz == state.currentQuiz
    decreases |actions|
  {
    if actions == [] then state
    else Run(Reduce(state, actions[0]), actions[1..])
  }

  /** How often `actions` toggles the theme. */
  function Toggles(actions: seq<AppAction>): nat
  {
    if actions == [] then 0
    else (if actions[0].ToggleTheme? then 1 else 0) + Toggles(actions[1..])
  }

  /** The theme after a run is the starting theme flipped once per toggle. */
  lemma {:induction false} ThemeAfterRun(state: AppState, actions: seq<AppAction>)
    ensures Run(state, actions).theme == if Toggles(actions) % 2 == 0 then state.theme else Flip(state.theme)
    decreases |actions|
  {
    if actions != [] {
      ThemeAfterRun(Reduce(state, actions[0]), actions[1..]);
    }
  }

  /** Answering a quiz: a run of NEXT_QUESTION and UPDATE_SCORE actions. */
  predicate Answering(actions: seq<AppAction>)
  {
    forall i :: 0 <= i < |actions| ==> actions[i].NextQuestion? || actions[i].UpdateScore?
  }

  /** How often `actions` moves to the next question. */
  function Advances(actions: seq<AppAction>): nat
  {
    if actions == [] then 0
    else (if actions[0].NextQuestion? then 1 else 0) + Advances(actions[1..])
  }

  /** The points the UPDATE_SCORE actions of `actions` add up to. */
  function Points(actions: seq<AppAction>): int
  {
    if actions == [] then 0
    else (if actions[0].UpdateScore? then actions[0].points else 0) + Points(actions[1..])
  }

  /** While a quiz is answered the questions and the active flag stay, the
      index counts the NEXT_QUESTION actions (with no bound against the number
      of questions), the score adds up the UPDATE_SCORE payloads, and nothing
      outside the quiz changes. */
  lemma {:induction false} AnsweringRun(state: AppState, actions: seq<AppAction>)
    requires Answering(actions)
    ensures Run(state, actions) == state.(currentQuiz := state.currentQuiz.(
      currentIndex := state.currentQuiz.currentIndex + Advances(actions),
      score := state.currentQuiz.score + Points(actions)))
    decreases |actions|
  {
    if actions != [] {
      assert Answering(actions[1..]) by {
        forall i | 0 <= i < |actions[1..]|
          ensures actions[1..][i].NextQuestion? || actions[1..][i].UpdateScore?
        {
          assert actions[1..][i] == actions[i + 1];
        }
      }
      AnsweringRun(Reduce(state, actions[0]), actions[1..]);
    }
  }

  /** From a fresh START_QUIZ, the index after answering is the number of
      NEXT_QUESTION actions, which may pass the last question. */
  lemma QuizFromStart(state: AppState, questions: seq<QuizQuestion>, actions: seq<AppAction>)
    requires Answering(actions)
    ensures Run(state, [StartQuiz(questions)] + actions).currentQuiz ==
      Quiz(questions, Advances(actions), Points(actions), true)
  {
    var started := Reduce(state, StartQuiz(questions));
    assert ([StartQuiz(questions)] + actions)[1..] == actions;
    AnsweringRun(started, actions);
  }

  /** The quiz index never goes below zero, whatever is dispatched. */
  lemma {:induction false} IndexStaysNonNegative(state: AppState, actions: seq<AppAction>)
    requires state.currentQuiz.currentIndex >= 0
    ensures Run(state, actions).currentQuiz.currentIndex >= 0
    decreases |actions|
  {
    if actions != [] {
      IndexStaysNonNegative(Reduce(state, actions[0]), actions[1..]);
    }
  }
}
