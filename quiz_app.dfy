/** The `App` component as an object: its state variables are fields, and each
    event handler assigns them one after another, as the component's setters
    do. Every method leaves the object in the state that the corresponding
    handler function of QuizSession computes from the state before it, so the
    properties proved there hold of the object. */
module QuizApp {
  import opened JsText
  import opened QuizData
  import opened QuizView
  import opened QuizSession

  /** What the object tracks beside the component's state variables: the
      callbacks scheduled by setTimeout and not yet run, oldest first; the
      categories requested from the backend and the requests unanswered; the
      statistics posted and the posts unanswered; and whether each answer
      click of the current quiz hit the correct answer. */
  datatype Environment = Environment(
    pendingAdvances: seq<ClickSnapshot>,
    fetchedCategories: seq<string>,
    questionsInFlight: nat,
    sentStatistics: seq<ScoreEntry>,
    rankingInFlight: nat,
    answered: seq<bool>)

  class App {
    var name: string
    var nameEntered: bool
    var selectedCategory: Option<string>
    var questions: seq<Question>
    var currentQuestionIndex: nat
    var selectedAnswer: Option<nat>
    var correctAnswers: nat
    var quizFinished: bool
    var elapsedTime: nat
    var timerActive: bool
    var ranking: seq<ScoreEntry>
    var env: Environment

    /** The state of the component as a value. */
    function State(): Session
      reads this
    {
      Session(name, nameEntered, selectedCategory, questions, currentQuestionIndex,
              selectedAnswer, correctAnswers, quizFinished, elapsedTime, timerActive,
              ranking, env.pendingAdvances, env.fetchedCategories, env.questionsInFlight,
              env.sentStatistics, env.rankingInFlight, env.answered)
    }

    /** The component as it mounts: the initial values of its state hooks. */
    constructor ()
      ensures State() == Initial()
    {
      name := "";
      nameEntered := false;
      selectedCategory := None;
      questions := [];
      currentQuestionIndex := 0;
      selectedAnswer := None;
      correctAnswers := 0;
      quizFinished := false;
      elapsedTime := 0;
      timerActive := false;
      ranking := [];
      env := Environment([], [], 0, [], 0, []);
    }

    /** The name input's onChange. */
    method SetName(value: string)
      modifies this
      ensures State() == QuizSession.SetName(old(State()), value)
    {
      name := value;
    }

    /** The name screen's button. */
    method ConfirmName()
      modifies this
      ensures State() == QuizSession.ConfirmName(old(State()))
    {
      if !IsBlank(name) {
        nameEntered := true;
      }
    }

    /** `startQuiz`. */
    method StartQuiz(category: string)
      modifies this
      ensures State() == QuizSession.StartQuiz(old(State()), category)
    {
      if IsBlank(name) {
        return;
      }
      selectedCategory := Some(category);
      currentQuestionIndex := 0;
      correctAnswers := 0;
      quizFinished := false;
      selectedAnswer := None;
      elapsedTime := 0;
      timerActive := true;
      env := env.(answered := []);
    }

    /** The effect on `selectedCategory`, after a handler that found it `previous`. */
    method CategoryEffect(previous: Option<string>)
      modifies this
      ensures State() == QuizSession.CategoryEffect(old(State()), previous)
    {
      if selectedCategory != previous && IsTruthy(selectedCategory) {
        env := env.(fetchedCategories := env.fetchedCategories + [selectedCategory.value],
                    questionsInFlight := env.questionsInFlight + 1);
      }
    }

    /** `updateTimer`, run by the interval. */
    method UpdateTimer()
      modifies this
      ensures State() == QuizSession.UpdateTimer(old(State()))
    {
      elapsedTime := elapsedTime + 1;
    }

    /** The question request resolves with `data`. */
    method QuestionsLoaded(data: seq<Question>)
      requires env.questionsInFlight > 0
      modifies this
      ensures State() == QuizSession.QuestionsLoaded(old(State()), data)
    {
      env := env.(questionsInFlight := env.questionsInFlight - 1);
      questions := data;
    }

    /** The question request fails; the error is only logged. */
    method QuestionsFailed()
      requires env.questionsInFlight > 0
      modifies this
      ensures State() == QuizSession.QuestionsFailed(old(State()))
    {
      env := env.(questionsInFlight := env.questionsInFlight - 1);
    }

    /** `handleAnswerClick` for the answer at position `i` of the current question. */
    method HandleAnswerClick(i: nat)
      requires currentQuestionIndex < |questions|
      requires i < |questions[currentQuestionIndex].answers|
      modifies this
      ensures State() == QuizSession.HandleAnswerClick(old(State()), i)
    {
      var snapshot := ClickSnapshot(currentQuestionIndex, |questions|, name, correctAnswers, elapsedTime);
      selectedAnswer := Some(i);
      var q := questions[currentQuestionIndex];
      var answer := q.answers[i];
      var correct := answer.name == q.correctAnswer.name && answer.country == q.correctAnswer.country &&
                     answer.population == q.correctAnswer.population;
      if correct {
        correctAnswers := correctAnswers + 1;
      }
      env := env.(pendingAdvances := env.pendingAdvances + [snapshot],
                  answered := env.answered + [correct]);
    }

    /** The setTimeout callback of the oldest pending click. */
    method AdvanceAfterDelay()
      requires |env.pendingAdvances| > 0
      modifies this
      ensures State() == QuizSession.AdvanceAfterDelay(old(State()))
    {
      var p := env.pendingAdvances[0];
      env := env.(pendingAdvances := env.pendingAdvances[1..]);
      if p.index < p.questionCount - 1 {
        currentQuestionIndex := p.index + 1;
        selectedAnswer := None;
      } else {
        quizFinished := true;
        timerActive := false;
        env := env.(sentStatistics := env.sentStatistics + [Statistics(p, correctAnswers)],
                    rankingInFlight := env.rankingInFlight + 1);
      }
    }

    /** The statistics request resolves with the leaderboard `data`. */
    method RankingLoaded(data: seq<ScoreEntry>)
      requires env.rankingInFlight > 0
      modifies this
      ensures State() == QuizSession.RankingLoaded(old(State()), data)
    {
      env := env.(rankingInFlight := env.rankingInFlight - 1);
      ranking := TopThree(data);
    }

    /** The statistics request fails; the error is only logged. */
    method RankingFailed()
      requires env.rankingInFlight > 0
      modifies this
      ensures State() == QuizSession.RankingFailed(old(State()))
    {
      env := env.(rankingInFlight := env.rankingInFlight - 1);
    }

    /** `restartQuiz`, the finished screen's "Play Again" button. */
    method RestartQuiz()
      modifies this
      ensures State() == QuizSession.RestartQuiz(old(State()))
    {
      ghost var before := State();
      selectedCategory := None;
      questions := [];
      quizFinished := false;
      name := "";
      nameEntered := false;
      elapsedTime := 0;
      timerActive := false;
      ranking := [];
      assert State() == before.(selectedCategory := None, questions := [], quizFinished := false,
        name := "", nameEntered := false, elapsedTime := 0, timerActive := false, ranking := []);
    }

    /** Whether `e` can happen now. */
    predicate CanHappen(e: Event)
      reads this
    {
      Enabled(State(), e)
    }

    /** Delivers one event that can happen to the handler that reacts to it. */
    method Dispatch(e: Event)
      requires CanHappen(e)
      modifies this
      ensures State() == Step(old(State()), e)
    {
      match e
      case NameTyped(v) => SetName(v);
      case NameConfirmClicked => ConfirmName();
      case CategoryClicked(c) =>
        var previous := selectedCategory;
        StartQuiz(c);
        CategoryEffect(previous);
      case TimerTicked => UpdateTimer();
      case QuestionsArrived(data) => QuestionsLoaded(data);
      case QuestionsRequestFailed => QuestionsFailed();
      case AnswerClicked(i) => HandleAnswerClick(i);
      case AdvanceDelayElapsed => AdvanceAfterDelay();
      case RankingArrived(data) => RankingLoaded(data);
      case RankingRequestFailed => RankingFailed();
      case PlayAgainClicked =>
        var previous := selectedCategory;
        RestartQuiz();
        CategoryEffect(previous);
    }
  }

  /** Any sequence of events delivered to a freshly mounted component leaves it
      in the state the run of the handler functions reaches, and so what
      QuizSession.ReachableBounds proves holds of it: the score counts the
      clicks that hit the correct answer, and the bounds. */
  method Play(events: seq<Event>) returns (app: App)
    ensures app.State() == Run(Initial(), events)
    ensures app.correctAnswers == CountTrue(app.env.answered)
    ensures app.correctAnswers <= app.currentQuestionIndex + 1
    ensures |app.questions| > 0 ==> app.currentQuestionIndex < |app.questions|
    ensures |app.ranking| <= 3
  {
    app := new App();
    var k := 0;
    while k < |events|
      invariant 0 <= k <= |events|
      invariant Run(Initial(), events) == Run(app.State(), events[k..])
    {
      assert events[k..][1..] == events[k + 1..];
      if app.CanHappen(events[k]) {
        app.Dispatch(events[k]);
      }
      k := k + 1;
    }
    ReachableBounds(events);
  }
}
