/** The session state machine of the `App` component, on values. Each event
    handler of the component is a function from the state before the event to
    the state after it; the class in module QuizApp runs the same handlers by
    assigning its fields. */
module QuizSession {
  import opened JsText
  import opened QuizData
  import opened QuizView

  /** The values that the delayed advance callback of one answer click closes
      over: the question index, the number of questions, and what the
      statistics later read (name, correct count, elapsed time), all as they
      were when the answer was clicked. */
  datatype ClickSnapshot = ClickSnapshot(
    index: nat,
    questionCount: nat,
    name: string,
    correctAnswers: nat,
    elapsedTime: nat)

  /** The component state. The first eleven fields are the React state
      variables; `timerActive` stands for the interval handle. The rest make
      the outside world explicit: the advance callbacks scheduled and not yet
      run, the question requests issued, the statistics posted, and the
      number of requests still awaiting an answer. `answered` records, for
      each answer click of the current quiz in order, whether the clicked
      answer was the correct one; the component keeps only the count of the
      `true` entries, `correctAnswers`. */
  datatype Session = Session(
    name: string,
    nameEntered: bool,
    selectedCategory: Option<string>,
    questions: seq<Question>,
    currentQuestionIndex: nat,
    selectedAnswer: Option<nat>,
    correctAnswers: nat,
    quizFinished: bool,
    elapsedTime: nat,
    timerActive: bool,
    ranking: seq<ScoreEntry>,
    pendingAdvances: seq<ClickSnapshot>,
    fetchedCategories: seq<string>,
    questionsInFlight: nat,
    sentStatistics: seq<ScoreEntry>,
    rankingInFlight: nat,
    answered: seq<bool>)

  /** The state with which the component mounts. */
  function Initial(): (s: Session)
    ensures ScreenOf(s) == NameEntry
    ensures s.correctAnswers == 0 && s.elapsedTime == 0 && !s.timerActive
    ensures s.ranking == [] && s.sentStatistics == [] && s.fetchedCategories == []
  {
    Session("", false, None, [], 0, None, 0, false, 0, false, [], [], [], 0, [], 0, [])
  }

  /** The screen the render selects for `s`. */
  function ScreenOf(s: Session): Screen {
    SelectScreen(s.nameEntered, s.selectedCategory, s.quizFinished, |s.questions|)
  }

  // ------------------------------------------------------------------
  // Event handlers

  /** The name input's change handler. */
  function SetName(s: Session, value: string): (r: Session)
    ensures r.name == value && r.(name := s.name) == s
  {
    s.(name := value)
  }

  /** The handler of the name screen's button: the name is accepted exactly
      when it contains a character that is not white space; a refused name
      changes nothing. */
  function ConfirmName(s: Session): (r: Session)
    ensures r.nameEntered <==>
              s.nameEntered || exists i :: 0 <= i < |s.name| && !IsWhitespace(s.name[i])
    ensures r.(nameEntered := s.nameEntered) == s
  {
    BlankIffAllWhitespace(s.name);
    if !IsBlank(s.name) then s.(nameEntered := true) else s
  }

  /** `startQuiz`: refused with no change when the name is blank; otherwise
      selects the category, resets the per-quiz counters and starts the timer. */
  function StartQuiz(s: Session, category: string): (r: Session)
    ensures IsBlank(s.name) ==> r == s
    ensures !IsBlank(s.name) ==>
              && r.selectedCategory == Some(category)
              && r.currentQuestionIndex == 0 && r.correctAnswers == 0
              && !r.quizFinished && r.selectedAnswer == None
              && r.elapsedTime == 0 && r.timerActive && r.answered == []
    ensures r.name == s.name && r.nameEntered == s.nameEntered && r.questions == s.questions
    ensures r.ranking == s.ranking && r.pendingAdvances == s.pendingAdvances
    ensures r.fetchedCategories == s.fetchedCategories && r.questionsInFlight == s.questionsInFlight
    ensures r.sentStatistics == s.sentStatistics && r.rankingInFlight == s.rankingInFlight
  {
    if IsBlank(s.name) then s
    else
      s.(selectedCategory := Some(category),
         currentQuestionIndex := 0,
         correctAnswers := 0,
         quizFinished := false,
         selectedAnswer := None,
         elapsedTime := 0,
         timerActive := true,
         answered := [])
  }

  /** The effect that watches `selectedCategory`, run after a handler that
      may have changed it from `previous`: a question request is issued
      exactly when the value changed and the new value is truthy. */
  function CategoryEffect(s: Session, previous: Option<string>): (r: Session)
    ensures (s.selectedCategory != previous && IsTruthy(s.selectedCategory)) ==>
              r.fetchedCategories == s.fetchedCategories + [s.selectedCategory.value] &&
              r.questionsInFlight == s.questionsInFlight + 1
    ensures !(s.selectedCategory != previous && IsTruthy(s.selectedCategory)) ==> r == s
    ensures r.(fetchedCategories := s.fetchedCategories, questionsInFlight := s.questionsInFlight) == s
  {
    if s.selectedCategory != previous && IsTruthy(s.selectedCategory) then
      s.(fetchedCategories := s.fetchedCategories + [s.selectedCategory.value],
         questionsInFlight := s.questionsInFlight + 1)
    else s
  }

  /** `updateTimer`: one tick of the interval adds one second, and nothing else. */
  function UpdateTimer(s: Session): (r: Session)
    ensures r.elapsedTime == s.elapsedTime + 1
    ensures r.(elapsedTime := s.elapsedTime) == s
  {
    s.(elapsedTime := s.elapsedTime + 1)
  }

  /** A successful question request stores the array it returned. */
  function QuestionsLoaded(s: Session, data: seq<Question>): (r: Session)
    requires s.questionsInFlight > 0
    ensures r.questions == data && r.questionsInFlight == s.questionsInFlight - 1
    ensures r.(questions := s.questions, questionsInFlight := s.questionsInFlight) == s
  {
    s.(questions := data, questionsInFlight := s.questionsInFlight - 1)
  }

  /** A failed question request is only logged. */
  function QuestionsFailed(s: Session): (r: Session)
    requires s.questionsInFlight > 0
    ensures r.questionsInFlight == s.questionsInFlight - 1
    ensures r.(questionsInFlight := s.questionsInFlight) == s
  {
    s.(questionsInFlight := s.questionsInFlight - 1)
  }

  /** The snapshot the advance callback of a click in `s` closes over. */
  function SnapshotOf(s: Session): ClickSnapshot {
    ClickSnapshot(s.currentQuestionIndex, |s.questions|, s.name, s.correctAnswers, s.elapsedTime)
  }

  /** `handleAnswerClick` for the answer at position `i` of the current
      question: selects it, counts one point exactly when all three fields
      match the correct answer, and schedules the delayed advance. */
  function HandleAnswerClick(s: Session, i: nat): (r: Session)
    requires s.currentQuestionIndex < |s.questions|
    requires i < |s.questions[s.currentQuestionIndex].answers|
    ensures var q := s.questions[s.currentQuestionIndex];
            r.correctAnswers == if q.answers[i] == q.correctAnswer
                                then s.correctAnswers + 1 else s.correctAnswers
    ensures var q := s.questions[s.currentQuestionIndex];
            r.answered == s.answered + [q.answers[i] == q.correctAnswer]
    ensures r.selectedAnswer == Some(i)
    ensures r.pendingAdvances == s.pendingAdvances + [SnapshotOf(s)]
    ensures r.(selectedAnswer := s.selectedAnswer, correctAnswers := s.correctAnswers,
               pendingAdvances := s.pendingAdvances, answered := s.answered) == s
  {
    var q := s.questions[s.currentQuestionIndex];
    CorrectIffEqual(q.answers[i], q.correctAnswer);
    var correct := IsCorrect(q.answers[i], q.correctAnswer);
    s.(selectedAnswer := Some(i),
       correctAnswers := if correct then s.correctAnswers + 1 else s.correctAnswers,
       pendingAdvances := s.pendingAdvances + [SnapshotOf(s)],
       answered := s.answered + [correct])
  }

  /** The statistics that `sendStatistics` posts, as written: every field is
      read from the click-time closure, `correctAnswers` included. */
  function StatisticsAsWritten(p: ClickSnapshot): ScoreEntry {
    ScoreEntry(p.name, p.correctAnswers, p.elapsedTime + 1)
  }

  /** The statistics posted in this model: name and time from the click-time
      closure, points from the correct count after the last answer, that is,
      the score the finished screen shows. */
  function Statistics(p: ClickSnapshot, finalCorrect: nat): ScoreEntry {
    ScoreEntry(p.name, finalCorrect, p.elapsedTime + 1)
  }

  /** The `setTimeout` callback of the oldest pending click. Before the last
      question it moves to the next one and clears the selection; on the last
      one it finishes the quiz, stops the timer and posts the statistics. */
  function AdvanceAfterDelay(s: Session): (r: Session)
    requires |s.pendingAdvances| > 0
    ensures r.pendingAdvances == s.pendingAdvances[1..]
    ensures var p := s.pendingAdvances[0];
            p.index + 1 < p.questionCount ==>
              && r.currentQuestionIndex == p.index + 1 && r.selectedAnswer == None
              && r.quizFinished == s.quizFinished && r.timerActive == s.timerActive
              && r.sentStatistics == s.sentStatistics && r.rankingInFlight == s.rankingInFlight
    ensures var p := s.pendingAdvances[0];
            p.index + 1 >= p.questionCount ==>
              && r.quizFinished && !r.timerActive
              && r.currentQuestionIndex == s.currentQuestionIndex
              && r.selectedAnswer == s.selectedAnswer
              && r.sentStatistics == s.sentStatistics + [Statistics(p, s.correctAnswers)]
              && r.rankingInFlight == s.rankingInFlight + 1
    ensures r.correctAnswers == s.correctAnswers && r.elapsedTime == s.elapsedTime
    ensures r.questions == s.questions && r.selectedCategory == s.selectedCategory
    ensures r.name == s.name && r.nameEntered == s.nameEntered && r.ranking == s.ranking
    ensures r.fetchedCategories == s.fetchedCategories && r.questionsInFlight == s.questionsInFlight
    ensures r.answered == s.answered
  {
    var p := s.pendingAdvances[0];
    var s' := s.(pendingAdvances := s.pendingAdvances[1..]);
    if p.index < p.questionCount - 1 then
      s'.(currentQuestionIndex := p.index + 1, selectedAnswer := None)
    else
      s'.(quizFinished := true,
          timerActive := false,
          sentStatistics := s.sentStatistics + [Statistics(p, s.correctAnswers)],
          rankingInFlight := s.rankingInFlight + 1)
  }

  /** The `setTimeout` callback as the source writes it: the same as
      AdvanceAfterDelay except that, on the last question, the statistics it
      posts carry the click-time correct count. */
  function AdvanceAfterDelayAsWritten(s: Session): (r: Session)
    requires |s.pendingAdvances| > 0
    ensures var p := s.pendingAdvances[0];
            r == AdvanceAfterDelay(s).(sentStatistics :=
                   if p.index + 1 < p.questionCount then s.sentStatistics
                   else s.sentStatistics + [StatisticsAsWritten(p)])
  {
    var p := s.pendingAdvances[0];
    var s' := s.(pendingAdvances := s.pendingAdvances[1..]);
    if p.index < p.questionCount - 1 then
      s'.(currentQuestionIndex := p.index + 1, selectedAnswer := None)
    else
      s'.(quizFinished := true,
          timerActive := false,
          sentStatistics := s.sentStatistics + [StatisticsAsWritten(p)],
          rankingInFlight := s.rankingInFlight + 1)
  }

  /** A successful statistics request: the ranking becomes the first three
      rows of the response, in order. */
  function RankingLoaded(s: Session, data: seq<ScoreEntry>): (r: Session)
    requires s.rankingInFlight > 0
    ensures r.ranking <= data
    ensures |r.ranking| == if |data| < 3 then |data| else 3
    ensures r.rankingInFlight == s.rankingInFlight - 1
    ensures r.(ranking := s.ranking, rankingInFlight := s.rankingInFlight) == s
  {
    s.(ranking := TopThree(data), rankingInFlight := s.rankingInFlight - 1)
  }

  /** A failed statistics request is only logged; the ranking is unchanged. */
  function RankingFailed(s: Session): (r: Session)
    requires s.rankingInFlight > 0
    ensures r.rankingInFlight == s.rankingInFlight - 1
    ensures r.(rankingInFlight := s.rankingInFlight) == s
  {
    s.(rankingInFlight := s.rankingInFlight - 1)
  }

  /** `restartQuiz`: back to the name screen with no category, questions,
      time or ranking and the timer stopped. The question index, the correct
      count and the selection are left as they were. */
  function RestartQuiz(s: Session): (r: Session)
    ensures r.selectedCategory == None && r.questions == [] && !r.quizFinished
    ensures r.name == "" && !r.nameEntered && r.elapsedTime == 0 && !r.timerActive && r.ranking == []
    ensures r.correctAnswers == s.correctAnswers && r.currentQuestionIndex == s.currentQuestionIndex
    ensures r.selectedAnswer == s.selectedAnswer && r.pendingAdvances == s.pendingAdvances
    ensures r.fetchedCategories == s.fetchedCategories && r.questionsInFlight == s.questionsInFlight
    ensures r.sentStatistics == s.sentStatistics && r.rankingInFlight == s.rankingInFlight
    ensures r.answered == s.answered
  {
    s.(selectedCategory := None,
       questions := [],
       quizFinished := false,
       name := "",
       nameEntered := false,
       elapsedTime := 0,
       timerActive := false,
       ranking := [])
  }

  // ------------------------------------------------------------------
  // Runs

  datatype Event =
    | NameTyped(value: string)
    | NameConfirmClicked
    | CategoryClicked(category: string)
    | TimerTicked
    | QuestionsArrived(data: seq<Question>)
    | QuestionsRequestFailed
    | AnswerClicked(index: nat)
    | AdvanceDelayElapsed
    | RankingArrived(entries: seq<ScoreEntry>)
    | RankingRequestFailed
    | PlayAgainClicked

  /** Whether `e` can happen in `s`: a control must be on the screen and not
      disabled, the timer must be running, a callback or a response must be
      outstanding. The answer buttons need the current question to exist,
      since the render reads it. */
  predicate Enabled(s: Session, e: Event) {
    match e
    case NameTyped(_) => ScreenOf(s) == NameEntry
    case NameConfirmClicked => ScreenOf(s) == NameEntry && !IsBlank(s.name)
    case CategoryClicked(c) => ScreenOf(s) == CategorySelect && c in Categories
    case TimerTicked => s.timerActive
    case QuestionsArrived(_) => s.questionsInFlight > 0
    case QuestionsRequestFailed => s.questionsInFlight > 0
    case AnswerClicked(i) =>
      && ScreenOf(s) == QuestionScreen && s.selectedAnswer.None?
      && s.currentQuestionIndex < |s.questions|
      && i < |s.questions[s.currentQuestionIndex].answers|
    case AdvanceDelayElapsed => |s.pendingAdvances| > 0
    case RankingArrived(_) => s.rankingInFlight > 0
    case RankingRequestFailed => s.rankingInFlight > 0
    case PlayAgainClicked => ScreenOf(s) == Finished
  }

  /** The handler that runs for an event that can happen. */
  function Handle(s: Session, e: Event): Session
    requires Enabled(s, e)
  {
    match e
    case NameTyped(v) => SetName(s, v)
    case NameConfirmClicked => ConfirmName(s)
    case CategoryClicked(c) => CategoryEffect(StartQuiz(s, c), s.selectedCategory)
    case TimerTicked => UpdateTimer(s)
    case QuestionsArrived(data) => QuestionsLoaded(s, data)
    case QuestionsRequestFailed => QuestionsFailed(s)
    case AnswerClicked(i) => HandleAnswerClick(s, i)
    case AdvanceDelayElapsed => AdvanceAfterDelay(s)
    case RankingArrived(data) => RankingLoaded(s, data)
    case RankingRequestFailed => RankingFailed(s)
    case PlayAgainClicked => CategoryEffect(RestartQuiz(s), s.selectedCategory)
  }

  /** One event; an event that cannot happen leaves the state as it is. */
  function Step(s: Session, e: Event): Session {
    if Enabled(s, e) then Handle(s, e) else s
  }

  function Run(s: Session, events: seq<Event>): Session
    decreases |events|
  {
    if events == [] then s else Run(Step(s, events[0]), events[1..])
  }

  // ------------------------------------------------------------------
  // The invariant of every reachable state

  /** Whether a quiz has been started and not yet finished. */
  predicate InProgress(s: Session) {
    IsTruthy(s.selectedCategory) && !s.quizFinished
  }

  /** The number of `true` entries of `bs`. */
  function CountTrue(bs: seq<bool>): (n: nat)
    ensures n <= |bs|
    ensures n == |bs| <==> forall k :: 0 <= k < |bs| ==> bs[k]
  {
    if bs == [] then 0 else CountTrue(bs[..|bs| - 1]) + (if bs[|bs| - 1] then 1 else 0)
  }

  lemma CountTrueAppend(bs: seq<bool>, b: bool)
    ensures CountTrue(bs + [b]) == CountTrue(bs) + (if b then 1 else 0)
  {
    assert (bs + [b])[..|bs|] == bs;
  }

  ghost predicate Inv(s: Session) {
    // the correct count is the number of clicks that hit the correct answer,
    // and there is one click for each question passed plus the one selected
    && s.correctAnswers == CountTrue(s.answered)
    && |s.answered| == s.currentQuestionIndex + (if s.selectedAnswer.Some? then 1 else 0)
    // a finished quiz has one click for each of its questions
    && (s.quizFinished ==> s.selectedAnswer.Some? && |s.answered| == |s.questions|)
    // the index stays inside the loaded question list
    && (|s.questions| > 0 ==> s.currentQuestionIndex < |s.questions|)
    // an entered name is never blank
    && (s.nameEntered ==> !IsBlank(s.name))
    // at most one advance is pending, and it belongs to the question on screen
    && |s.pendingAdvances| <= 1
    && (|s.pendingAdvances| == 1 ==>
          && s.pendingAdvances[0].index == s.currentQuestionIndex
          && s.pendingAdvances[0].questionCount == |s.questions|
          && s.currentQuestionIndex < |s.questions|
          && s.pendingAdvances[0].correctAnswers <= s.correctAnswers
          && s.selectedAnswer.Some? && InProgress(s) && s.questionsInFlight == 0)
    // at most one question request is outstanding, issued by the quiz now loading
    && s.questionsInFlight <= 1
    && (s.questionsInFlight == 1 ==>
          && s.questions == [] && s.currentQuestionIndex == 0 && s.selectedAnswer == None
          && s.correctAnswers == 0 && InProgress(s))
    // a category is chosen only after the name
    && (!s.nameEntered ==> s.selectedCategory == None)
    // before a category is chosen there is nothing loaded or scheduled
    && (!IsTruthy(s.selectedCategory) ==>
          s.questions == [] && s.questionsInFlight == 0 && s.pendingAdvances == [] && !s.quizFinished)
    // the timer runs exactly while a quiz is in progress
    && (s.timerActive <==> InProgress(s))
    // each started quiz posts its statistics once, when it finishes
    && |s.sentStatistics| + (if InProgress(s) then 1 else 0) == |s.fetchedCategories|
    && s.rankingInFlight <= |s.sentStatistics|
    && |s.ranking| <= 3
  }

  lemma InitialInv()
    ensures Inv(Initial())
  {
  }

  lemma StartQuizKeepsInv(s: Session, c: string)
    requires Inv(s) && Enabled(s, CategoryClicked(c))
    ensures Inv(Handle(s, CategoryClicked(c)))
  {
  }

  lemma AnswerClickKeepsInv(s: Session, i: nat)
    requires Inv(s) && Enabled(s, AnswerClicked(i))
    ensures Inv(HandleAnswerClick(s, i))
  {
    var q := s.questions[s.currentQuestionIndex];
    CountTrueAppend(s.answered, q.answers[i] == q.correctAnswer);
  }

  lemma AdvanceKeepsInv(s: Session)
    requires Inv(s) && Enabled(s, AdvanceDelayElapsed)
    ensures Inv(AdvanceAfterDelay(s))
  {
  }

  lemma RestartKeepsInv(s: Session)
    requires Inv(s) && Enabled(s, PlayAgainClicked)
    ensures Inv(Handle(s, PlayAgainClicked))
    ensures ScreenOf(Handle(s, PlayAgainClicked)) == NameEntry
  {
  }

  lemma StepKeepsInv(s: Session, e: Event)
    requires Inv(s)
    ensures Inv(Step(s, e))
  {
    // the events that start, answer, advance and restart a quiz are the
    // cases worth reading; the others change no field the invariant relates
    if Enabled(s, e) {
      match e
      case CategoryClicked(c) => StartQuizKeepsInv(s, c);
      case AnswerClicked(i) => AnswerClickKeepsInv(s, i);
      case AdvanceDelayElapsed => AdvanceKeepsInv(s);
      case PlayAgainClicked => RestartKeepsInv(s);
      case _ =>
    }
  }

  lemma {:induction false} RunKeepsInv(s: Session, events: seq<Event>)
    requires Inv(s)
    ensures Inv(Run(s, events))
    decreases |events|
  {
    if events != [] {
      StepKeepsInv(s, events[0]);
      RunKeepsInv(Step(s, events[0]), events[1..]);
    }
  }

  // ------------------------------------------------------------------
  // Screen transitions

  /** Confirming a name that is not blank leads from the name screen to the
      category screen. */
  lemma ConfirmShowsCategories(s: Session)
    requires Inv(s) && Enabled(s, NameConfirmClicked)
    ensures ScreenOf(Step(s, NameConfirmClicked)) == CategorySelect
  {
  }

  /** When the question request returns a non-empty list, the first question
      is shown; an empty list leaves the quiz loading. */
  lemma QuestionsArrivalShowsQuestion(s: Session, data: seq<Question>)
    requires Inv(s) && Enabled(s, QuestionsArrived(data))
    ensures var r := Step(s, QuestionsArrived(data));
            && (data != [] ==> ScreenOf(r) == QuestionScreen && r.currentQuestionIndex == 0)
            && (data == [] ==> ScreenOf(r) == Loading)
  {
  }

  /** A failed question request leaves the quiz loading with no request
      outstanding. */
  lemma QuestionsFailureShowsLoading(s: Session)
    requires Inv(s) && Enabled(s, QuestionsRequestFailed)
    ensures var r := Step(s, QuestionsRequestFailed);
            ScreenOf(r) == Loading && r.questionsInFlight == 0
  {
  }

  /** The loading screen with no question request outstanding is never left:
      no control is shown, no callback is pending, and the only events that
      can happen (timer ticks, statistics responses of an earlier quiz) do
      not change the screen. */
  lemma LoadingStepStaysLoading(s: Session, e: Event)
    requires Inv(s) && ScreenOf(s) == Loading && s.questionsInFlight == 0
    ensures var r := Step(s, e);
            ScreenOf(r) == Loading && r.questionsInFlight == 0 && r.questions == []
  {
  }

  lemma {:induction false} LoadingStaysLoading(s: Session, events: seq<Event>)
    requires Inv(s) && ScreenOf(s) == Loading && s.questionsInFlight == 0
    ensures ScreenOf(Run(s, events)) == Loading
    decreases |events|
  {
    if events != [] {
      LoadingStepStaysLoading(s, events[0]);
      StepKeepsInv(s, events[0]);
      LoadingStaysLoading(Step(s, events[0]), events[1..]);
    }
  }

  /** After any sequence of events from mount: the correct count is the
      number of answer clicks of the current quiz that hit the correct answer,
      and a finished quiz has had exactly one click per question; so the count
      exceeds the question index by at most one. The index stays inside the
      loaded questions, the question screen only shows a question that exists,
      the timer runs only during a quiz, at most one statistics post is made
      per started quiz and the ranking has at most three rows. */
  lemma ReachableBounds(events: seq<Event>)
    ensures var s := Run(Initial(), events);
            && s.correctAnswers == CountTrue(s.answered)
            && (s.quizFinished ==> |s.answered| == |s.questions|)
            && s.correctAnswers <= s.currentQuestionIndex + 1
            && (|s.questions| > 0 ==> s.currentQuestionIndex < |s.questions|)
            && (ScreenOf(s) == QuestionScreen ==>
                  s.currentQuestionIndex < |s.questions| && s.correctAnswers <= |s.questions|)
            && (s.timerActive <==> InProgress(s))
            && |s.sentStatistics| <= |s.fetchedCategories|
            && |s.ranking| <= 3
  {
    InitialInv();
    RunKeepsInv(Initial(), events);
  }

  /** In a reachable state, an answer click followed by its delay moves to the
      next question, keeping the index inside the list, unless the question
      was the last, in which case the quiz finishes, the timer stops and
      exactly one statistics entry is posted, whose points are the correct
      count the finished screen shows, at most the number of questions. */
  lemma ClickThenAdvance(s: Session, i: nat)
    requires Inv(s) && Enabled(s, AnswerClicked(i))
    ensures var r := Step(Step(s, AnswerClicked(i)), AdvanceDelayElapsed);
            && r.questions == s.questions && r.pendingAdvances == []
            && (s.currentQuestionIndex + 1 < |s.questions| ==>
                  && r.currentQuestionIndex == s.currentQuestionIndex + 1
                  && r.currentQuestionIndex < |r.questions|
                  && r.selectedAnswer == None && !r.quizFinished
                  && r.sentStatistics == s.sentStatistics)
            && (s.currentQuestionIndex + 1 == |s.questions| ==>
                  && r.quizFinished && !r.timerActive && ScreenOf(r) == Finished
                  && r.currentQuestionIndex == s.currentQuestionIndex
                  && |r.sentStatistics| == |s.sentStatistics| + 1
                  && r.sentStatistics[|s.sentStatistics|].points == r.correctAnswers
                  && r.correctAnswers == CountTrue(r.answered) && |r.answered| == |r.questions|
                  && r.sentStatistics[|s.sentStatistics|].timeInSeconds == s.elapsedTime + 1)
  {
    StepKeepsInv(s, AnswerClicked(i));
    StepKeepsInv(Step(s, AnswerClicked(i)), AdvanceDelayElapsed);
  }

  // ------------------------------------------------------------------
  // The statistics payload as the source writes it

  /** As written, the posted points come from the click-time closure and miss
      the point of the last answer: after a correct last answer they are one
      less than the correct count the finished screen shows. */
  lemma AsWrittenLosesLastPoint(s: Session, i: nat)
    requires Inv(s) && Enabled(s, AnswerClicked(i))
    requires s.questions[s.currentQuestionIndex].answers[i] ==
             s.questions[s.currentQuestionIndex].correctAnswer
    ensures var c := Step(s, AnswerClicked(i));
            && |c.pendingAdvances| == 1
            && StatisticsAsWritten(c.pendingAdvances[0]).points == c.correctAnswers - 1
            && Statistics(c.pendingAdvances[0], c.correctAnswers).points == c.correctAnswers
            && (s.currentQuestionIndex + 1 == |s.questions| ==>
                  && AdvanceAfterDelayAsWritten(c).sentStatistics ==
                       s.sentStatistics + [ScoreEntry(s.name, c.correctAnswers - 1, s.elapsedTime + 1)]
                  && AdvanceAfterDelay(c).sentStatistics ==
                       s.sentStatistics + [ScoreEntry(s.name, c.correctAnswers, s.elapsedTime + 1)])
  {
  }

  // The event lists below are built as `[e] + rest`, one event at a time, so
  // that RunCons applies to them without the solver slicing a display.

  /** The player types the name "Ann", confirms it and picks the population category. */
  function AnnPicksPopulation(): seq<Event> {
    [NameTyped("Ann")] + ([NameConfirmClicked] + ([CategoryClicked("population")] + []))
  }

  /** The events of a one-question quiz played by "Ann" in the population
      category, up to and including the click on the answer at position `i`. */
  function OneQuestionClicks(q: Question, i: nat): seq<Event> {
    AnnPicksPopulation() + ([QuestionsArrived([q])] + ([AnswerClicked(i)] + []))
  }

  /** The same quiz played to the end: the click's delay elapses. */
  function OneQuestionGame(q: Question, i: nat): seq<Event> {
    OneQuestionClicks(q, i) + [AdvanceDelayElapsed]
  }

  /** A one-question quiz answered correctly: the finished screen shows one
      correct answer and the statistics this model posts carry one point.
      The callback as written, run on the same state after the click, also
      finishes with one correct answer on screen but posts no points. */
  lemma OneCorrectAnswerExample()
    ensures var a := Answer("Tokyo", "Japan", 37400000);
            var b := Answer("Delhi", "India", 31000000);
            var q := Question("Q1", [a, b], a);
            var c := Run(Initial(), OneQuestionClicks(q, 0));
            var s := Run(Initial(), OneQuestionGame(q, 0));
            && |c.pendingAdvances| == 1
            && var w := AdvanceAfterDelayAsWritten(c);
            && ScreenOf(s) == Finished && s.correctAnswers == 1
            && s.sentStatistics == [ScoreEntry("Ann", 1, 1)]
            && ScreenOf(w) == Finished && w.correctAnswers == 1
            && w.sentStatistics == [ScoreEntry("Ann", 0, 1)]
  {
    var a := Answer("Tokyo", "Japan", 37400000);
    var b := Answer("Delhi", "India", 31000000);
    var q := Question("Q1", [a, b], a);
    PlayOneQuestion(q, 0);
  }

  /** A one-question quiz answered wrongly finishes with no points, and
      posts no points. */
  lemma OneWrongAnswerExample()
    ensures var a := Answer("Tokyo", "Japan", 37400000);
            var b := Answer("Delhi", "India", 31000000);
            var q := Question("Q1", [a, b], a);
            var s := Run(Initial(), OneQuestionGame(q, 1));
            && ScreenOf(s) == Finished && s.correctAnswers == 0
            && s.sentStatistics == [ScoreEntry("Ann", 0, 1)]
  {
    var a := Answer("Tokyo", "Japan", 37400000);
    var b := Answer("Delhi", "India", 31000000);
    var q := Question("Q1", [a, b], a);
    PlayOneQuestion(q, 1);
  }

  /** The state after OneQuestionClicks: the question is on screen with the
      answer at `i` selected, its point counted, its callback pending, and
      one question request made. */
  lemma OneQuestionClicked(q: Question, i: nat)
    requires i < |q.answers|
    ensures var correct := q.answers[i] == q.correctAnswer;
            Run(Initial(), OneQuestionClicks(q, i)) ==
              Session("Ann", true, Some("population"), [q], 0, Some(i), if correct then 1 else 0,
                      false, 0, true, [], [ClickSnapshot(0, 1, "Ann", 0, 0)], ["population"], 0,
                      [], 0, [correct])
  {
    AnnPickedPopulation();
    var s3 := Run(Initial(), AnnPicksPopulation());
    RunAppend(Initial(), AnnPicksPopulation(), [QuestionsArrived([q])] + ([AnswerClicked(i)] + []));
    StepEnabled(s3, QuestionsArrived([q]));
    var s4 := Step(s3, QuestionsArrived([q]));
    assert ScreenOf(s4) == QuestionScreen;
    StepEnabled(s4, AnswerClicked(i));
    RunCons(s4, AnswerClicked(i), []);
    RunCons(s3, QuestionsArrived([q]), [AnswerClicked(i)] + []);
  }

  /** After AnnPicksPopulation the quiz is loading: one question request for
      the population category is outstanding and the timer runs. */
  lemma AnnPickedPopulation()
    ensures Run(Initial(), AnnPicksPopulation()) ==
              Session("Ann", true, Some("population"), [], 0, None, 0, false, 0, true, [], [],
                      ["population"], 1, [], 0, [])
  {
    assert !IsBlank("Ann");
    var s0 := Initial();
    StepEnabled(s0, NameTyped("Ann"));
    var s1 := Step(s0, NameTyped("Ann"));
    StepEnabled(s1, NameConfirmClicked);
    var s2 := Step(s1, NameConfirmClicked);
    assert s2.nameEntered && s2.name == "Ann" && s2.selectedCategory == None;
    StepEnabled(s2, CategoryClicked("population"));
    RunCons(s2, CategoryClicked("population"), []);
    RunCons(s1, NameConfirmClicked, [CategoryClicked("population")] + []);
    RunCons(s0, NameTyped("Ann"), [NameConfirmClicked] + ([CategoryClicked("population")] + []));
  }

  /** The delayed callback of OneQuestionGame finishes the quiz and posts the
      score with one second. */
  lemma PlayOneQuestion(q: Question, i: nat)
    requires i < |q.answers|
    ensures var c := Run(Initial(), OneQuestionClicks(q, i));
            && c.pendingAdvances == [ClickSnapshot(0, 1, "Ann", 0, 0)]
            && c.correctAnswers == (if q.answers[i] == q.correctAnswer then 1 else 0)
            && c.sentStatistics == []
            && Run(Initial(), OneQuestionGame(q, i)) == AdvanceAfterDelay(c)
    ensures var s := Run(Initial(), OneQuestionGame(q, i));
            && ScreenOf(s) == Finished
            && s.correctAnswers == (if q.answers[i] == q.correctAnswer then 1 else 0)
            && s.sentStatistics == [ScoreEntry("Ann", s.correctAnswers, 1)]
  {
    OneQuestionClicked(q, i);
    var c := Run(Initial(), OneQuestionClicks(q, i));
    RunAppend(Initial(), OneQuestionClicks(q, i), [AdvanceDelayElapsed]);
    RunCons(c, AdvanceDelayElapsed, []);
    StepEnabled(c, AdvanceDelayElapsed);
  }

  /** An event that can happen runs its handler. */
  lemma StepEnabled(s: Session, e: Event)
    requires Enabled(s, e)
    ensures Step(s, e) == Handle(s, e)
  {
  }

  /** One event, then the rest. */
  lemma RunCons(s: Session, e: Event, rest: seq<Event>)
    ensures Run(s, [e] + rest) == Run(Step(s, e), rest)
  {
    assert ([e] + rest)[1..] == rest;
  }

  /** A run of `a` and then `b` is a run of `b` from where `a` ends. */
  lemma {:induction false} RunAppend(s: Session, a: seq<Event>, b: seq<Event>)
    ensures Run(s, a + b) == Run(Run(s, a), b)
    decreases |a|
  {
    if a == [] {
      assert a + b == b;
    } else {
      assert (a + b)[0] == a[0] && (a + b)[1..] == a[1..] + b;
      RunAppend(Step(s, a[0]), a[1..], b);
    }
  }
}
