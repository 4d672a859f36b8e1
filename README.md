# Town Quiz Game client: the session state machine

This project models the `App` component of the quiz client in `src/App.jsx`.
The component asks for the player's name and lets the player pick a category.
It then loads that category's questions from the backend, shows one question
at a time, and scores each answer with a field-by-field comparison. It counts
the seconds with an interval timer. When the quiz ends it posts the player's
statistics and shows the first three rows of the leaderboard that comes back.

The model has five modules, one file each:

- `JsText` (`js_text.dfy`) models JavaScript's `String.prototype.trim` and the
  `!name.trim()` test, which is `IsBlank`.
- `QuizData` (`quiz_data.dfy`) holds answers, questions and leaderboard rows.
  It also holds the three-field correctness check and `slice(0, 3)`.
- `QuizView` (`quiz_view.dfy`) holds the two pure decisions of the render:
  - which of the five screens is shown;
  - how each answer button is marked (success, danger or none) and whether it
    is disabled.
- `QuizSession` (`quiz_session.dfy`) holds the component state as a value
  (`Session`) and one function per event handler. It also holds:
  - the events that can happen in a state (`Enabled`);
  - runs of events (`Step`, `Run`);
  - the invariant `Inv` of every reachable state, with its proof.
- `QuizApp` (`quiz_app.dfy`) holds the class `App`. Its fields are the
  component's state variables, plus one field `env` that groups the
  bookkeeping listed below. Each method assigns the fields the way the
  handler's setters do, with one exception: `App.AdvanceAfterDelay` posts the
  corrected statistics payload, not the one the source posts (see
  "## Findings"). Each method ensures that the object ends up in the state
  the matching `QuizSession` function computes.

All runs of events (`Step`, `Run`, `App.Dispatch`, `QuizApp.Play` and the
lemmas about runs) execute the corrected program. The callback as the source
writes it is `QuizSession.AdvanceAfterDelayAsWritten`. It is compared with the
corrected callback on the same states, but no run uses it.

Some of the outside world is made explicit in the state:

- The `setTimeout` callback of an answer click is a `ClickSnapshot`, queued in
  `pendingAdvances`. It holds the values the callback closes over: the
  question index, the number of questions, and the name, correct count and
  elapsed time as they were at the click.
- The interval timer is the flag `timerActive`.
- The two HTTP exchanges are modelled as logs and counters:
  - `fetchedCategories` logs the question requests and `questionsInFlight`
    counts the ones not yet answered;
  - `sentStatistics` logs the statistics posts and `rankingInFlight` counts
    the ones not yet answered.
- A response or a failure is a separate event.
- `answered` logs each answer click of the current quiz: whether the clicked
  answer was the correct one. The component keeps only the count of these
  outcomes (`correctAnswers`). The log exists so that the meaning of the
  count can be stated.
- A click on a disabled or hidden control cannot happen, so `Step` ignores it.
  The same goes for a timer tick while the timer is stopped, and for a
  response nobody is waiting for.

## Model

| member | source | states |
|---|---|---|
| `JsText.TrimStart` | src/App.jsx:37 | the result is a suffix of the input; everything dropped is white space; the result is empty or starts with a non-white-space character |
| `JsText.TrimEnd` | src/App.jsx:37 | the result is a prefix of the input; everything dropped is white space; the result is empty or ends with a non-white-space character |
| `JsText.Trim` | src/App.jsx:138 | `trim()` is empty exactly when every character is white space; otherwise its first and last characters are not white space |
| `JsText.BlankIffAllWhitespace` | src/App.jsx:138 | `IsBlank` holds exactly when every character is white space |
| `JsText.TrimEmptyIffBlank` | src/App.jsx:37 | `IsBlank(s)` is the JavaScript test `!s.trim()` |
| `QuizData.CorrectIffEqual` | src/App.jsx:59-63 | the three-field check is structural equality; an answer that differs in any one field is wrong |
| `QuizData.TopThree` | src/App.jsx:102 | at most three rows; the first three rows of the response in order, or all of them when there are fewer |
| `QuizView.SelectScreen` | src/App.jsx:125-235 | exactly one screen, in priority order: no name entered gives NameEntry; then no truthy category gives CategorySelect; then finished gives Finished; then questions present gives Question; otherwise Loading |
| `QuizView.MarkAnswer` | src/App.jsx:212-222 | unmarked with no selection; success exactly when something is selected and the answer equals the correct one; danger exactly when this answer is the selected one and is wrong |
| `QuizView.AnswerButtons` | src/App.jsx:209-228 | one button per answer in order; every button is disabled exactly when an answer is selected; each button's mark is characterised as in `MarkAnswer` |
| `QuizView.MarksAfterSelection` | src/App.jsx:212-224 | at most one button is marked danger; after a selection, some button is marked success when the correct answer is among the answers |
| `QuizSession.Initial` | src/App.jsx:6-18 | the mounted component shows the name screen, with zero counters, no timer, no ranking and no requests |
| `QuizSession.SetName` | src/App.jsx:133 | typing replaces the name and nothing else |
| `QuizSession.ConfirmName` | src/App.jsx:137-143 | the name is accepted exactly when it has a non-white-space character; nothing but `nameEntered` changes |
| `QuizSession.StartQuiz` | src/App.jsx:36-50 | a blank name changes nothing; otherwise the category is set, index, points and time are zero, the quiz is not finished, no answer is selected, the timer runs and the answer log is empty; questions, ranking, name, pending callbacks, requests and posts are untouched |
| `QuizSession.CategoryEffect` | src/App.jsx:20-34 | one question request for the new category exactly when `selectedCategory` changed to a truthy value; otherwise nothing changes |
| `QuizSession.UpdateTimer` | src/App.jsx:52-54 | one tick adds exactly one second and changes nothing else |
| `QuizSession.QuestionsLoaded` | src/App.jsx:31 | the returned array becomes the question list and the request is done; nothing else changes |
| `QuizSession.QuestionsFailed` | src/App.jsx:32 | a failed question request only ends the request |
| `QuizSession.HandleAnswerClick` | src/App.jsx:56-66 | the clicked answer is selected; the correct count grows by exactly one when the answer equals the correct one and is unchanged otherwise; the click's outcome is appended to the answer log; one delayed advance is scheduled with the click-time values; nothing else changes |
| `QuizSession.AdvanceAfterDelay` | src/App.jsx:67-76 | before the last question of the snapshot, the index becomes the click-time index plus one and the selection is cleared; otherwise the quiz finishes, the timer stops and exactly one statistics entry is posted, with the corrected payload; no question request is made and the questions, counts, name, category, ranking and answer log are unchanged |
| `QuizSession.AdvanceAfterDelayAsWritten` | src/App.jsx:67-84 | the callback as written equals the corrected one except on the last question, where the entry it posts is the click-time payload `StatisticsAsWritten` |
| `QuizSession.RankingLoaded` | src/App.jsx:101-103 | the ranking is the prefix of the response of length three, or the whole response when it has fewer than three rows |
| `QuizSession.RankingFailed` | src/App.jsx:104 | a failed statistics request leaves the ranking as it was |
| `QuizSession.RestartQuiz` | src/App.jsx:107-116 | category, questions, finished flag, name, entered flag, time and ranking are cleared and the timer stops; index, points, selection, answer log, callbacks, requests and posts are unchanged |
| `QuizSession.InitialInv` | src/App.jsx:6-18 | the mounted state satisfies the session invariant |
| `QuizSession.StartQuizKeepsInv` | src/App.jsx:36-50 | choosing a category on the category screen keeps the invariant |
| `QuizSession.AnswerClickKeepsInv` | src/App.jsx:56-66 | clicking an enabled answer keeps the invariant |
| `QuizSession.AdvanceKeepsInv` | src/App.jsx:67-76 | the delayed advance keeps the invariant |
| `QuizSession.RestartKeepsInv` | src/App.jsx:107-116 | "Play Again" keeps the invariant and shows the name screen |
| `QuizSession.StepKeepsInv` | src/App.jsx:20-116 | every event keeps the invariant; the invariant includes that a category is chosen only after the name |
| `QuizSession.RunKeepsInv` | src/App.jsx:20-116 | every run of events keeps the invariant |
| `QuizSession.ConfirmShowsCategories` | src/App.jsx:137-153 | in a reachable state, confirming a name that is not blank shows the category screen |
| `QuizSession.QuestionsArrivalShowsQuestion` | src/App.jsx:200-235 | in a reachable state, a non-empty question list arriving shows the first question; an empty one leaves the loading screen |
| `QuizSession.QuestionsFailureShowsLoading` | src/App.jsx:20-34 | in a reachable state, a failed question request leaves the loading screen with no request outstanding |
| `QuizSession.LoadingStepStaysLoading` | src/App.jsx:20-34 | on the loading screen with no request outstanding, every event keeps the loading screen, no request and no questions |
| `QuizSession.LoadingStaysLoading` | src/App.jsx:20-34 | from that state, every run of events stays on the loading screen: a failed question request is never retried |
| `QuizSession.ReachableBounds` | src/App.jsx:56-76 | after any run from mount: the correct count is the number of answer clicks of the current quiz that hit the correct answer, and a finished quiz has exactly one logged click per question; points at most index plus one; the index inside the loaded questions; the question screen only shows an existing question, with points at most the number of questions; the timer runs exactly during a quiz; at most one statistics post per started quiz; at most three ranking rows |
| `QuizSession.ClickThenAdvance` | src/App.jsx:56-84 | click then delay on a non-final question moves to the next question, still in range, and clears the selection; on the last question it finishes, stops the timer and posts exactly one entry whose points equal the correct count shown, that is, the number of the quiz's questions answered correctly, one logged click per question, and whose time is the click-time seconds plus one |
| `QuizSession.AsWrittenLosesLastPoint` | src/App.jsx:79-84 | with the payload as written, a correct answer's snapshot carries one point less than the correct count; on the last question the as-written callback posts (name, count minus one, seconds plus one) where the corrected one posts the full count |
| `QuizSession.OneCorrectAnswerExample` | src/App.jsx:56-84 | a one-question quiz answered correctly shows one point and posts one point; the as-written callback, run on the same state after the click, also shows one point but posts (Ann, 0, 1) |
| `QuizSession.OneWrongAnswerExample` | src/App.jsx:56-84 | a one-question quiz answered wrongly finishes with zero points and posts zero points |
| `QuizSession.AnnPickedPopulation` | src/App.jsx:20-50 | name, confirm, category: the quiz is loading, with one question request for the category outstanding and the timer running |
| `QuizSession.OneQuestionClicked` | src/App.jsx:20-66 | then the questions arrive and an answer is clicked: the exact state, with the point counted, the outcome logged and the callback pending with click-time values |
| `QuizSession.PlayOneQuestion` | src/App.jsx:36-84 | name, confirm, category, questions, click, delay: the run before the delay holds the click-time snapshot; the delay's callback finishes the quiz and posts one entry with the score and one second |
| `QuizSession.StepEnabled` | src/App.jsx:20-116 | an event that can happen runs its handler |
| `QuizSession.RunCons` | src/App.jsx:20-116 | a run is its first event followed by the rest |
| `QuizSession.RunAppend` | src/App.jsx:20-116 | running two event sequences one after the other is running their concatenation |
| `QuizApp.App.constructor` | src/App.jsx:6-18 | the new object holds the mounted state |
| `QuizApp.App.SetName` | src/App.jsx:133 | new state is `QuizSession.SetName` of the old |
| `QuizApp.App.ConfirmName` | src/App.jsx:137-143 | new state is `QuizSession.ConfirmName` of the old |
| `QuizApp.App.StartQuiz` | src/App.jsx:36-50 | new state is `QuizSession.StartQuiz` of the old |
| `QuizApp.App.CategoryEffect` | src/App.jsx:20-34 | new state is `QuizSession.CategoryEffect` of the old |
| `QuizApp.App.UpdateTimer` | src/App.jsx:52-54 | new state is `QuizSession.UpdateTimer` of the old |
| `QuizApp.App.QuestionsLoaded` | src/App.jsx:31 | new state is `QuizSession.QuestionsLoaded` of the old |
| `QuizApp.App.QuestionsFailed` | src/App.jsx:32 | new state is `QuizSession.QuestionsFailed` of the old |
| `QuizApp.App.HandleAnswerClick` | src/App.jsx:56-66 | new state is `QuizSession.HandleAnswerClick` of the old |
| `QuizApp.App.AdvanceAfterDelay` | src/App.jsx:67-76 | new state is `QuizSession.AdvanceAfterDelay` of the old |
| `QuizApp.App.RankingLoaded` | src/App.jsx:101-103 | new state is `QuizSession.RankingLoaded` of the old |
| `QuizApp.App.RankingFailed` | src/App.jsx:104 | new state is `QuizSession.RankingFailed` of the old |
| `QuizApp.App.RestartQuiz` | src/App.jsx:107-116 | new state is `QuizSession.RestartQuiz` of the old |
| `QuizApp.App.Dispatch` | src/App.jsx:20-116 | one event that can happen takes the object to the state `Step` gives |
| `QuizApp.Play` | src/App.jsx:5-116 | a fresh component driven by any events reaches the state `Run` gives; its correct count is the number of logged clicks that hit the correct answer; points are at most index plus one, the index stays inside the questions, and the ranking has at most three rows |

## Left out

- HTTP and JSON. The `fetch` calls, their headers and the parsing of the
  response body are not modelled. A request is a log entry plus an
  in-flight counter. A successful response or a failure arrives as an event.
- `alert` and `console.error`. They are user-visible or diagnostic side
  effects with no effect on the state. The refusal paths that raise them are
  modelled as "no change".
- Real time. `setInterval`, `setTimeout` and their one-second delays are
  events (`TimerTicked`, `AdvanceDelayElapsed`). `clearInterval` clears the
  flag `timerActive`. The identity of an interval handle is not modelled. In
  every reachable state at most one interval runs (`Inv`), so a second
  interval started over a running one, which would leak, cannot arise.
- The `startTime` state (src/App.jsx:15, 47) is set but never read.
- Presentation: layout, Bootstrap classes, texts, the capitalised category
  label (src/App.jsx:159) and the ranking table (src/App.jsx:170-199). Only
  the screen choice and the success/danger/none classification are modelled.
- React scheduling. The setters of one handler take effect together, at the
  end of the event. The effect on `selectedCategory` runs right after the
  handler that changed it. Closures are modelled only where a value is read
  later: the advance callback's `ClickSnapshot`.
- Answer identity. `answer === selectedAnswer` compares object references.
  Here an answer is identified by its position in the current question.
- Numbers. `population` is an integer compared for equality. JavaScript
  floating point, including `NaN !== NaN`, is not modelled.
- The rest of the repository's files are not part of this model.

## Findings

| source | as written | input that shows it | evidently intended | confidence | as-written member | corrected member |
|---|---|---|---|---|---|---|
| src/App.jsx:67-84 | the advance callback calls the `sendStatistics` of the click-time render, which reads `correctAnswers` from before the last answer's increment | a one-question quiz whose correct answer is clicked: the finished screen says 1 out of 1, but the post carries `points: 0` | post the correct count the finished screen shows (src/App.jsx:167) | not executed | `QuizSession.AsWrittenLosesLastPoint` | `QuizSession.ClickThenAdvance` |

`QuizSession.StatisticsAsWritten` builds the payload as written, and
`QuizSession.AdvanceAfterDelayAsWritten` is the callback that posts it. The
lemmas `QuizSession.AsWrittenLosesLastPoint` and
`QuizSession.OneCorrectAnswerExample` show the lost point. The second one shows
it on the state reached by a concrete run.
`QuizSession.Statistics` is the corrected payload, and `AdvanceAfterDelay` and
the class post it. `AdvanceAfterDelay` takes the points from the correct
count at the moment the quiz finishes. The name and `timeInSeconds` (the
click-time seconds plus one) are kept as written.
