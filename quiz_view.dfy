/** What the component renders, reduced to the decisions the render makes:
    which screen is shown, and how each answer button is marked. */
module QuizView {
  import opened QuizData

  datatype Screen = NameEntry | CategorySelect | Finished | QuestionScreen | Loading

  /** The chain of conditionals of the render. Exactly one screen is shown, and
      each condition is tested only when all earlier ones failed. */
  function SelectScreen(nameEntered: bool, category: Option<string>, quizFinished: bool,
                        questionCount: nat): (r: Screen)
    ensures r == NameEntry <==> !nameEntered
    ensures r == CategorySelect <==> nameEntered && !IsTruthy(category)
    ensures r == Finished <==> nameEntered && IsTruthy(category) && quizFinished
    ensures r == QuestionScreen <==>
              nameEntered && IsTruthy(category) && !quizFinished && questionCount > 0
    ensures r == Loading <==>
              nameEntered && IsTruthy(category) && !quizFinished && questionCount == 0
  {
    if !nameEntered then NameEntry
    else if !IsTruthy(category) then CategorySelect
    else if quizFinished then Finished
    else if questionCount > 0 then QuestionScreen
    else Loading
  }

  /** The extra style class of an answer button. */
  datatype Mark = Unmarked | Success | Danger

  datatype AnswerButton = AnswerButton(mark: Mark, disabled: bool)

  /** The mark of the answer at position `index`, given the position of the
      selected answer, if any. Once an answer is selected, every correct
      answer is marked success and the selected one, when wrong, danger. */
  function MarkAnswer(answer: Answer, index: nat, correct: Answer, selected: Option<nat>): (r: Mark)
    ensures selected.None? ==> r == Unmarked
    ensures r == Success <==> selected.Some? && answer == correct
    ensures r == Danger <==> selected == Some(index) && answer != correct
  {
    CorrectIffEqual(answer, correct);
    if selected.None? then Unmarked
    else if IsCorrect(answer, correct) then Success
    else if selected.value == index then Danger
    else Unmarked
  }

  /** The buttons of a question, one per answer in display order; all of them
      are disabled once an answer is selected. */
  function AnswerButtons(q: Question, selected: Option<nat>): (r: seq<AnswerButton>)
    ensures |r| == |q.answers|
    ensures forall i :: 0 <= i < |r| ==> (r[i].disabled <==> selected.Some?)
    ensures selected.None? ==> forall i :: 0 <= i < |r| ==> r[i].mark == Unmarked
    ensures forall i :: 0 <= i < |r| ==>
              (r[i].mark == Success <==> selected.Some? && q.answers[i] == q.correctAnswer)
    ensures forall i :: 0 <= i < |r| ==>
              (r[i].mark == Danger <==> selected == Some(i) && q.answers[i] != q.correctAnswer)
  {
    seq(|q.answers|, i requires 0 <= i < |q.answers| =>
      AnswerButton(MarkAnswer(q.answers[i], i, q.correctAnswer, selected), selected.Some?))
  }

  /** At most one button is marked danger, and when the correct answer is among
      the answers and one has been selected, some button is marked success. */
  lemma MarksAfterSelection(q: Question, selected: Option<nat>)
    ensures forall i, j :: 0 <= i < j < |AnswerButtons(q, selected)| ==>
              AnswerButtons(q, selected)[i].mark != Danger || AnswerButtons(q, selected)[j].mark != Danger
    ensures selected.Some? && q.correctAnswer in q.answers ==>
              exists i :: 0 <= i < |q.answers| && AnswerButtons(q, selected)[i].mark == Success
  {
    if selected.Some? && q.correctAnswer in q.answers {
      var k :| 0 <= k < |q.answers| && q.answers[k] == q.correctAnswer;
      assert AnswerButtons(q, selected)[k].mark == Success;
    }
  }
}
