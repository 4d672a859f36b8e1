/** The values the quiz client works with: questions and answers as the
    backend serves them, leaderboard rows, and the checks made on them. */
module QuizData {

  datatype Option<T> = None | Some(value: T)

  /** One answer of the geography/population domain. */
  datatype Answer = Answer(name: string, country: string, population: int)

  /** A question as served by `GET /questions/{category}`: the prompt, the
      answers in display order and the designated correct answer. */
  datatype Question = Question(question: string, answers: seq<Answer>, correctAnswer: Answer)

  /** A leaderboard row; the statistics posted at the end of a quiz have the
      same three fields. */
  datatype ScoreEntry = ScoreEntry(name: string, points: int, timeInSeconds: int)

  /** The categories offered on the category screen. */
  const Categories: seq<string> := ["population", "geography"]

  /** JavaScript truthiness of the `selectedCategory` state: `null` and the
      empty string are falsy. */
  predicate IsTruthy(category: Option<string>) {
    category.Some? && category.value != ""
  }

  /** The correctness test of the answer handler and of the answer buttons:
      all three fields must match those of the correct answer. */
  predicate IsCorrect(answer: Answer, correct: Answer) {
    answer.name == correct.name && answer.country == correct.country &&
    answer.population == correct.population
  }

  /** Field-by-field comparison is structural equality: an answer that differs
      from the correct one in any single field is wrong. */
  lemma CorrectIffEqual(answer: Answer, correct: Answer)
    ensures IsCorrect(answer, correct) <==> answer == correct
    ensures answer.name != correct.name ==> !IsCorrect(answer, correct)
    ensures answer.country != correct.country ==> !IsCorrect(answer, correct)
    ensures answer.population != correct.population ==> !IsCorrect(answer, correct)
  {
  }

  /** `data.slice(0, 3)`: the first three rows of the leaderboard, in order,
      or all of them when there are fewer. */
  function TopThree(data: seq<ScoreEntry>): (r: seq<ScoreEntry>)
    ensures |r| <= 3
    ensures |data| <= 3 ==> r == data
    ensures |data| > 3 ==> |r| == 3
    ensures forall i :: 0 <= i < |r| ==> r[i] == data[i]
  {
    if |data| <= 3 then data else data[..3]
  }
}
