/**
 * The question record of the quiz (`Question` and `ShuffledQuestion` in
 * src/components/QuizEngine.tsx, the optional-shuffle view in
 * src/components/QuestionCard.tsx).  A question whose answers have not been
 * shuffled has `shuffledOptions == None` and `shuffledCorrectAnswer == None`.
 */
module QuizData {
  import opened Wrappers

  datatype Question = Question(
    id: int,
    question: string,
    options: seq<string>,
    correctAnswer: int,
    explanation: string,
    celebrationSticker: Option<string>,
    questionPose: Option<string>,
    shuffledOptions: Option<seq<string>>,
    shuffledCorrectAnswer: Option<int>)

  /**
   * TypeScript's `s || fallback` on an optional string: both `undefined` and
   * the empty string are falsy, so either gives the fallback.
   */
  function OrDefault(s: Option<string>, fallback: string): (r: string)
    ensures s.Some? && s.value != "" ==> r == s.value
    ensures s.None? || s.value == "" ==> r == fallback
  {
    if s.Some? && s.value != "" then s.value else fallback
  }
}
