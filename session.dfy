/**
 * The wiring between the components: each question's card hands its answer
 * to the engine's `handleAnswer` (src/components/QuizEngine.tsx lines
 * 229-235), and the engine's `onComplete` is the shell's
 * `handleQuizComplete` (src/App.tsx line 58).  Whole sessions are driven
 * here, every timer fired in order.
 */
module Session {
  import opened Wrappers
  import opened QuizData
  import Shuffle
  import QuestionCard
  import QuizEngine
  import App
  import ResultScreen

  predicate ValidBankDraws(bank: seq<Question>, draws: seq<seq<real>>) {
    |draws| == |bank| &&
    forall k :: 0 <= k < |bank| ==> Shuffle.ValidDraws(draws[k], |bank[k].options|)
  }

  /** The option texts shown for the current question; a click picks one of them. */
  function CurrentOptions(engine: QuizEngine.QuizEngine): seq<string>
    reads engine
    requires engine.Valid() && engine.Answering()
  {
    QuestionCard.DisplayedOptions(engine.questions[engine.currentQuestionIndex])
  }

  /** The shuffled question shows as many options as the bank's question. */
  lemma ShownOptions(q: Question, draws: seq<real>)
    requires Shuffle.ValidDraws(draws, |q.options|)
    ensures |QuestionCard.DisplayedOptions(Shuffle.Shuffled(q, draws))| == |q.options|
    ensures 0 <= q.correctAnswer < |q.options| ==>
      0 <= QuestionCard.CorrectIndex(Shuffle.Shuffled(q, draws)) < |q.options|
  {
    Shuffle.ShuffledIsPermutation(q, draws);
    Shuffle.ShuffledCorrectAnswerText(q, draws);
  }

  /** A click on a displayed option other than the correct one. */
  function WrongChoice(q: Question): (r: int)
    requires |QuestionCard.DisplayedOptions(q)| >= 2
    ensures 0 <= r < |QuestionCard.DisplayedOptions(q)| && r != QuestionCard.CorrectIndex(q)
  {
    if QuestionCard.CorrectIndex(q) == 0 then 1 else 0
  }

  /**
   * The player clicks `choice` on a fresh card for the current question;
   * the card's answer reaches the engine.  Returns whether it was judged
   * correct.
   */
  method Answer(engine: QuizEngine.QuizEngine, choice: int) returns (isCorrect: bool)
    requires engine.Valid() && engine.Answering()
    requires 0 <= choice < |CurrentOptions(engine)|
    modifies engine
    ensures engine.Valid() && engine.answered
    ensures engine.currentQuestionIndex == old(engine.currentQuestionIndex)
    ensures isCorrect == (choice == QuestionCard.CorrectIndex(engine.questions[engine.currentQuestionIndex]))
    ensures engine.score == old(engine.score) + (if isCorrect then 1 else 0)
    ensures engine.wrongAnswerCount == old(engine.wrongAnswerCount) + (if isCorrect then 0 else 1)
    ensures engine.reported == old(engine.reported)
    ensures engine.lives == if isCorrect then old(engine.lives) else QuizEngine.Max(0, old(engine.lives) - 1)
    ensures var r := QuizEngine.AnswerReaction(isCorrect, engine.questions[engine.currentQuestionIndex].celebrationSticker,
                                               engine.wrongAnswerCount, engine.lives);
      engine.emotion == r.emotion && engine.customSticker == r.sticker
    ensures engine.showLastChance <==> !isCorrect && engine.lives == 1
    ensures engine.showLastChance ==> engine.pending == [QuizEngine.AfterLastChance(engine.score)]
    ensures !engine.showLastChance ==>
      engine.pending == (if engine.isCompleting then [QuizEngine.ReportComplete(engine.score, |engine.questions|)] else []) +
                        [QuizEngine.AfterFeedback(engine.score, engine.lives)]
  {
    var card := new QuestionCard.Card(engine.questions[engine.currentQuestionIndex]);
    var sent := card.HandleAnswerSelect(choice);
    isCorrect := sent.value.isCorrect;
    engine.HandleAnswer(sent.value.selectedAnswer, isCorrect);
  }

  /**
   * On a freshly built engine, the player clicks the correct option of every
   * question and every timer fires: one completion with a full score is
   * reported, and no timer is left to report again.
   */
  method AnswerEveryQuestionCorrectly(engine: QuizEngine.QuizEngine, bank: seq<Question>, draws: seq<seq<real>>)
    requires ValidBankDraws(bank, draws) && |bank| > 0
    requires forall k :: 0 <= k < |bank| ==> 0 <= bank[k].correctAnswer < |bank[k].options|
    requires |engine.questions| == |bank|
    requires forall k :: 0 <= k < |bank| ==> engine.questions[k] == Shuffle.Shuffled(bank[k], draws[k])
    requires engine.Valid() && engine.Answering() && engine.reported == []
    requires engine.currentQuestionIndex == engine.score == engine.wrongAnswerCount == 0
    modifies engine
    ensures engine.reported == [(|bank|, |bank|)]
    ensures engine.pending == []
  {
    var k := 0;
    while k < |bank| - 1
      invariant 0 <= k <= |bank| - 1
      invariant engine.Valid() && engine.Answering() && engine.reported == []
      invariant engine.currentQuestionIndex == k && engine.score == k && engine.wrongAnswerCount == 0
    {
      ShownOptions(bank[k], draws[k]);
      var _ := Answer(engine, QuestionCard.CorrectIndex(engine.questions[k]));
      engine.FireNext();
      k := k + 1;
    }
    ShownOptions(bank[k], draws[k]);
    var _ := Answer(engine, QuestionCard.CorrectIndex(engine.questions[k]));
    engine.FireNext();
    engine.FireNext();
  }

  /**
   * Every question answered correctly: the quiz reports one completion with
   * a full score and leaves no timer scheduled, and the shell shows 100 per
   * cent with the victory message once the bank holds at least ten questions.
   */
  method AllCorrect(bank: seq<Question>, draws: seq<seq<real>>)
    returns (reported: seq<(int, int)>, left: seq<QuizEngine.Callback>, screen: seq<App.Screen>)
    requires ValidBankDraws(bank, draws) && |bank| > 0
    requires forall k :: 0 <= k < |bank| ==> 0 <= bank[k].correctAnswer < |bank[k].options|
    ensures reported == [(|bank|, |bank|)] && left == []
    ensures screen == [App.ResultScreen(|bank|, |bank|)]
    ensures ResultScreen.Percentage(|bank|, |bank|) == Some(100)
    ensures ResultScreen.GetResultMessage(|bank|).emotion.Victory? <==> |bank| >= 10
  {
    var app := new App.App();
    app.HandleStartQuiz();
    var engine := new QuizEngine.QuizEngine(bank, draws);
    AnswerEveryQuestionCorrectly(engine, bank, draws);
    reported, left := engine.reported, engine.pending;
    app.HandleQuizComplete(reported[0].0, reported[0].1);
    screen := app.Rendered();
    ResultScreen.PercentageInRange(|bank|, |bank|);
  }

  /** A wrong answer on the first question, then its feedback timer. */
  method WrongThenNext(engine: QuizEngine.QuizEngine) returns (lastChance: bool)
    requires engine.Valid() && engine.Answering() && |engine.questions| >= 3
    requires engine.currentQuestionIndex == engine.wrongAnswerCount <= 1 && engine.score == 0
    requires |CurrentOptions(engine)| >= 2
    modifies engine
    ensures engine.Valid() && engine.Answering()
    ensures engine.currentQuestionIndex == engine.wrongAnswerCount == old(engine.wrongAnswerCount) + 1
    ensures engine.score == 0
    ensures lastChance <==> engine.wrongAnswerCount == 2
  {
    var _ := Answer(engine, WrongChoice(engine.questions[engine.currentQuestionIndex]));
    lastChance := engine.showLastChance;
    engine.FireNext();
  }

  /**
   * A wrong answer on the third question, after two wrong ones, empties the
   * lives: the watcher's report fires first, then the feedback timer finds
   * no lives and schedules a second report.
   */
  method WrongWithNoLivesLeft(engine: QuizEngine.QuizEngine)
    requires engine.Valid() && engine.Answering() && |engine.questions| >= 3
    requires engine.currentQuestionIndex == engine.wrongAnswerCount == 2 && engine.score == 0
    requires engine.reported == []
    requires |CurrentOptions(engine)| >= 2
    modifies engine
    ensures engine.reported == [(0, |engine.questions|), (0, |engine.questions|)]
    ensures engine.pending == [] && engine.lives == 0
  {
    var n := |engine.questions|;
    var _ := Answer(engine, WrongChoice(engine.questions[2]));
    assert engine.lives == 0 && engine.isCompleting;
    assert engine.pending == [QuizEngine.ReportComplete(0, n), QuizEngine.AfterFeedback(0, 0)];
    engine.FireNext();
    assert engine.reported == [(0, n)];
    engine.FireNext();
    assert engine.pending == [QuizEngine.ReportComplete(0, n)];
    engine.FireNext();
  }

  /**
   * The first three answers wrong on a bank of at least three questions:
   * the second takes the last-chance branch, the third empties the lives,
   * and both the watcher and the advance branch report completion, so the
   * shell receives the same result twice.
   */
  method ThreeWrong(bank: seq<Question>, draws: seq<seq<real>>)
    returns (reported: seq<(int, int)>, lastChanceSeen: bool, screen: seq<App.Screen>)
    requires ValidBankDraws(bank, draws) && |bank| >= 3
    requires forall k :: 0 <= k < 3 ==> |bank[k].options| >= 2
    ensures lastChanceSeen
    ensures reported == [(0, |bank|), (0, |bank|)]
    ensures screen == [App.ResultScreen(0, |bank|)]
  {
    var app := new App.App();
    app.HandleStartQuiz();
    var engine := new QuizEngine.QuizEngine(bank, draws);
    ShownOptions(bank[0], draws[0]);
    var _ := WrongThenNext(engine);
    ShownOptions(bank[1], draws[1]);
    lastChanceSeen := WrongThenNext(engine);
    ShownOptions(bank[2], draws[2]);
    WrongWithNoLivesLeft(engine);
    reported := engine.reported;
    app.HandleQuizComplete(reported[0].0, reported[0].1);
    app.HandleQuizComplete(reported[1].0, reported[1].1);
    screen := app.Rendered();
  }
}
