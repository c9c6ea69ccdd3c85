/**
 * The top-level shell of src/App.tsx: which screen is shown, the last
 * reported result and the confetti switch, overwritten by the three
 * handlers.  The 3000 ms confetti timer is an explicit step.
 */
module App {

  datatype GameState = Intro | Quiz | Result

  datatype GameResult = GameResult(score: int, totalQuestions: int)

  /** The screens the page can render. */
  datatype Screen = IntroScreen | QuizScreen | ResultScreen(score: int, totalQuestions: int)

  /** The three conditional renders inside `AnimatePresence`, in page order. */
  function RenderedScreens(state: GameState, result: GameResult): seq<Screen> {
    (if state == Intro then [IntroScreen] else []) +
    (if state == Quiz then [QuizScreen] else []) +
    (if state == Result then [ResultScreen(result.score, result.totalQuestions)] else [])
  }

  /** Exactly one screen is rendered, the one the game state names. */
  lemma ExactlyOneScreen(state: GameState, result: GameResult)
    ensures |RenderedScreens(state, result)| == 1
    ensures RenderedScreens(state, result)[0] ==
      match state
      case Intro => IntroScreen
      case Quiz => QuizScreen
      case Result => ResultScreen(result.score, result.totalQuestions)
  {
  }

  class App {
    var gameState: GameState
    var gameResult: GameResult
    var showConfetti: bool
    /** Confetti timers started by `handleQuizComplete` that have not fired yet. */
    var confettiTimers: nat

    constructor ()
      ensures gameState == Intro && gameResult == GameResult(0, 0)
      ensures !showConfetti && confettiTimers == 0
    {
      gameState := Intro;
      gameResult := GameResult(0, 0);
      showConfetti := false;
      confettiTimers := 0;
    }

    /** `handleStartQuiz`: whatever the screen, switch to the quiz. */
    method HandleStartQuiz()
      modifies this
      ensures gameState == Quiz
      ensures gameResult == old(gameResult) && showConfetti == old(showConfetti)
      ensures confettiTimers == old(confettiTimers)
    {
      gameState := Quiz;
    }

    /** `handleQuizComplete`: store the result, show it, start the confetti. */
    method HandleQuizComplete(score: int, totalQuestions: int)
      modifies this
      ensures gameResult == GameResult(score, totalQuestions)
      ensures gameState == Result && showConfetti
      ensures confettiTimers == old(confettiTimers) + 1
    {
      gameResult := GameResult(score, totalQuestions);
      gameState := Result;
      showConfetti := true;
      confettiTimers := confettiTimers + 1;
    }

    /** One confetti timer fires, 3000 ms after its completion: confetti off. */
    method ConfettiTimeout()
      requires confettiTimers > 0
      modifies this
      ensures !showConfetti && confettiTimers == old(confettiTimers) - 1
      ensures gameState == old(gameState) && gameResult == old(gameResult)
    {
      showConfetti := false;
      confettiTimers := confettiTimers - 1;
    }

    /** `handleRestart`: back to the intro with a cleared result, whatever the state. */
    method HandleRestart()
      modifies this
      ensures gameState == Intro && gameResult == GameResult(0, 0) && !showConfetti
      ensures confettiTimers == old(confettiTimers)
    {
      gameResult := GameResult(0, 0);
      gameState := Intro;
      showConfetti := false;
    }

    /** What the page renders now. */
    function Rendered(): (r: seq<Screen>)
      reads this
      ensures |r| == 1
    {
      ExactlyOneScreen(gameState, gameResult);
      RenderedScreens(gameState, gameResult)
    }
  }
}
