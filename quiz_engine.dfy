/**
 * The quiz state machine of src/components/QuizEngine.tsx: the state of the
 * component, `handleAnswer` with its last-chance and advance-or-complete
 * branches, the question-change effect and the lives-exhausted watcher.
 *
 * The feedback, last-chance and completion timers become callbacks in
 * `pending`, kept in the order they fire; `FireNext` runs the first one.
 * The 500 ms shake timer only drives an animation and is not modelled.  `onComplete` calls are
 * recorded in `reported`, in order.
 */
module QuizEngine {
  import opened Wrappers
  import opened QuizData
  import opened Sticker
  import Shuffle
  import QuestionCard

  const StartLives: int := 3

  function Max(a: int, b: int): int {
    if a < b then b else a
  }

  /** The lives left after `wrong` wrong answers: one per wrong answer, never below 0. */
  function LivesAfter(wrong: int): int {
    Max(0, StartLives - wrong)
  }

  /**
   * The card draws its hearts from the engine's lives (line 234), and those
   * follow the wrong count: exactly `lives` hearts are alive.
   */
  lemma HeartsShowLives(wrong: nat)
    ensures 0 <= LivesAfter(wrong) <= StartLives
    ensures multiset(QuestionCard.Hearts(LivesAfter(wrong)))[true] == LivesAfter(wrong)
  {
    QuestionCard.AliveHearts(LivesAfter(wrong));
  }

  /** The sticker the question-change effect shows for a question. */
  function PoseSticker(q: Question): string {
    OrDefault(q.questionPose, DefaultSticker)
  }

  /**
   * The card's sticker is drawn from the raw `questionPose` while the emotion
   * is 'question' (QuizEngine.tsx line 213), not from `customSticker`; both
   * give the same picture.
   */
  lemma PoseStickerAgrees(q: Question)
    ensures StickerPath(Questioning.Tag(), q.questionPose) ==
            StickerPath(Questioning.Tag(), Some(PoseSticker(q)))
  {
    if q.questionPose.None? || q.questionPose.value == "" {
      assert !IsPoseName(DefaultSticker) by {
        assert !IsAsciiDigit(DefaultSticker[0]);
      }
    }
  }

  const CelebratingExcited: string := "celebrating-excited.png"
  const WorriedExpression: string := "worried-expression.png"
  const PuppyEyes: string := "puppy-eyes.png"
  const AngryCrying: string := "angry-crying.png"
  const WorriedSad: string := "worried-sad.png"

  /** The mascot reaction `handleAnswer` leaves after an answer. */
  datatype Reaction = Reaction(emotion: Emotion, sticker: string, lastChance: bool)

  /**
   * The emotion and sticker `handleAnswer` sets, given the question's
   * celebration sticker and the wrong count and lives after the answer.  The
   * last-chance assignments come after the wrong-count ones and win.
   */
  function AnswerReaction(isCorrect: bool, celebration: Option<string>,
                          newWrongCount: int, newLives: int): Reaction
  {
    if isCorrect then
      Reaction(Celebration, OrDefault(celebration, CelebratingExcited), false)
    else
      var byCount :=
        if newWrongCount == 1 then Reaction(Wrong1, WorriedExpression, false)
        else if newWrongCount == 2 then Reaction(Wrong2, PuppyEyes, false)
        else Reaction(Wrong3, AngryCrying, false);
      if newLives == 1 then Reaction(LastChance, WorriedSad, true) else byCount
  }

  /**
   * Because lives follow the wrong count, the second wrong answer is always
   * the one that leaves one life: the last-chance reaction replaces the
   * 'wrong2' one, whose sticker never shows.  The last chance comes exactly
   * on the second wrong answer.
   */
  lemma SecondWrongIsLastChance(newWrongCount: int, celebration: Option<string>)
    requires newWrongCount >= 1
    ensures var r := AnswerReaction(false, celebration, newWrongCount, LivesAfter(newWrongCount));
      r.emotion != Wrong2 &&
      (r.lastChance <==> newWrongCount == 2) &&
      (r.emotion == Wrong1 <==> newWrongCount == 1) &&
      (r.emotion == Wrong3 <==> newWrongCount >= 3)
  {
  }

  /**
   * Every sticker set on a wrong answer, and the default celebration
   * sticker, is the picture the emotion table gives the emotion set with it.
   */
  lemma ReactionStickerMatchesEmotion(isCorrect: bool, newWrongCount: int, newLives: int)
    ensures var r := AnswerReaction(isCorrect, None, newWrongCount, newLives);
      StickerPath(r.emotion.Tag(), Some(r.sticker)) == EmotionPath(r.emotion.Tag())
  {
    var r := AnswerReaction(isCorrect, None, newWrongCount, newLives);
    NonDigitIsNotPose(r.sticker);
    if isCorrect {
      assert EmotionPath("celebration") == ChibiFolder + "celebrating-excited.png";
    } else if newLives == 1 {
      assert EmotionPath("lastChance") == ChibiFolder + "worried-sad.png";
    } else if newWrongCount == 1 {
      assert EmotionPath("wrong1") == ChibiFolder + "worried-expression.png";
    } else if newWrongCount == 2 {
      assert EmotionPath("wrong2") == ChibiFolder + "puppy-eyes.png";
    } else {
      assert EmotionPath("wrong3") == ChibiFolder + "angry-crying.png";
    }
  }

  /** A scheduled timer callback. */
  datatype Callback =
    | AfterLastChance(newScore: int)                // the 3000 ms last-chance timer
    | AfterFeedback(newScore: int, newLives: int)   // the 2500 ms advance-or-complete timer
    | ReportComplete(score: int, total: int)        // the 100 ms and 1000 ms `onComplete` timers

  class QuizEngine {
    const questions: seq<Question>
    var currentQuestionIndex: int
    var score: int
    var lives: int
    var emotion: Emotion
    var customSticker: string
    var wrongAnswerCount: int
    var showLastChance: bool
    var isCompleting: bool
    var pending: seq<Callback>
    var reported: seq<(int, int)>
    /** The current question's card has accepted its answer. */
    ghost var answered: bool
    /** How many times the last-chance branch has been taken. */
    ghost var lastChances: nat

    /** Waiting for the answer to the current question. */
    ghost predicate Answering()
      reads this
    {
      |questions| > 0 && !answered
    }

    /** The question-change effect has run: the current question's pose is shown. */
    predicate ShowsPose()
      reads this
    {
      emotion == Questioning && 0 <= currentQuestionIndex < |questions| &&
      customSticker == PoseSticker(questions[currentQuestionIndex])
    }

    ghost predicate Valid()
      reads this
    {
      // bookkeeping
      0 <= wrongAnswerCount && 0 <= score &&
      lives == LivesAfter(wrongAnswerCount) &&
      0 <= currentQuestionIndex &&
      (|questions| > 0 ==> currentQuestionIndex < |questions|) &&
      (|questions| == 0 ==> currentQuestionIndex == 0 && !answered) &&
      score + wrongAnswerCount == currentQuestionIndex + (if answered then 1 else 0) &&
      lastChances == (if wrongAnswerCount >= 2 then 1 else 0) &&
      emotion != Wrong2 &&
      // waiting for an answer: nothing scheduled
      (!answered ==> pending == [] && !isCompleting && !showLastChance && reported == []) &&
      // after an answer something is scheduled or the quiz is completing
      (answered ==> pending != [] || isCompleting) &&
      (lives == 0 ==> isCompleting) &&
      // the timers: the reachable queues, in firing order
      (showLastChance <==> pending == [AfterLastChance(score)]) &&
      (showLastChance ==> lives == 1 && !isCompleting) &&
      (pending == [] ||
       pending == [AfterLastChance(score)] ||
       (pending == [AfterFeedback(score, lives)] && (isCompleting ==> lives == 0)) ||
       (pending == [ReportComplete(score, |questions|), AfterFeedback(score, lives)] &&
        isCompleting && lives == 0) ||
       (pending == [ReportComplete(score, |questions|)] && isCompleting)) &&
      // completion is reported with the final score, at most twice
      (reported != [] ==> isCompleting) &&
      (reported == [] || reported == [(score, |questions|)] ||
       reported == [(score, |questions|), (score, |questions|)]) &&
      |reported| + |pending| <= 2
    }

    /** Mounting: shuffle every question, then show the first question's pose. */
    constructor (bank: seq<Question>, draws: seq<seq<real>>)
      requires |draws| == |bank|
      requires forall k :: 0 <= k < |bank| ==> Shuffle.ValidDraws(draws[k], |bank[k].options|)
      ensures Valid()
      ensures |questions| == |bank|
      ensures forall k :: 0 <= k < |bank| ==> questions[k] == Shuffle.Shuffled(bank[k], draws[k])
      ensures currentQuestionIndex == 0 && score == 0 && lives == 3 && wrongAnswerCount == 0
      ensures pending == [] && reported == [] && !showLastChance && !isCompleting
      ensures |bank| > 0 ==> emotion == Questioning && customSticker == PoseSticker(questions[0])
      ensures |bank| == 0 ==> emotion == Neutral && customSticker == ""
    {
      var shuffled: seq<Question> := [];
      var k := 0;
      while k < |bank|
        invariant 0 <= k <= |bank| && |shuffled| == k
        invariant forall i :: 0 <= i < k ==> shuffled[i] == Shuffle.Shuffled(bank[i], draws[i])
      {
        var sq := Shuffle.ShuffleQuestion(bank[k], draws[k]);
        shuffled := shuffled + [sq];
        k := k + 1;
      }
      questions := shuffled;
      currentQuestionIndex := 0;
      score := 0;
      lives := StartLives;
      wrongAnswerCount := 0;
      showLastChance := false;
      isCompleting := false;
      pending := [];
      reported := [];
      answered := false;
      lastChances := 0;
      if |shuffled| > 0 {
        emotion := Questioning;
        customSticker := PoseSticker(shuffled[0]);
      } else {
        emotion := Neutral;
        customSticker := "";
      }
    }

    /**
     * `handleAnswer`, called by the current question's card, followed by the
     * lives watcher the new state triggers.
     */
    method HandleAnswer(selectedAnswer: int, isCorrect: bool)
      requires Valid() && Answering()
      modifies this
      ensures Valid() && answered
      ensures currentQuestionIndex == old(currentQuestionIndex)
      ensures score == old(score) + (if isCorrect then 1 else 0)
      ensures wrongAnswerCount == old(wrongAnswerCount) + (if isCorrect then 0 else 1)
      ensures lives == if isCorrect then old(lives) else Max(0, old(lives) - 1)
      ensures var r := AnswerReaction(isCorrect, questions[currentQuestionIndex].celebrationSticker,
                                      wrongAnswerCount, lives);
        emotion == r.emotion && customSticker == r.sticker && showLastChance == r.lastChance
      ensures showLastChance ==>
        pending == [AfterLastChance(score)] && !isCompleting &&
        old(lastChances) == 0 && lastChances == 1
      ensures !showLastChance ==>
        lastChances == old(lastChances) &&
        isCompleting == (lives <= 0 && currentQuestionIndex > 0) &&
        pending == (if isCompleting then [ReportComplete(score, |questions|)] else []) +
                   [AfterFeedback(score, lives)]
      ensures reported == old(reported)
    {
      var question := questions[currentQuestionIndex];
      var newScore := if isCorrect then score + 1 else score;
      var newLives := if isCorrect then lives else Max(0, lives - 1);
      answered := true;

      if isCorrect {
        score := newScore;
        ShowCelebration(question);
      } else {
        lives := newLives;
        var newWrongCount := wrongAnswerCount + 1;
        wrongAnswerCount := newWrongCount;
        ShowWrongReaction(newWrongCount);
        if newLives == 1 {
          ShowLastChance(newScore);
          return;
        }
      }

      ScheduleFeedback(newScore, newLives);
    }

    /** The celebration reaction: the question's own sticker, or the default one. */
    method ShowCelebration(question: Question)
      modifies this`emotion, this`customSticker
      ensures emotion == Celebration
      ensures customSticker == OrDefault(question.celebrationSticker, CelebratingExcited)
    {
      emotion := Celebration;
      customSticker := OrDefault(question.celebrationSticker, CelebratingExcited);
    }

    /**
     * The last-chance reaction, set after the wrong-count one so that it
     * wins, its banner, and its 3000 ms timer.
     */
    method ShowLastChance(newScore: int)
      modifies this`emotion, this`customSticker, this`showLastChance, this`lastChances, this`pending
      ensures emotion == LastChance && customSticker == WorriedSad && showLastChance
      ensures lastChances == old(lastChances) + 1 && pending == [AfterLastChance(newScore)]
    {
      emotion := LastChance;
      customSticker := WorriedSad;
      showLastChance := true;
      lastChances := lastChances + 1;
      pending := [AfterLastChance(newScore)];
    }

    /** The emotion and sticker for the wrong answer with number `newWrongCount`. */
    method ShowWrongReaction(newWrongCount: int)
      modifies this`emotion, this`customSticker
      ensures emotion == (if newWrongCount == 1 then Wrong1 else if newWrongCount == 2 then Wrong2 else Wrong3)
      ensures customSticker ==
        (if newWrongCount == 1 then WorriedExpression else if newWrongCount == 2 then PuppyEyes else AngryCrying)
    {
      if newWrongCount == 1 {
        emotion := Wrong1;
        customSticker := WorriedExpression;
      } else if newWrongCount == 2 {
        emotion := Wrong2;
        customSticker := PuppyEyes;
      } else {
        emotion := Wrong3;
        customSticker := AngryCrying;
      }
    }

    /**
     * The 2500 ms advance-or-complete timer, then the lives watcher: lives at
     * 0 past the first question complete the quiz 1000 ms later, before the
     * 2500 ms timer fires.
     */
    method ScheduleFeedback(newScore: int, newLives: int)
      requires lives == newLives && !isCompleting
      modifies this`pending, this`isCompleting
      ensures isCompleting == (newLives <= 0 && currentQuestionIndex > 0)
      ensures pending == (if isCompleting then [ReportComplete(score, |questions|)] else []) +
                         [AfterFeedback(newScore, newLives)]
      ensures |pending| >= 1 && pending[|pending| - 1] == AfterFeedback(newScore, newLives)
    {
      pending := [AfterFeedback(newScore, newLives)];
      if lives <= 0 && currentQuestionIndex > 0 {
        isCompleting := true;
        pending := [ReportComplete(score, |questions|)] + pending;
      }
    }

    /** The first pending timer fires. */
    method FireNext()
      requires Valid() && pending != []
      modifies this
      ensures Valid()
      ensures score == old(score) && lives == old(lives) && wrongAnswerCount == old(wrongAnswerCount)
      ensures lastChances == old(lastChances)
      ensures old(pending[0]).ReportComplete? ==>
        reported == old(reported) + [(old(pending[0]).score, old(pending[0]).total)] &&
        pending == old(pending[1..]) &&
        currentQuestionIndex == old(currentQuestionIndex) && isCompleting == old(isCompleting)
      ensures !old(pending[0]).ReportComplete? ==> reported == old(reported)
      ensures currentQuestionIndex == old(currentQuestionIndex) ==>
        emotion == old(emotion) && customSticker == old(customSticker) && answered == old(answered)
      ensures old(pending[0]).AfterFeedback? ==>
        var advance := old(currentQuestionIndex) < |questions| - 1 && old(pending[0]).newLives > 0;
        (advance ==> currentQuestionIndex == old(currentQuestionIndex) + 1 && Answering() &&
                     pending == [] && !isCompleting && ShowsPose()) &&
        (!advance ==> currentQuestionIndex == old(currentQuestionIndex) && isCompleting &&
                      pending == [ReportComplete(old(pending[0]).newScore, |questions|)])
      ensures old(pending[0]).AfterLastChance? ==>
        var advance := old(currentQuestionIndex) < |questions| - 1;
        !showLastChance &&
        (advance ==> currentQuestionIndex == old(currentQuestionIndex) + 1 && Answering() &&
                     pending == [] && !isCompleting && ShowsPose()) &&
        (!advance ==> currentQuestionIndex == old(currentQuestionIndex) && isCompleting &&
                      pending == [ReportComplete(old(pending[0]).newScore, |questions|)])
    {
      var callback := pending[0];
      pending := pending[1..];
      match callback
      case ReportComplete(s, t) =>
        reported := reported + [(s, t)];
      case AfterFeedback(newScore, newLives) =>
        if currentQuestionIndex < |questions| - 1 && newLives > 0 {
          NextQuestion();
        } else {
          isCompleting := true;
          pending := pending + [ReportComplete(newScore, |questions|)];
        }
      case AfterLastChance(newScore) =>
        var wasLast := currentQuestionIndex >= |questions| - 1;
        if !wasLast {
          NextQuestion();
        } else {
          isCompleting := true;
        }
        showLastChance := false;
        if wasLast {
          pending := pending + [ReportComplete(newScore, |questions|)];
        }
    }

    /**
     * Moving to the next question, followed by the question-change effect
     * that shows its pose.
     */
    method NextQuestion()
      requires 0 <= currentQuestionIndex < |questions| - 1
      modifies this`currentQuestionIndex, this`answered, this`emotion, this`customSticker
      ensures currentQuestionIndex == old(currentQuestionIndex) + 1 && !answered && ShowsPose()
    {
      currentQuestionIndex := currentQuestionIndex + 1;
      answered := false;
      emotion := Questioning;
      customSticker := PoseSticker(questions[currentQuestionIndex]);
    }

    /** The sticker image the quiz screen shows (QuizEngine.tsx lines 211-214). */
    function DisplayedSticker(): (r: string)
      reads this
      ensures "/img/" <= r
    {
      if emotion == Questioning && 0 <= currentQuestionIndex < |questions| then
        StickerPath(emotion.Tag(), questions[currentQuestionIndex].questionPose)
      else
        StickerPath(emotion.Tag(), Some(customSticker))
    }
  }
}
