# Chibi birthday quiz — a verified model of the quiz logic

This project models the logic of a single-session birthday trivia quiz
(intro → quiz → result) in Dafny and proves properties of it:

- the answer shuffler: a Fisher–Yates pass over a copy of the options, then a
  lookup that relocates the correct answer by its text;
- the quiz engine: score, lives, wrong-answer count, the mascot's emotion and
  sticker, the last-chance warning, advancing or completing, and the watcher
  that completes the quiz when the lives run out;
- the answer card: the single-selection guard, the correctness judgement, the
  four option styles, the displayed option text with parenthesised notes
  removed, and the hearts row;
- the result screen: the rounded percentage and the two outcomes around the
  pass mark of 10;
- the sticker resolver: custom override, numbered pose files, the emotion
  table and its default, and the decorations;
- the shell: which of the three screens is shown, the stored result and the
  confetti switch.

Randomness and timers are explicit. `Math.random()` is a sequence of draws
in [0, 1). The engine's own timers (the feedback, last-chance and completion
callbacks) are queued in its `pending` field, kept in firing order, and
`FireNext` runs the first one. The shell's confetti stop timer is a counter,
`App.confettiTimers`, that `ConfettiTimeout` takes down. The mascot's 500 ms
shake and the card's 1500 ms delay are not modelled (see "Left out"). Calls
of `onComplete` are recorded in `reported`. The question bank is a parameter.

Files, one module each: `wrappers.dfy` (optional values), `quiz_data.dfy`
(the question record), `shuffle.dfy`, `quiz_engine.dfy`,
`question_card.dfy`, `result_screen.dfy`, `sticker.dfy`, `app.dfy`, and
`session.dfy`, which wires card, engine and shell together and drives
whole sessions.

Behaviour worth knowing, proved here:

- The relocated correct index is the first slot holding the correct text.
  With distinct option texts it is the true new position. With repeated
  texts it can be another slot holding the same text
  (`Shuffle.DuplicateOptionsLoseTruePosition`).
- Lives always equal `max(0, 3 - wrongAnswerCount)`. So the second wrong
  answer is exactly the one that leaves one life. The last-chance reaction
  then replaces the `wrong2` reaction, and the `puppy-eyes.png` sticker is
  never shown.
- When the third wrong answer empties the lives after the first question,
  the lives watcher and the advance-or-complete timer both call
  `onComplete`. The shell receives the same result twice
  (`Session.ThreeWrong`).

The model follows what the code does, including where one might expect otherwise:

- completion can be reported twice rather than once;
- the outcome depends on the score alone, not on a fraction of the total;
- an out-of-range correct index is not rejected: it relocates to -1, and no
  answer is then judged correct;
- restarting does not cancel timers that are still pending.

## Model

| member | source | states |
|---|---|---|
| Shuffle.PickInRange | src/components/QuizEngine.tsx:33-35 | each step swaps position `i` with a position `j` where `0 <= j <= i`, for any draw in [0, 1) |
| Shuffle.Pick | src/components/QuizEngine.tsx:34 | models `Math.floor(Math.random() * (i + 1))` on exact reals; `PickInRange` states that it lands in `0..i` |
| Shuffle.Swap | src/components/QuizEngine.tsx:35 | the swap exchanges the two positions and leaves every other position unchanged |
| Shuffle.SwapPermutes | src/components/QuizEngine.tsx:35 | one swap keeps the multiset of elements |
| Shuffle.Steps | src/components/QuizEngine.tsx:33-36 | models the loop from position `i` down to 1, one draw per step; `StepsPermutes` and `ShuffleInPlace` state its properties |
| Shuffle.FisherYates | src/components/QuizEngine.tsx:30-36 | models the whole loop over the copy of the options; `FisherYatesPermutes`, `ShuffledFromOrigins` and `ShuffleInPlace` state its properties |
| Shuffle.StepsPermutes | src/components/QuizEngine.tsx:33-36 | the loop from any position down to 1 keeps the length and the multiset of elements |
| Shuffle.FisherYatesPermutes | src/components/QuizEngine.tsx:30-36 | the whole shuffle yields a permutation of its input |
| Shuffle.ShuffledFromOrigins | src/components/QuizEngine.tsx:30-36 | the shuffled options are the originals read through the positions shuffled with the same draws; those positions are all in range |
| Shuffle.IndexOf | src/components/QuizEngine.tsx:39 | `indexOf` gives -1 exactly when the value is absent; otherwise the first position holding it |
| Shuffle.CorrectOption | src/components/QuizEngine.tsx:29 | models `question.options[question.correctAnswer]`, absent when the index is out of range; `ShuffledCorrectAnswerText` states how it is relocated |
| Shuffle.Shuffled | src/components/QuizEngine.tsx:41-45 | both shuffle fields are set, and every other field of the question is copied unchanged |
| Shuffle.ShuffledIsPermutation | src/components/QuizEngine.tsx:30-36 | the shuffled options have the same length and the same multiset as the options |
| Shuffle.ShuffledCorrectAnswerText | src/components/QuizEngine.tsx:29-39 | for an in-range correct index, the relocated index is in range and is the first slot holding the correct text; otherwise it is -1 |
| Shuffle.DistinctOptionsKeepTruePosition | src/components/QuizEngine.tsx:29-39 | with distinct option texts, the relocated index is where the shuffle actually moved the correct option |
| Shuffle.DuplicateOptionsLoseTruePosition | src/components/QuizEngine.tsx:29-39 | with two identical options and the second one correct, a draw that swaps nothing still gives relocated index 0 |
| Shuffle.ShuffleInPlace | src/components/QuizEngine.tsx:33-36 | the in-place swap loop over the array leaves it holding exactly `FisherYates` of its old contents with the same draws |
| Shuffle.ShuffleQuestion | src/components/QuizEngine.tsx:28-46 | the in-place array loop computes exactly `Shuffled`, the functional definition of the shuffled question |
| QuizEngine.PoseStickerAgrees | src/components/QuizEngine.tsx:211-214 | while the emotion is 'question', drawing from the raw pose and drawing from the stored sticker give the same picture |
| QuizEngine.PoseSticker | src/components/QuizEngine.tsx:64-69 | models the question's pose, or `talking-peace-sign.png` when it has none or an empty one; `PoseStickerAgrees` and `NextQuestion` state its properties |
| QuizEngine.LivesAfter | src/components/QuizEngine.tsx:81 | the lives after a number of wrong answers, one per wrong answer and never below 0; `HeartsShowLives` and the engine invariant `Valid` state its use |
| QuizEngine.AnswerReaction | src/components/QuizEngine.tsx:84-115 | models the emotion and sticker `handleAnswer` leaves, the last-chance assignments winning; `SecondWrongIsLastChance`, `ReactionStickerMatchesEmotion` and `HandleAnswer` state its properties |
| QuizEngine.SecondWrongIsLastChance | src/components/QuizEngine.tsx:89-115 | when lives follow the wrong count, the last chance comes exactly on the second wrong answer, 'wrong2' never remains, and 'wrong1'/'wrong3' go with counts 1 and 3 or more |
| QuizEngine.HeartsShowLives | src/components/QuizEngine.tsx:234 | the lives the engine passes to the card stay in 0..3, so the card shows exactly that many alive hearts |
| QuizEngine.ReactionStickerMatchesEmotion | src/components/QuizEngine.tsx:84-115 | every sticker set with a wrong-answer emotion, and the default celebration sticker, is the picture the emotion table gives that emotion |
| QuizEngine.QuizEngine.constructor | src/components/QuizEngine.tsx:48-69 | every question is shuffled once; the quiz starts at question 0 with score 0, 3 lives and nothing scheduled; the first question's pose is shown |
| QuizEngine.QuizEngine.Valid | src/components/QuizEngine.tsx:79-164 | the engine invariant: lives follow the wrong count, score plus wrong answers count the answered questions, the timer queue is one of the reachable shapes in firing order, and at most two reports; the constructor, `HandleAnswer` and `FireNext` preserve it |
| QuizEngine.QuizEngine.HandleAnswer | src/components/QuizEngine.tsx:79-164 | a correct answer adds 1 to the score; a wrong one takes a life (never below 0) and counts it. The emotion and sticker follow `AnswerReaction`. Leaving one life schedules the last-chance timer, at most once per session. Otherwise the feedback timer is scheduled, preceded by a completion report when the lives run out after the first question. The invariant (lives, score bookkeeping, reachable timer queues, at most two reports) is preserved |
| QuizEngine.QuizEngine.FireNext | src/components/QuizEngine.tsx:117-151 | a report appends `(score, total)`. The feedback timer advances only if a next question exists and lives remain; otherwise it completes and schedules a report with the new score. The last-chance timer hides the banner, then advances or completes with a report. On an advance the next question's pose is shown (`ShowsPose`); when the quiz does not advance, the emotion, the sticker and the card's answered flag are unchanged |
| QuizEngine.QuizEngine.ShowCelebration | src/components/QuizEngine.tsx:84-88 | a correct answer shows the celebration emotion with the question's own celebration sticker, or `celebrating-excited.png` when it has none |
| QuizEngine.QuizEngine.ShowWrongReaction | src/components/QuizEngine.tsx:94-104 | the first wrong answer shows 'wrong1' with `worried-expression.png`, the second 'wrong2' with `puppy-eyes.png`, any later one 'wrong3' with `angry-crying.png` |
| QuizEngine.QuizEngine.ShowLastChance | src/components/QuizEngine.tsx:109-136 | leaving one life shows 'lastChance' with `worried-sad.png` and the banner, and schedules only the last-chance timer |
| QuizEngine.QuizEngine.ScheduleFeedback | src/components/QuizEngine.tsx:140-164 | the feedback timer is scheduled last; before it, the lives watcher schedules a completion report exactly when no lives remain after the first question |
| QuizEngine.QuizEngine.NextQuestion | src/components/QuizEngine.tsx:63-69 | moving to the next question clears the answered card and shows that question's pose (the question-change effect) |
| QuizEngine.QuizEngine.DisplayedSticker | src/components/QuizEngine.tsx:211-214 | the mascot image on the quiz screen is always an `/img/` path |
| QuestionCard.CorrectnessByText | src/components/QuestionCard.tsx:41-42 | on a shuffled question, an answer judged correct shows the correct text; with distinct texts the converse holds too |
| QuestionCard.CorrectIndex | src/components/QuestionCard.tsx:41 | models `shuffledCorrectAnswer ?? correctAnswer`; `CorrectnessByText` and `HandleAnswerSelect` state its properties |
| QuestionCard.DisplayedOptions | src/components/QuestionCard.tsx:178 | models the shuffled options when present, else the original options; `CorrectnessByText` and `Session.ShownOptions` state its properties |
| QuestionCard.IsCorrect | src/components/QuestionCard.tsx:41-42 | models the judgement `answerIndex === correctAnswerIndex`; `CorrectnessByText` states its properties |
| QuestionCard.StyleOf | src/components/QuestionCard.tsx:52-95 | models the `getOptionStyle` if-chain as four styles; `UnansweredUniform` and `SelectedClassification` state its properties |
| QuestionCard.Styles | src/components/QuestionCard.tsx:178-201 | one style per displayed option, in display order |
| QuestionCard.UnansweredUniform | src/components/QuestionCard.tsx:55-65 | before any selection every displayed option has the unanswered style |
| QuestionCard.SelectedClassification | src/components/QuestionCard.tsx:67-94 | after a selection, exactly the correct index is 'correct'; the selected index is 'wrong' iff it is not the correct one; all others are neutral; counts of each follow |
| QuestionCard.AliveHearts | src/components/QuestionCard.tsx:142-146 | of the three hearts, `lives` clamped to 0..3 are alive, and the alive ones come first |
| QuestionCard.Hearts | src/components/QuestionCard.tsx:142-146 | models the three hearts, heart `i` alive when `i < lives`; `AliveHearts` and `QuizEngine.HeartsShowLives` state its properties |
| QuestionCard.Card.constructor | src/components/QuestionCard.tsx:32 | a fresh card has no selection |
| QuestionCard.Card.HandleAnswerSelect | src/components/QuestionCard.tsx:36-48 | only the first selection is accepted and sent as `(index, index == shuffledCorrectAnswer ?? correctAnswer)`; later ones change nothing and send nothing |
| QuestionCard.Card.OptionStyleAt | src/components/QuestionCard.tsx:52-95 | models `getOptionStyle(index)` for the card's current selection; `UnansweredUniform` and `SelectedClassification` state its properties |
| QuestionCard.IsJsSpace | src/components/QuestionCard.tsx:213 | models the characters of `\s` in a JavaScript regular expression |
| QuestionCard.LeadingSpaces | src/components/QuestionCard.tsx:213 | the greedy `\s*`: the count it returns covers only whitespace and stops before a non-space |
| QuestionCard.MatchAt | src/components/QuestionCard.tsx:213 | the length of a match of `\s*\([^)]*\)` at the start of the text, which is positive and within the text |
| QuestionCard.StripNotes | src/components/QuestionCard.tsx:213 | models the global left-to-right replacement; the result is never longer, and `StripLeavesNoNote`, `StripWithoutNote`, `StripIdempotent` and `StripExample` state its properties |
| QuestionCard.StripLeavesNoNote | src/components/QuestionCard.tsx:213 | after removing every `\s*\([^)]*\)` match, no `(` is followed later by a `)` |
| QuestionCard.StripWithoutNote | src/components/QuestionCard.tsx:213 | text without such a note is displayed unchanged |
| QuestionCard.StripIdempotent | src/components/QuestionCard.tsx:213 | stripping twice gives the same text as stripping once |
| QuestionCard.StripExample | src/components/QuestionCard.tsx:213 | "ab (x)" is displayed as "ab" |
| ResultScreen.Percentage | src/components/ResultScreen.tsx:14 | there is a percentage exactly when the total is non-zero |
| ResultScreen.PercentageIsRoundHalfUp | src/components/ResultScreen.tsx:14 | the percentage is the one integer `p` with `p - 1/2 <= 100 * score / total < p + 1/2` |
| ResultScreen.PercentageInRange | src/components/ResultScreen.tsx:14 | for `0 <= score <= total`, the percentage lies in 0..100; a full score gives 100 and a zero score gives 0 |
| ResultScreen.GetResultMessage | src/components/ResultScreen.tsx:16-34 | the emotion is 'victory' iff the score is at least 10, 'gameOver' otherwise; the birthday message is the same in both. A pass gets the "self-awareness goddess" first line, `celebrating-excited.png` and the pink-to-purple gradient; otherwise the constellation line, `angry-crying.png` and the blue-to-mint gradient |
| ResultScreen.ResultStickerMatchesEmotion | src/components/ResultScreen.tsx:17-33 | each outcome's custom sticker is the picture the emotion table gives its emotion |
| ResultScreen.AllCorrectOfTwelve | src/components/ResultScreen.tsx:14-24 | 12 of 12 gives 100 per cent and the victory outcome |
| ResultScreen.NineOfTwelve | src/components/ResultScreen.tsx:14-33 | 9 of 12 gives 75 per cent and the game-over outcome |
| Sticker.NonDigitIsNotPose | src/components/Sticker.tsx:16 | a name whose first character is not an ASCII digit never matches the pose pattern |
| Sticker.IsPoseName | src/components/Sticker.tsx:16 | models the pattern `/^\d+\.png$/`; `PoseNameShape` and `NonDigitIsNotPose` state its properties |
| Sticker.PoseNameShape | src/components/Sticker.tsx:16 | the pose pattern matches exactly the non-empty ASCII digit strings followed by `.png` |
| Sticker.EmotionPath | src/components/Sticker.tsx:23-48 | every table entry, the default included, lies in the chibi sticker folder |
| Sticker.StickerPath | src/components/Sticker.tsx:12-49 | the resolver is total and every path starts with `/img/` |
| Sticker.CustomStickerOverrides | src/components/Sticker.tsx:14-21 | a non-empty custom name overrides every emotion; it goes to the pose folder iff it matches the pose pattern, and otherwise to the (misspelt) chibi folder |
| Sticker.EmptyCustomFallsThrough | src/components/Sticker.tsx:14-23 | an absent or empty custom name falls through to the emotion table |
| Sticker.UnknownTagDefaults | src/components/Sticker.tsx:46-47 | a tag that is none of the eleven emotions gets `talking-peace-sign.png` |
| Sticker.DecorationsFor | src/components/Sticker.tsx:96-143 | four sparkles for 'happy', one tear for 'sad', nothing for any other emotion |
| App.App.constructor | src/App.tsx:18-20 | the shell starts on the intro with result `{0, 0}` and no confetti |
| App.RenderedScreens | src/App.tsx:54-67 | models the three conditional renders in page order; `ExactlyOneScreen` states its property |
| App.ExactlyOneScreen | src/App.tsx:54-67 | exactly one screen is rendered, the one the game state names, the result screen carrying the stored result |
| App.App.HandleStartQuiz | src/App.tsx:22-24 | the quiz screen is set from any state; nothing else changes |
| App.App.HandleQuizComplete | src/App.tsx:26-31 | the result is stored, the result screen is set, confetti starts and its stop timer is scheduled |
| App.App.ConfettiTimeout | src/App.tsx:31 | a stop timer turns the confetti off and changes nothing else |
| App.App.HandleRestart | src/App.tsx:34-38 | from any state, back to the intro with result `{0, 0}` and no confetti |
| App.App.Rendered | src/App.tsx:54-67 | exactly one screen is rendered |
| Session.Answer | src/components/QuizEngine.tsx:229-235 | a click on one of the displayed options of a fresh card reaches `handleAnswer` with the card's judgement; the engine's new score, wrong count, lives, emotion, sticker, banner and timer queue follow, and nothing is reported yet |
| Session.WrongChoice | src/components/QuestionCard.tsx:41-42 | on a card with at least two options, some displayed option is judged wrong |
| Session.ShownOptions | src/components/QuizEngine.tsx:28-46 | the shuffled card shows as many options as the bank's question, and an in-range correct answer stays in range |
| Session.WrongThenNext | src/components/QuizEngine.tsx:89-151 | on the first two questions, a click on a wrong displayed option then its timer advances to the next question; the last chance is shown exactly on the second wrong answer |
| Session.AnswerEveryQuestionCorrectly | src/components/QuizEngine.tsx:79-151 | from a fresh engine, clicking the correct option of every question and firing every timer reports one completion `(n, n)` and leaves nothing scheduled |
| Session.AllCorrect | src/components/QuizEngine.tsx:79-151 | for a bank whose correct answers are in range, all answers correct: one completion `(n, n)` with no timer left to report again, the result screen shows it at 100 per cent, and the outcome is victory iff `n >= 10` |
| Session.WrongWithNoLivesLeft | src/components/QuizEngine.tsx:140-164 | a third wrong answer on the third question empties the lives: the watcher's report and the feedback timer's report both arrive, `(0, n)` twice, and nothing stays scheduled |
| Session.ThreeWrong | src/components/QuizEngine.tsx:89-164 | three wrong answers on a bank of at least three whose first three questions have two options or more: the last chance is shown, and completion `(0, n)` is reported twice |

## Left out

- The particle effects (KawaiiConfetti, KawaiiEffects, KawaiiPageTransition,
  SparkleReveal): floating-point, timer-driven decoration that never affects
  the quiz.
- The intro screen, styling, animation variants (`getAnimationVariants`),
  CSS style objects, image paths of the hearts, and build configuration: they
  are presentation only. Option styles are an enumeration.
- The 500 ms shake of the mascot after a wrong answer (`isShaking`): it only
  drives an animation.
- The question bank file: the bank is a parameter, and nothing is assumed
  about its size or contents.
- Timer durations: they are not modelled as time. Each timer is a queued
  callback, in the order the durations imply.
- The card's 1500 ms delay before `onAnswer`: the answer goes straight to
  the engine, with nothing else happening in between.
- Timers of a finished quiz go on firing after the shell has left the quiz
  screen, as in the program. Nothing models unmounting.
- ResultScreen.Percentage: rounds the exact rational `100 * score / total`
  half up, not IEEE-754 doubles. A product that floating point computes just
  below a half (or above) could round the other way.
- The lives watcher is evaluated only where its dependencies change and its
  condition can hold, that is after an answer. After an advance, lives are
  always above 0.
- Shuffle.Pick: takes the floor of the exact real product `draw * (i + 1)`,
  not of the IEEE-754 product of `Math.random() * (i + 1)`. No proved
  property depends on this: each holds for every draw in [0, 1).
- Restart and a new quiz: the shell's `HandleRestart` is modelled, but a new
  session is a new `QuizEngine` object built with fresh draws.
