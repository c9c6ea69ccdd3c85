/**
 * The answer card of src/components/QuestionCard.tsx: the single-selection
 * guard of `handleAnswerSelect`, the correctness judgement, the four option
 * styles of `getOptionStyle`, the displayed option text and the hearts row.
 */
module QuestionCard {
  import opened Wrappers
  import opened QuizData
  import Shuffle

  /** `question.shuffledCorrectAnswer ?? question.correctAnswer` */
  function CorrectIndex(q: Question): int {
    q.shuffledCorrectAnswer.GetOr(q.correctAnswer)
  }

  /** `question.shuffledOptions || question.options`: an array is never falsy. */
  function DisplayedOptions(q: Question): seq<string> {
    q.shuffledOptions.GetOr(q.options)
  }

  /** The correctness judgement of `handleAnswerSelect`. */
  predicate IsCorrect(q: Question, answerIndex: int) {
    answerIndex == CorrectIndex(q)
  }

  /**
   * On a shuffled question an answer judged correct shows the text of the
   * originally correct option; with distinct option texts the converse holds
   * as well, so the judgement is exactly "the chosen text is the right one".
   */
  lemma CorrectnessByText(q: Question, draws: seq<real>, answerIndex: int)
    requires Shuffle.ValidDraws(draws, |q.options|)
    requires 0 <= q.correctAnswer < |q.options|
    requires 0 <= answerIndex < |q.options|
    ensures var sq := Shuffle.Shuffled(q, draws);
      |DisplayedOptions(sq)| == |q.options| &&
      (IsCorrect(sq, answerIndex) ==> DisplayedOptions(sq)[answerIndex] == q.options[q.correctAnswer]) &&
      (Shuffle.Distinct(q.options) ==>
        (IsCorrect(sq, answerIndex) <==> DisplayedOptions(sq)[answerIndex] == q.options[q.correctAnswer]))
  {
    var sq := Shuffle.Shuffled(q, draws);
    Shuffle.ShuffledIsPermutation(q, draws);
    Shuffle.ShuffledCorrectAnswerText(q, draws);
    if Shuffle.Distinct(q.options) {
      var so := DisplayedOptions(sq);
      Shuffle.ShuffledFromOrigins(q.options, draws);
      var origins := Shuffle.Origins(|q.options|, draws);
      if so[answerIndex] == q.options[q.correctAnswer] {
        var sca := CorrectIndex(sq);
        assert so[sca] == q.options[q.correctAnswer];
        assert q.options[origins[answerIndex]] == q.options[origins[sca]];
        assert origins[answerIndex] == origins[sca];
        assert origins[answerIndex] in multiset(origins);
        assert multiset(origins) == multiset(Shuffle.Iota(|q.options|));
        OriginsInjective(origins, |q.options|, answerIndex, sca);
      }
    }
  }

  /** A permutation of `0..n-1` holds no value twice. */
  lemma OriginsInjective(p: seq<int>, n: nat, i: int, j: int)
    requires |p| == n && multiset(p) == multiset(Shuffle.Iota(n))
    requires 0 <= i < n && 0 <= j < n && p[i] == p[j]
    ensures i == j
  {
    if i != j {
      var v := p[i];
      var lo, hi := if i < j then i else j, if i < j then j else i;
      assert p == p[..lo] + [p[lo]] + p[lo + 1..hi] + [p[hi]] + p[hi + 1..];
      assert multiset(p)[v] >= 2;
      IotaOnce(n, v);
    }
  }

  lemma {:induction false} IotaOnce(n: nat, v: int)
    ensures multiset(Shuffle.Iota(n))[v] <= 1
  {
    if n > 0 {
      assert Shuffle.Iota(n) == Shuffle.Iota(n - 1) + [n - 1];
      IotaOnce(n - 1, v);
      if v == n - 1 {
        assert n - 1 !in Shuffle.Iota(n - 1);
      }
    }
  }

  /** What `getOptionStyle` paints an option with. */
  datatype OptionStyle = Unanswered | Correct | ChosenWrong | Neutral

  function StyleOf(selected: Option<int>, correct: int, index: int): OptionStyle {
    if selected.None? then Unanswered
    else if index == correct then Correct
    else if index == selected.value && index != correct then ChosenWrong
    else Neutral
  }

  /** The styles of all displayed options, in display order. */
  function Styles(q: Question, selected: Option<int>): (r: seq<OptionStyle>)
    ensures |r| == |DisplayedOptions(q)|
  {
    seq(|DisplayedOptions(q)|, i => StyleOf(selected, CorrectIndex(q), i))
  }

  lemma {:induction false} CountEverywhere<T>(s: seq<T>, x: T)
    requires forall k :: 0 <= k < |s| ==> s[k] == x
    ensures multiset(s)[x] == |s|
  {
    if s != [] {
      assert s == [s[0]] + s[1..];
      CountEverywhere(s[1..], x);
    }
  }

  lemma CountOnce<T>(s: seq<T>, x: T, i: int)
    requires 0 <= i < |s| && s[i] == x
    requires forall k :: 0 <= k < |s| && k != i ==> s[k] != x
    ensures multiset(s)[x] == 1
  {
    assert s == s[..i] + [x] + s[i + 1..];
    assert x !in s[..i] && x !in s[i + 1..];
  }

  /** Before any selection every option has the same unanswered style. */
  lemma UnansweredUniform(q: Question)
    ensures multiset(Styles(q, None))[Unanswered] == |DisplayedOptions(q)|
  {
    CountEverywhere(Styles(q, None), Unanswered);
  }

  /**
   * After a selection exactly the correct option is green, the chosen
   * option is red exactly when it is not the correct one, and every other
   * option is grey.
   */
  lemma SelectedClassification(q: Question, selected: int)
    ensures var s, c, n := Styles(q, Some(selected)), CorrectIndex(q), |DisplayedOptions(q)|;
      multiset(s)[Correct] == (if 0 <= c < n then 1 else 0) &&
      multiset(s)[ChosenWrong] == (if 0 <= selected < n && selected != c then 1 else 0) &&
      multiset(s)[Unanswered] == 0 &&
      forall i :: 0 <= i < n ==>
        (s[i] == Correct <==> i == c) &&
        (s[i] == ChosenWrong <==> i == selected && i != c) &&
        (s[i] == Neutral <==> i != c && i != selected)
  {
    var s, c, n := Styles(q, Some(selected)), CorrectIndex(q), |DisplayedOptions(q)|;
    if 0 <= c < n {
      CountOnce(s, Correct, c);
    } else {
      assert Correct !in s;
    }
    if 0 <= selected < n && selected != c {
      CountOnce(s, ChosenWrong, selected);
    } else {
      assert ChosenWrong !in s;
    }
    assert Unanswered !in s;
  }

  /** The hearts row: three hearts, heart `i` alive when `i < lives`. */
  function Hearts(lives: int): (r: seq<bool>)
    ensures |r| == 3
  {
    seq(3, i => i < lives)
  }

  /** The number of alive hearts is `lives` clamped to `0..3`, and they come first. */
  lemma AliveHearts(lives: int)
    ensures multiset(Hearts(lives))[true] == if lives < 0 then 0 else if lives > 3 then 3 else lives
    ensures forall i, j :: 0 <= i < j < 3 && Hearts(lives)[j] ==> Hearts(lives)[i]
  {
    var h := Hearts(lives);
    if lives <= 0 {
      assert h == [false, false, false];
    } else if lives == 1 {
      assert h == [true, false, false];
    } else if lives == 2 {
      assert h == [true, true, false];
    } else {
      assert h == [true, true, true];
    }
  }

  /** What `handleAnswerSelect` hands to `onAnswer` after its 1500 ms delay. */
  datatype Answer = Answer(selectedAnswer: int, isCorrect: bool)

  /** One mounted card: the question it shows and its `selectedAnswer` state. */
  class Card {
    const question: Question
    var selectedAnswer: Option<int>

    constructor (question: Question)
      ensures this.question == question && selectedAnswer == None
    {
      this.question := question;
      selectedAnswer := None;
    }

    /**
     * `handleAnswerSelect`: only the first selection is accepted; it records
     * the index and sends the answer with its judgement.  The delay before
     * `onAnswer` runs is the step between this call and the engine's.
     */
    method HandleAnswerSelect(answerIndex: int) returns (sent: Option<Answer>)
      modifies this
      ensures old(selectedAnswer).Some? ==> selectedAnswer == old(selectedAnswer) && sent == None
      ensures old(selectedAnswer).None? ==>
        selectedAnswer == Some(answerIndex) &&
        sent == Some(Answer(answerIndex, IsCorrect(question, answerIndex)))
    {
      if selectedAnswer.Some? {
        sent := None;
        return;
      }
      selectedAnswer := Some(answerIndex);
      var correctAnswerIndex := CorrectIndex(question);
      var isCorrect := answerIndex == correctAnswerIndex;
      sent := Some(Answer(answerIndex, isCorrect));
    }

    /** `getOptionStyle(index)` for the current selection. */
    function OptionStyleAt(index: int): OptionStyle
      reads this
    {
      StyleOf(selectedAnswer, CorrectIndex(question), index)
    }
  }

  // Displayed option text: `option.replace(/\s*\([^)]*\)/g, '')`.

  /** `\s` of a JavaScript regular expression. */
  predicate IsJsSpace(c: char) {
    c == ' ' || c == '\t' || c == '\n' || c == '\U{000B}' || c == '\U{000C}' || c == '\r' ||
    c == '\U{00A0}' || c == '\U{1680}' || ('\U{2000}' <= c <= '\U{200A}') ||
    c == '\U{2028}' || c == '\U{2029}' || c == '\U{202F}' || c == '\U{205F}' ||
    c == '\U{3000}' || c == '\U{FEFF}'
  }

  /** The number of leading whitespace characters (the greedy `\s*`). */
  function LeadingSpaces(s: string): (r: nat)
    ensures r <= |s|
    ensures forall k :: 0 <= k < r ==> IsJsSpace(s[k])
    ensures r < |s| ==> !IsJsSpace(s[r])
  {
    if s != [] && IsJsSpace(s[0]) then 1 + LeadingSpaces(s[1..]) else 0
  }

  /**
   * The length of the match of `\s*\([^)]*\)` at the start of `s`, if any:
   * spaces, `(`, then everything up to and including the first later `)`.
   */
  function MatchAt(s: string): (r: Option<nat>)
    ensures r.Some? ==> 0 < r.value <= |s|
  {
    var w := LeadingSpaces(s);
    if w < |s| && s[w] == '(' then
      var close := Shuffle.IndexOf(s[w + 1..], ')');
      if close == -1 then None else Some(w + 1 + close + 1)
    else None
  }

  /** The global replacement: scan left to right, drop each match, keep the rest. */
  function StripNotes(s: string): (r: string)
    ensures |r| <= |s|
    decreases |s|
  {
    if s == [] then []
    else match MatchAt(s)
      case Some(n) => StripNotes(s[n..])
      case None => [s[0]] + StripNotes(s[1..])
  }

  /** No `(` is followed, anywhere later, by a `)`. */
  predicate NoNote(s: string) {
    forall i, j :: 0 <= i < j < |s| && s[i] == '(' ==> s[j] != ')'
  }

  lemma {:induction false} StripKeepsSuffixChars(s: string, c: char)
    requires c !in s
    ensures c !in StripNotes(s)
    decreases |s|
  {
    if s != [] {
      match MatchAt(s)
      case Some(n) => StripKeepsSuffixChars(s[n..], c);
      case None => StripKeepsSuffixChars(s[1..], c);
    }
  }

  /** After stripping no parenthesised note is left. */
  lemma {:induction false} StripLeavesNoNote(s: string)
    ensures NoNote(StripNotes(s))
    decreases |s|
  {
    if s != [] {
      match MatchAt(s)
      case Some(n) => StripLeavesNoNote(s[n..]);
      case None =>
        var rest := StripNotes(s[1..]);
        StripLeavesNoNote(s[1..]);
        if s[0] == '(' {
          assert LeadingSpaces(s) == 0;
          assert ')' !in s[1..];
          StripKeepsSuffixChars(s[1..], ')');
        }
        assert StripNotes(s) == [s[0]] + rest;
        forall i, j | 0 <= i < j < |StripNotes(s)| && StripNotes(s)[i] == '('
          ensures StripNotes(s)[j] != ')'
        {
          if i > 0 {
            assert StripNotes(s)[i] == rest[i - 1] && StripNotes(s)[j] == rest[j - 1];
          } else {
            assert StripNotes(s)[j] == rest[j - 1] && rest[j - 1] in rest;
          }
        }
    }
  }

  /** Text without a note has no match at its start. */
  lemma NoNoteNoMatch(s: string)
    requires NoNote(s)
    ensures MatchAt(s).None?
  {
    var w := LeadingSpaces(s);
    if w < |s| && s[w] == '(' {
      var after := s[w + 1..];
      forall k | 0 <= k < |after|
        ensures after[k] != ')'
      {
        assert after[k] == s[w + 1 + k];
      }
      assert Shuffle.IndexOf(after, ')') == -1;
    }
  }

  lemma NoNoteTail(s: string)
    requires s != [] && NoNote(s)
    ensures NoNote(s[1..])
  {
    var tail := s[1..];
    forall i, j | 0 <= i < j < |tail| && tail[i] == '('
      ensures tail[j] != ')'
    {
      assert tail[i] == s[i + 1] && tail[j] == s[j + 1];
    }
  }

  /** Text without a note is displayed as it is. */
  lemma {:induction false} StripWithoutNote(s: string)
    requires NoNote(s)
    ensures StripNotes(s) == s
    decreases |s|
  {
    if s != [] {
      NoNoteNoMatch(s);
      NoNoteTail(s);
      StripWithoutNote(s[1..]);
      assert StripNotes(s) == [s[0]] + s[1..];
    }
  }

  /** Stripping is idempotent. */
  lemma StripIdempotent(s: string)
    ensures StripNotes(StripNotes(s)) == StripNotes(s)
  {
    StripLeavesNoNote(s);
    StripWithoutNote(StripNotes(s));
  }

  lemma NoteMatches()
    ensures MatchAt(" (x)") == Some(4)
  {
    var note := " (x)";
    assert IsJsSpace(note[0]) && !IsJsSpace(note[1]);
    assert note[1..][0] == '(';
    assert LeadingSpaces(note) == 1;
    assert note[2..] == "x)";
    assert Shuffle.IndexOf(note[2..], ')') == 1;
  }

  lemma NoteStripped()
    ensures StripNotes(" (x)") == []
  {
    NoteMatches();
    assert " (x)"[4..] == [];
  }

  lemma KeepsPlainChar(s: string)
    requires s != [] && (s[0] == 'a' || s[0] == 'b')
    ensures MatchAt(s).None?
    ensures StripNotes(s) == [s[0]] + StripNotes(s[1..])
  {
    assert !IsJsSpace(s[0]);
    assert LeadingSpaces(s) == 0;
  }

  /** A worked case: a trailing note and the space before it disappear. */
  lemma StripExample()
    ensures StripNotes("ab (x)") == "ab"
  {
    var s := "ab (x)";
    NoteStripped();
    KeepsPlainChar(s[1..]);
    assert s[1..][1..] == " (x)";
    KeepsPlainChar(s);
  }
}
