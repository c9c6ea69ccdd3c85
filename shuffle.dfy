/**
 * The answer shuffler of src/components/QuizEngine.tsx (`shuffleQuestion`):
 * a Fisher-Yates pass over a copy of a question's options, then an
 * `indexOf` lookup that relocates the correct answer by its text.
 *
 * `Math.random()` is an input: the loop consumes one draw in [0, 1) per
 * step, the first draw for the last position.
 */
module Shuffle {
  import opened Wrappers
  import opened QuizData

  /** The draws the loop consumes satisfy the contract of `Math.random()`. */
  predicate ValidDraws(draws: seq<real>, n: nat) {
    |draws| >= n - 1 && forall k :: 0 <= k < |draws| ==> 0.0 <= draws[k] < 1.0
  }

  /** `Math.floor(Math.random() * (i + 1))` for the draw `r`. */
  function Pick(r: real, i: nat): int {
    (r * (i + 1) as real).Floor
  }

  /** Every step swaps position `i` with a position `j` in `0..i`. */
  lemma PickInRange(r: real, i: nat)
    requires 0.0 <= r < 1.0
    ensures 0 <= Pick(r, i) <= i
  {
    var n := (i + 1) as real;
    assert 0.0 <= r * n;
    assert n - r * n == (1.0 - r) * n;
    assert (1.0 - r) * n > 0.0;
  }

  /** The destructuring swap `[s[i], s[j]] = [s[j], s[i]]`. */
  function Swap<T>(s: seq<T>, i: nat, j: nat): (r: seq<T>)
    requires i < |s| && j < |s|
    ensures |r| == |s| && r[i] == s[j] && r[j] == s[i]
    ensures forall k :: 0 <= k < |s| && k != i && k != j ==> r[k] == s[k]
  {
    s[i := s[j]][j := s[i]]
  }

  lemma SwapPermutes<T>(s: seq<T>, i: nat, j: nat)
    requires i < |s| && j < |s|
    ensures multiset(Swap(s, i, j)) == multiset(s)
  {
    var t := s[i := s[j]];
    assert multiset(t) == multiset(s) - multiset{s[i]} + multiset{s[j]};
    assert multiset(t[j := s[i]]) == multiset(t) - multiset{t[j]} + multiset{s[i]};
  }

  /**
   * The loop from position `i` down to 1, `draws[0]` being the draw for
   * position `i`.
   */
  function Steps<T>(s: seq<T>, i: int, draws: seq<real>): seq<T>
    requires i < |s| && |draws| >= i
    requires forall k :: 0 <= k < |draws| ==> 0.0 <= draws[k] < 1.0
    decreases i
  {
    if i <= 0 then s
    else
      PickInRange(draws[0], i);
      Steps(Swap(s, i, Pick(draws[0], i)), i - 1, draws[1..])
  }

  /** The whole loop, `for (let i = s.length - 1; i > 0; i--)`. */
  function FisherYates<T>(s: seq<T>, draws: seq<real>): seq<T>
    requires ValidDraws(draws, |s|)
  {
    Steps(s, |s| - 1, draws)
  }

  lemma {:induction false} StepsPermutes<T>(s: seq<T>, i: int, draws: seq<real>)
    requires i < |s| && |draws| >= i
    requires forall k :: 0 <= k < |draws| ==> 0.0 <= draws[k] < 1.0
    ensures |Steps(s, i, draws)| == |s|
    ensures multiset(Steps(s, i, draws)) == multiset(s)
    decreases i
  {
    if i > 0 {
      PickInRange(draws[0], i);
      var j := Pick(draws[0], i);
      SwapPermutes(s, i, j);
      StepsPermutes(Swap(s, i, j), i - 1, draws[1..]);
    }
  }

  /** The shuffled options are a permutation of the options. */
  lemma FisherYatesPermutes<T>(s: seq<T>, draws: seq<real>)
    requires ValidDraws(draws, |s|)
    ensures |FisherYates(s, draws)| == |s|
    ensures multiset(FisherYates(s, draws)) == multiset(s)
  {
    StepsPermutes(s, |s| - 1, draws);
  }

  // Tracking where each option came from: shuffling the positions 0..n-1
  // with the same draws tells, for every slot of the shuffled options, the
  // original position of the option now in that slot.

  predicate Indices(p: seq<int>, n: nat) {
    forall k :: 0 <= k < |p| ==> 0 <= p[k] < n
  }

  function Iota(n: nat): (r: seq<int>)
    ensures |r| == n && forall k :: 0 <= k < n ==> r[k] == k
  {
    seq(n, k => k)
  }

  /** The sequence whose slot `k` holds `s[p[k]]`. */
  function Gather<T>(s: seq<T>, p: seq<int>): (r: seq<T>)
    requires Indices(p, |s|)
    ensures |r| == |p| && forall k :: 0 <= k < |p| ==> r[k] == s[p[k]]
  {
    seq(|p|, k requires 0 <= k < |p| => s[p[k]])
  }

  lemma {:induction false} StepsGather<T>(s: seq<T>, p: seq<int>, i: int, draws: seq<real>)
    requires Indices(p, |s|) && i < |p| && |draws| >= i
    requires forall k :: 0 <= k < |draws| ==> 0.0 <= draws[k] < 1.0
    ensures Indices(Steps(p, i, draws), |s|)
    ensures Steps(Gather(s, p), i, draws) == Gather(s, Steps(p, i, draws))
    decreases i
  {
    if i > 0 {
      PickInRange(draws[0], i);
      var j := Pick(draws[0], i);
      var p' := Swap(p, i, j);
      assert Swap(Gather(s, p), i, j) == Gather(s, p');
      StepsGather(s, p', i - 1, draws[1..]);
    }
  }

  /**
   * `Origins(n, draws)[k]` is the original position of the option that the
   * shuffle puts in slot `k`.
   */
  function Origins(n: nat, draws: seq<real>): (r: seq<int>)
    requires ValidDraws(draws, n)
    ensures |r| == n && multiset(r) == multiset(Iota(n))
  {
    FisherYatesPermutes(Iota(n), draws);
    FisherYates(Iota(n), draws)
  }

  lemma ShuffledFromOrigins<T>(s: seq<T>, draws: seq<real>)
    requires ValidDraws(draws, |s|)
    ensures Indices(Origins(|s|, draws), |s|)
    ensures FisherYates(s, draws) == Gather(s, Origins(|s|, draws))
  {
    assert Gather(s, Iota(|s|)) == s;
    StepsGather(s, Iota(|s|), |s| - 1, draws);
  }

  /** `Array.prototype.indexOf`: the first position holding `x`, or -1. */
  function IndexOf<T(==)>(s: seq<T>, x: T): (r: int)
    ensures -1 <= r < |s|
    ensures r == -1 <==> x !in s
    ensures r >= 0 ==> s[r] == x && forall k :: 0 <= k < r ==> s[k] != x
  {
    if s == [] then -1
    else if s[0] == x then 0
    else
      var t := IndexOf(s[1..], x);
      if t == -1 then -1 else t + 1
  }

  /**
   * `question.options[question.correctAnswer]`: undefined when the index is
   * not a position of the options.
   */
  function CorrectOption(q: Question): Option<string> {
    if 0 <= q.correctAnswer < |q.options| then Some(q.options[q.correctAnswer]) else None
  }

  /**
   * The shuffled question: `{...question, shuffledOptions,
   * shuffledCorrectAnswer}`.  `indexOf(undefined)` finds no string, so an
   * out-of-range correct index relocates to -1.
   */
  function Shuffled(q: Question, draws: seq<real>): (r: Question)
    requires ValidDraws(draws, |q.options|)
    ensures r.shuffledOptions.Some? && r.shuffledCorrectAnswer.Some?
    ensures r.(shuffledOptions := q.shuffledOptions, shuffledCorrectAnswer := q.shuffledCorrectAnswer) == q
  {
    var so := FisherYates(q.options, draws);
    var sca := match CorrectOption(q)
      case Some(text) => IndexOf(so, text)
      case None => -1;
    q.(shuffledOptions := Some(so), shuffledCorrectAnswer := Some(sca))
  }

  /** The shuffled options are a permutation of the original options. */
  lemma ShuffledIsPermutation(q: Question, draws: seq<real>)
    requires ValidDraws(draws, |q.options|)
    ensures |Shuffled(q, draws).shuffledOptions.value| == |q.options|
    ensures multiset(Shuffled(q, draws).shuffledOptions.value) == multiset(q.options)
  {
    FisherYatesPermutes(q.options, draws);
  }

  /**
   * The relocated index is in range and is the first slot holding the text of
   * the originally correct option; an out-of-range correct index gives -1.
   */
  lemma ShuffledCorrectAnswerText(q: Question, draws: seq<real>)
    requires ValidDraws(draws, |q.options|)
    ensures var sq := Shuffled(q, draws);
      var so, sca := sq.shuffledOptions.value, sq.shuffledCorrectAnswer.value;
      if 0 <= q.correctAnswer < |q.options| then
        0 <= sca < |so| && so[sca] == q.options[q.correctAnswer] &&
        forall k :: 0 <= k < sca ==> so[k] != q.options[q.correctAnswer]
      else
        sca == -1
  {
    var so := FisherYates(q.options, draws);
    FisherYatesPermutes(q.options, draws);
    if 0 <= q.correctAnswer < |q.options| {
      assert q.options[q.correctAnswer] in multiset(so);
    }
  }

  predicate Distinct<T(==)>(s: seq<T>) {
    forall i, j :: 0 <= i < j < |s| ==> s[i] != s[j]
  }

  /**
   * With distinct option texts the relocated index is the true new position
   * of the correct option.
   */
  lemma DistinctOptionsKeepTruePosition(q: Question, draws: seq<real>)
    requires ValidDraws(draws, |q.options|)
    requires Distinct(q.options) && 0 <= q.correctAnswer < |q.options|
    ensures var sca := Shuffled(q, draws).shuffledCorrectAnswer.value;
      0 <= sca < |q.options| && Origins(|q.options|, draws)[sca] == q.correctAnswer
  {
    var sca := Shuffled(q, draws).shuffledCorrectAnswer.value;
    ShuffledCorrectAnswerText(q, draws);
    ShuffledFromOrigins(q.options, draws);
    var o := Origins(|q.options|, draws)[sca];
    assert q.options[o] == q.options[q.correctAnswer];
  }

  /**
   * With repeated option texts the lookup by text can miss: two identical
   * options, the second one correct, and a draw that swaps nothing.  The
   * correct option stays in slot 1, yet the relocated index is 0.
   */
  lemma DuplicateOptionsLoseTruePosition()
    ensures var q := Question(0, "", ["a", "a"], 1, "", None, None, None, None);
      Shuffled(q, [0.9]).shuffledCorrectAnswer == Some(0) &&
      Origins(2, [0.9]) == [0, 1]
  {
    var q := Question(0, "", ["a", "a"], 1, "", None, None, None, None);
    assert Pick(0.9, 1) == 1;
    assert Swap([0, 1], 1, 1) == [0, 1];
    assert Swap(["a", "a"], 1, 1) == ["a", "a"];
  }

  /**
   * The `for` loop of `shuffleQuestion` on the copied array: position `i`
   * from the last down to 1 is swapped with `Pick` of the next draw.
   */
  method ShuffleInPlace<T>(a: array<T>, draws: seq<real>)
    requires ValidDraws(draws, a.Length)
    modifies a
    ensures a[..] == FisherYates(old(a[..]), draws)
  {
    ghost var original := a[..];
    var i := a.Length - 1;
    var used := 0;
    ghost var rest := draws;
    while i > 0
      invariant -1 <= i < a.Length && used == a.Length - 1 - i
      invariant i >= 0 ==> 0 <= used <= |draws| && rest == draws[used..] && |rest| >= i
      invariant forall k :: 0 <= k < |rest| ==> 0.0 <= rest[k] < 1.0
      invariant i >= 0 ==> Steps(a[..], i, rest) == FisherYates(original, draws)
      invariant i < 0 ==> a[..] == original == []
    {
      assert rest[0] == draws[used];
      PickInRange(draws[used], i);
      var j := Pick(draws[used], i);
      ghost var before := a[..];
      a[i], a[j] := a[j], a[i];
      assert a[..] == Swap(before, i, j);
      i := i - 1;
      used := used + 1;
      rest := rest[1..];
    }
  }

  /** `shuffleQuestion`: shuffles a copy of the options in place. */
  method ShuffleQuestion(q: Question, draws: seq<real>) returns (sq: Question)
    requires ValidDraws(draws, |q.options|)
    ensures sq == Shuffled(q, draws)
  {
    var correctOption := CorrectOption(q);
    var a := new string[|q.options|](k requires 0 <= k < |q.options| => q.options[k]);
    assert a[..] == q.options;
    ShuffleInPlace(a, draws);
    var so := a[..];
    var sca := if correctOption.Some? then IndexOf(so, correctOption.value) else -1;
    sq := q.(shuffledOptions := Some(so), shuffledCorrectAnswer := Some(sca));
  }
}
