/**
 * The result evaluation of src/components/ResultScreen.tsx: the rounded
 * percentage and the two-way `getResultMessage` choice on the score.
 */
module ResultScreen {
  import opened Wrappers
  import opened Sticker

  /** The score that earns the victory message. */
  const PassMark: int := 10

  /**
   * `Math.round((score / totalQuestions) * 100)`, computed exactly: half
   * rounds up.  A zero total divides by zero (NaN or Infinity), which is no
   * percentage at all.
   */
  function Percentage(score: nat, total: nat): (r: Option<int>)
    ensures r.None? <==> total == 0
  {
    if total == 0 then None else Some((200 * score + total) / (2 * total))
  }

  /** Multiplying by a positive number keeps a strict order, with a gap of a whole step. */
  lemma {:induction false} MulGap(a: int, b: int, d: int)
    requires a < b && d > 0
    ensures a * d + d <= b * d
    decreases b - a
  {
    assert (a + 1) * d == a * d + d;
    if a + 1 < b {
      MulGap(a + 1, b, d);
    }
  }

  lemma MulCancel(a: int, b: int, d: int)
    requires d > 0 && a * d < b * d
    ensures a < b
  {
    if b <= a {
      if b < a {
        MulGap(b, a, d);
      }
    }
  }

  /** Euclidean division by a positive divisor picks the one quotient that fits. */
  lemma DivisionQuotient(n: int, d: int, p: int)
    requires d > 0
    ensures n / d == p <==> p * d <= n < p * d + d
  {
    var q, m := n / d, n % d;
    assert n == q * d + m && 0 <= m < d;
    if p < q {
      MulGap(p, q, d);
    } else if p > q {
      MulGap(q, p, d);
    }
  }

  /**
   * The percentage is the integer nearest to `100 * score / total`, halves
   * going up: `p - 1/2 <= 100 * score / total < p + 1/2`, and no other
   * integer satisfies this.
   */
  lemma PercentageIsRoundHalfUp(score: nat, total: nat, p: int)
    requires total > 0
    ensures Percentage(score, total) == Some(p) <==>
      2 * p * total - total <= 200 * score < 2 * p * total + total
  {
    DivisionQuotient(200 * score + total, 2 * total, p);
    assert p * (2 * total) == 2 * p * total;
  }

  /** A score between 0 and the total gives a percentage between 0 and 100. */
  lemma PercentageInRange(score: nat, total: nat)
    requires 0 < total && score <= total
    ensures 0 <= Percentage(score, total).value <= 100
    ensures score == total ==> Percentage(score, total).value == 100
    ensures score == 0 ==> Percentage(score, total).value == 0
  {
    var p := Percentage(score, total).value;
    var n := 200 * score + total;
    var d := 2 * total;
    DivisionQuotient(n, d, p);
    assert p * d <= n < p * d + d;
    assert 0 <= n < 101 * d by {
      assert 200 * score <= 200 * total;
    }
    MulCancel(p, 101, d);
    assert (p + 1) * d == p * d + d;
    MulCancel(-1, p, d);
    if score == total {
      DivisionQuotient(n, d, 100);
    }
    if score == 0 {
      DivisionQuotient(n, d, 0);
    }
  }

  /** What `getResultMessage` returns. */
  datatype ResultMessage = ResultMessage(
    firstLine: string,
    message: string,
    emotion: Emotion,
    customSticker: string,
    bgGradient: string)

  const BirthdayMessage: string :=
    "Happy Birthday, Beautiful! May your special day be filled with endless joy, " +
    "and all the love your heart can hold! You're absolutely wonderful just the way you are!"

  /** The second first line ends in the three characters the page file holds. */
  const ConstellationLine: string :=
    "you're discovering your own constellation, one star at a time \U{00E2}\U{0153}\U{00A8}"

  function GetResultMessage(score: int): (r: ResultMessage)
    ensures r.emotion == Victory <==> score >= PassMark
    ensures r.emotion == GameOver <==> score < PassMark
    ensures r.message == BirthdayMessage
    ensures score >= PassMark ==>
      r.firstLine == "You're like a self-awareness goddess!" &&
      r.customSticker == "celebrating-excited.png" && r.bgGradient == "from-kawaii-pink to-kawaii-purple"
    ensures score < PassMark ==>
      r.firstLine == ConstellationLine &&
      r.customSticker == "angry-crying.png" && r.bgGradient == "from-kawaii-blue to-kawaii-mint"
  {
    if score >= PassMark then
      ResultMessage("You're like a self-awareness goddess!", BirthdayMessage,
        Victory, "celebrating-excited.png", "from-kawaii-pink to-kawaii-purple")
    else
      ResultMessage(ConstellationLine, BirthdayMessage,
        GameOver, "angry-crying.png", "from-kawaii-blue to-kawaii-mint")
  }

  /**
   * The custom sticker of either outcome shows the same picture as the
   * emotion table gives for its emotion.
   */
  lemma ResultStickerMatchesEmotion(score: int)
    ensures var r := GetResultMessage(score);
      StickerPath(r.emotion.Tag(), Some(r.customSticker)) == EmotionPath(r.emotion.Tag())
  {
    if score >= PassMark {
      NonDigitIsNotPose("celebrating-excited.png");
    } else {
      NonDigitIsNotPose("angry-crying.png");
    }
  }

  /** A full score of twelve: 100 per cent and the victory message. */
  lemma AllCorrectOfTwelve()
    ensures Percentage(12, 12) == Some(100) && GetResultMessage(12).emotion == Victory
  {
  }

  /** Nine of twelve: 75 per cent, below the pass mark. */
  lemma NineOfTwelve()
    ensures Percentage(9, 12) == Some(75) && GetResultMessage(9).emotion == GameOver
  {
  }
}
