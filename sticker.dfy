/**
 * Mascot image resolution of src/components/Sticker.tsx: `getStickerPath`
 * (an override name, then an emotion table with a default) and
 * `getDecorations` (which emotions get extra sparkles or a tear).
 */
module Sticker {
  import opened Wrappers

  /** The eleven emotion tags the quiz passes to the mascot. */
  datatype Emotion =
    | Neutral | Happy | Sad | Celebration
    | Questioning   // the tag 'question'
    | Wrong1 | Wrong2 | Wrong3 | LastChance | GameOver | Victory
  {
    function Tag(): string {
      match this
      case Neutral => "neutral"
      case Happy => "happy"
      case Sad => "sad"
      case Celebration => "celebration"
      case Questioning => "question"
      case Wrong1 => "wrong1"
      case Wrong2 => "wrong2"
      case Wrong3 => "wrong3"
      case LastChance => "lastChance"
      case GameOver => "gameOver"
      case Victory => "victory"
    }
  }

  /** The folder name is spelled this way in the deployed assets. */
  const ChibiFolder: string := "/img/chibi-stcikers/"
  const PoseFolder: string := "/img/questions-poses/"
  const DefaultSticker: string := "talking-peace-sign.png"

  /** `\d` of a JavaScript regular expression without the `u` flag. */
  predicate IsAsciiDigit(c: char) {
    '0' <= c <= '9'
  }

  predicate AllDigits(s: string) {
    forall k :: 0 <= k < |s| ==> IsAsciiDigit(s[k])
  }

  /** The pattern `/^\d+\.png$/` of numbered question poses. */
  predicate IsPoseName(s: string) {
    |s| > 4 && s[|s| - 4..] == ".png" && AllDigits(s[..|s| - 4])
  }

  /** A name that does not start with a digit never matches the pose pattern. */
  lemma NonDigitIsNotPose(s: string)
    requires s != [] && !IsAsciiDigit(s[0])
    ensures !IsPoseName(s)
  {
    if |s| > 4 {
      assert s[..|s| - 4][0] == s[0];
    }
  }

  /** The pose pattern matches exactly the non-empty digit strings followed by `.png`. */
  lemma PoseNameShape(s: string)
    ensures IsPoseName(s) <==> exists d :: d != [] && AllDigits(d) && s == d + ".png"
  {
    if IsPoseName(s) {
      var d := s[..|s| - 4];
      assert s == d + ".png";
    }
    if exists d :: d != [] && AllDigits(d) && s == d + ".png" {
      var d :| d != [] && AllDigits(d) && s == d + ".png";
      assert s[..|s| - 4] == d;
      assert s[|s| - 4..] == ".png";
    }
  }

  /** The `switch (emotion)` table, with its default. */
  function EmotionPath(tag: string): (r: string)
    ensures ChibiFolder <= r
  {
    ChibiFolder + (
      if tag == "neutral" then "talking-peace-sign.png"
      else if tag == "happy" then "starry-eyed-excited-with-wide-smile.png"
      else if tag == "sad" then "worried-sad.png"
      else if tag == "celebration" then "celebrating-excited.png"
      else if tag == "question" then "talking-peace-sign.png"
      else if tag == "wrong1" then "worried-expression.png"
      else if tag == "wrong2" then "puppy-eyes.png"
      else if tag == "wrong3" then "angry-crying.png"
      else if tag == "lastChance" then "worried-sad.png"
      else if tag == "gameOver" then "angry-crying.png"
      else if tag == "victory" then "celebrating-excited.png"
      else DefaultSticker)
  }

  /**
   * `getStickerPath`: a custom sticker that is present and non-empty wins and
   * picks its folder by the pose pattern; otherwise the emotion table.
   */
  function StickerPath(tag: string, custom: Option<string>): (r: string)
    ensures "/img/" <= r
  {
    if custom.Some? && custom.value != "" then
      if IsPoseName(custom.value) then PoseFolder + custom.value
      else ChibiFolder + custom.value
    else
      EmotionPath(tag)
  }

  /**
   * A non-empty custom sticker overrides every emotion, and lands in the pose
   * folder exactly when it matches the pose pattern.
   */
  lemma CustomStickerOverrides(tag: string, custom: string)
    requires custom != ""
    ensures StickerPath(tag, Some(custom)) == PoseFolder + custom <==> IsPoseName(custom)
    ensures StickerPath(tag, Some(custom)) == ChibiFolder + custom <==> !IsPoseName(custom)
    ensures forall other :: StickerPath(other, Some(custom)) == StickerPath(tag, Some(custom))
  {
    assert (PoseFolder + custom)[5] != (ChibiFolder + custom)[5];
  }

  /** An absent or empty custom sticker falls through to the emotion table. */
  lemma EmptyCustomFallsThrough(tag: string)
    ensures StickerPath(tag, Some("")) == StickerPath(tag, None) == EmotionPath(tag)
    ensures ChibiFolder <= StickerPath(tag, None)
  {
  }

  /** A tag outside the eleven emotions gets the default sticker. */
  lemma UnknownTagDefaults(tag: string)
    requires forall e: Emotion :: e.Tag() != tag
    ensures StickerPath(tag, None) == ChibiFolder + DefaultSticker
  {
    assert Neutral.Tag() != tag && Happy.Tag() != tag && Sad.Tag() != tag;
    assert Celebration.Tag() != tag && Questioning.Tag() != tag;
    assert Wrong1.Tag() != tag && Wrong2.Tag() != tag && Wrong3.Tag() != tag;
    assert LastChance.Tag() != tag && GameOver.Tag() != tag && Victory.Tag() != tag;
  }

  /** The decorations `getDecorations` draws around the mascot. */
  datatype Decorations = Decorations(sparkles: nat, tears: nat)

  function DecorationsFor(tag: string): (r: Decorations)
    ensures r.sparkles == (if tag == "happy" then 4 else 0)
    ensures r.tears == (if tag == "sad" then 1 else 0)
  {
    if tag == "happy" then Decorations(4, 0)
    else if tag == "sad" then Decorations(0, 1)
    else Decorations(0, 0)
  }
}
