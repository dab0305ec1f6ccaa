/** Display helpers for the status embeds (chibi/ui/formatters.py and the
    constants in chibi/constants.py). */
module Formatters {
  import opened Wrappers
  import opened Text

  const ProgressBarLength := 20
  const NoData := "[ No data yet ]"

  /** `c * n` for a one-character string `c` and `n >= 0`. */
  function Repeat(c: char, n: nat): (r: string)
    ensures |r| == n
    ensures forall i :: 0 <= i < n ==> r[i] == c
  {
    if n == 0 then [] else Repeat(c, n - 1) + [c]
  }

  /** The four segment lengths: mastered, proficient and learning get
      `int(count / total * 20)`, novice gets what is left. */
  datatype Segments = Segments(mastered: int, proficient: int, learning: int, novice: int)

  function SegmentsOf(mastered: nat, proficient: nat, learning: nat, novice: nat): Segments
    requires mastered + proficient + learning + novice > 0
  {
    var total := mastered + proficient + learning + novice;
    var m := mastered * ProgressBarLength / total;
    var p := proficient * ProgressBarLength / total;
    var l := learning * ProgressBarLength / total;
    Segments(m, p, l, ProgressBarLength - m - p - l)
  }

  /** Each of the first three segments is its count's share of 20 rounded
      down; none is negative and together they fill the bar exactly. */
  lemma SegmentsFillBar(mastered: nat, proficient: nat, learning: nat, novice: nat)
    requires mastered + proficient + learning + novice > 0
    ensures var s := SegmentsOf(mastered, proficient, learning, novice);
      var total := mastered + proficient + learning + novice;
      s.mastered >= 0 && s.proficient >= 0 && s.learning >= 0 && s.novice >= 0
      && s.mastered + s.proficient + s.learning + s.novice == ProgressBarLength
      && s.mastered * total <= mastered * ProgressBarLength < (s.mastered + 1) * total
      && s.proficient * total <= proficient * ProgressBarLength < (s.proficient + 1) * total
      && s.learning * total <= learning * ProgressBarLength < (s.learning + 1) * total
  {
    var total := mastered + proficient + learning + novice;
    var s := SegmentsOf(mastered, proficient, learning, novice);
    FloorShare(mastered, total);
    FloorShare(proficient, total);
    FloorShare(learning, total);
    assert s.mastered * total + s.proficient * total + s.learning * total
      <= (mastered + proficient + learning) * ProgressBarLength;
    assert (s.mastered + s.proficient + s.learning) * total <= ProgressBarLength * total;
  }

  /** `count * 20 / total` rounded down brackets the exact share. */
  lemma FloorShare(count: nat, total: nat)
    requires total > 0
    ensures var q := count * ProgressBarLength / total;
      q >= 0 && q * total <= count * ProgressBarLength < (q + 1) * total
  {
    var q := count * ProgressBarLength / total;
    var r := count * ProgressBarLength % total;
    assert count * ProgressBarLength == q * total + r;
  }

  /** `create_progress_bar`. */
  function ProgressBar(mastered: nat, proficient: nat, learning: nat, novice: nat): (bar: string)
  {
    if mastered + proficient + learning + novice == 0 then NoData
    else
      var s := SegmentsOf(mastered, proficient, learning, novice);
      SegmentsFillBar(mastered, proficient, learning, novice);
      "[" + Repeat('█', s.mastered) + Repeat('▓', s.proficient) + Repeat('▒', s.learning)
        + Repeat('░', s.novice) + "]"
  }

  /** With no concepts the bar says so; otherwise it is 20 symbols between
      brackets, mastered first, then proficient, learning and novice. */
  lemma ProgressBarLayout(mastered: nat, proficient: nat, learning: nat, novice: nat)
    ensures mastered + proficient + learning + novice == 0 ==> ProgressBar(mastered, proficient, learning, novice) == NoData
    ensures mastered + proficient + learning + novice > 0 ==>
      var bar := ProgressBar(mastered, proficient, learning, novice);
      var s := SegmentsOf(mastered, proficient, learning, novice);
      |bar| == ProgressBarLength + 2 && bar[0] == '[' && bar[ProgressBarLength + 1] == ']'
      && (forall i :: 1 <= i <= s.mastered ==> bar[i] == '█')
      && (forall i :: s.mastered < i <= s.mastered + s.proficient ==> bar[i] == '▓')
      && (forall i :: s.mastered + s.proficient < i <= s.mastered + s.proficient + s.learning ==> bar[i] == '▒')
      && (forall i :: s.mastered + s.proficient + s.learning < i <= ProgressBarLength ==> bar[i] == '░')
  {
    if mastered + proficient + learning + novice > 0 {
      SegmentsFillBar(mastered, proficient, learning, novice);
    }
  }

  /** `MASTERY_EMOJI`. */
  const MasteryEmoji: map<string, string> :=
    map["mastered" := "🏆", "proficient" := "⭐", "learning" := "📖", "novice" := "🌱"]

  const UnknownLevelEmoji := "⬜"

  /** `get_mastery_emoji`. */
  function GetMasteryEmoji(level: string): (e: string)
    ensures level in MasteryEmoji ==> e == MasteryEmoji[level]
    ensures level !in MasteryEmoji ==> e == UnknownLevelEmoji
  {
    if level in MasteryEmoji then MasteryEmoji[level] else UnknownLevelEmoji
  }

  /** `truncate_text`. A missing or empty text gives "", a text that fits
      is returned as it is, and a longer one is cut to leave room for the
      suffix. `text[:n]` with a negative `n` counts from the end. */
  function TruncateText(text: Option<string>, maxLength: int, suffix: string): (r: string)
    ensures text.None? || text == Some("") ==> r == ""
    ensures text.Some? && |text.value| <= maxLength ==> r == text.value
    ensures text.Some? && text.value != "" && |text.value| > maxLength ==>
      var cut := PyTake(text.value, maxLength - |suffix|);
      r == cut + suffix && cut == text.value[..|cut|]
  {
    if text.None? || text.value == "" || |text.value| <= maxLength then text.GetOr("")
    else PyTake(text.value, maxLength - |suffix|) + suffix
  }

  /** When the suffix fits in the limit, an overlong text is cut to exactly
      the limit: a prefix of the text followed by the suffix. */
  lemma TruncateToLimit(text: string, maxLength: int, suffix: string)
    requires |text| > maxLength >= |suffix|
    ensures var r := TruncateText(Some(text), maxLength, suffix);
      |r| == maxLength && r[..maxLength - |suffix|] == text[..maxLength - |suffix|]
      && r[maxLength - |suffix|..] == suffix
  {
    var r := TruncateText(Some(text), maxLength, suffix);
    assert r == text[..maxLength - |suffix|] + suffix;
  }
}
