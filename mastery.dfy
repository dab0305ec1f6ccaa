/** Mastery levels and the calculator that derives a level from a student's
    aggregate on one concept (chibi/learning/mastery.py). Ratios and averages
    are exact rationals. */
module Mastery {
  import opened Text
  import opened Models

  datatype MasteryLevel = Novice | Learning | Proficient | Mastered {
    /** The enum's string value, as stored in the database. */
    function Value(): string {
      match this
      case Novice => "novice"
      case Learning => "learning"
      case Proficient => "proficient"
      case Mastered => "mastered"
    }

    /** `value.capitalize()`. */
    function DisplayName(): (r: string)
      ensures |r| == |Value()| && r[0] == UpperChar(Value()[0]) && r[1..] == Value()[1..]
    {
      match this
      case Novice => "Novice"
      case Learning => "Learning"
      case Proficient => "Proficient"
      case Mastered => "Mastered"
    }

    /** Position in declaration order, which is the order of progress. */
    function Rank(): (r: nat)
      ensures r <= 3
    {
      match this
      case Novice => 0
      case Learning => 1
      case Proficient => 2
      case Mastered => 3
    }
  }

  /** The level at a given position in declaration order. */
  function LevelAt(i: nat): (l: MasteryLevel)
    requires i <= 3
    ensures l.Rank() == i
  {
    if i == 0 then Novice else if i == 1 then Learning else if i == 2 then Proficient else Mastered
  }

  /** The calculator's thresholds. `qualityThreshold` and
      `correctRatioThreshold` are configuration that no decision reads. */
  datatype MasteryConfig = MasteryConfig(
    minAttemptsForMastery: int,
    qualityThreshold: real,
    correctRatioThreshold: real,
    masteredRatio: real,
    masteredQuality: real,
    proficientRatio: real,
    learningRatio: real)

  /** The dataclass defaults. */
  const DefaultConfig := MasteryConfig(3, 3.5, 0.7, 0.85, 4.0, 0.6, 0.3)

  /** A statistics record as the calculator returns it. */
  datatype MasteryStats = MasteryStats(
    totalAttempts: int,
    correctAttempts: int,
    avgQualityScore: real,
    masteryLevel: MasteryLevel)

  /** correct / total, or 0 when there are no attempts. */
  function Ratio(correct: int, total: int): (r: real)
    ensures total > 0 ==> r * total as real == correct as real
    ensures total <= 0 ==> r == 0.0
    ensures 0 <= correct <= total ==> 0.0 <= r <= 1.0
  {
    if total > 0 then correct as real / total as real else 0.0
  }

  /** `MasteryStats.correct_ratio`. */
  function CorrectRatio(s: MasteryStats): (r: real)
    ensures s.totalAttempts > 0 ==> r * s.totalAttempts as real == s.correctAttempts as real
    ensures s.totalAttempts <= 0 ==> r == 0.0
    ensures 0 <= s.correctAttempts <= s.totalAttempts ==> 0.0 <= r <= 1.0
  {
    Ratio(s.correctAttempts, s.totalAttempts)
  }

  /** `MasteryStats.accuracy_percentage`. */
  function AccuracyPercentage(s: MasteryStats): (r: real)
    ensures 0 <= s.correctAttempts <= s.totalAttempts ==> 0.0 <= r <= 100.0
    ensures s.totalAttempts > 0 && s.correctAttempts == s.totalAttempts ==> r == 100.0
  {
    CorrectRatio(s) * 100.0
  }

  /** The mastered test: high ratio, and either high quality or no quality
      score at all (an average of exactly 0). */
  predicate MeetsMastered(cfg: MasteryConfig, ratio: real, avgQuality: real) {
    ratio >= cfg.masteredRatio && (avgQuality >= cfg.masteredQuality || avgQuality == 0.0)
  }

  /** `MasteryCalculator.calculate_level`. */
  function CalculateLevel(cfg: MasteryConfig, total: int, correct: int, avgQuality: real): (l: MasteryLevel)
    ensures total < cfg.minAttemptsForMastery ==> l == Novice
    ensures l == Mastered <==>
      total >= cfg.minAttemptsForMastery && MeetsMastered(cfg, Ratio(correct, total), avgQuality)
    ensures l == Proficient <==>
      total >= cfg.minAttemptsForMastery && !MeetsMastered(cfg, Ratio(correct, total), avgQuality)
      && Ratio(correct, total) >= cfg.proficientRatio
    ensures l == Learning <==>
      total >= cfg.minAttemptsForMastery && !MeetsMastered(cfg, Ratio(correct, total), avgQuality)
      && cfg.learningRatio <= Ratio(correct, total) < cfg.proficientRatio
  {
    if total < cfg.minAttemptsForMastery then Novice
    else
      var ratio := Ratio(correct, total);
      if MeetsMastered(cfg, ratio, avgQuality) then Mastered
      else if ratio >= cfg.proficientRatio then Proficient
      else if ratio >= cfg.learningRatio then Learning
      else Novice
  }

  /** Thresholds in the order the defaults have them. */
  predicate OrderedThresholds(cfg: MasteryConfig) {
    0.0 <= cfg.learningRatio <= cfg.proficientRatio <= cfg.masteredRatio
  }

  /** With ordered thresholds, each further correct answer among the same
      number of attempts never lowers the level, quality held fixed. */
  lemma LevelMonotoneInCorrect(cfg: MasteryConfig, total: int, c1: int, c2: int, q: real)
    requires OrderedThresholds(cfg)
    requires c1 <= c2
    ensures CalculateLevel(cfg, total, c1, q).Rank() <= CalculateLevel(cfg, total, c2, q).Rank()
  {
    if total > 0 {
      assert Ratio(c1, total) <= Ratio(c2, total) by {
        assert c1 as real / total as real <= c2 as real / total as real;
      }
    }
  }

  /** A ratio compared with a threshold n/d is the cross-multiplied integer
      comparison. */
  lemma RatioAtLeast(correct: int, total: int, n: int, d: int)
    requires total > 0 && d > 0
    ensures Ratio(correct, total) >= n as real / d as real <==> d * correct >= n * total
  {
    var r, t := Ratio(correct, total), total as real;
    var k := n as real / d as real;
    assert k * d as real == n as real;
    calc <==> {
      r >= k;
      r * t >= k * t;
      { assert r * t == correct as real; }
      correct as real >= k * t;
      correct as real * d as real >= k * t * d as real;
      { assert k * t * d as real == n as real * t; }
      correct as real * d as real >= n as real * t;
      d * correct >= n * total;
    }
  }

  /** Levels reached under the default thresholds, written with integers:
      mastered needs 20·correct ≥ 17·total, proficient 5·correct ≥ 3·total,
      learning 10·correct ≥ 3·total. */
  lemma DefaultLevelsByCrossMultiplying(total: int, correct: int, q: real)
    requires total >= 3
    ensures CalculateLevel(DefaultConfig, total, correct, q) ==
      if 20 * correct >= 17 * total && (q >= 4.0 || q == 0.0) then Mastered
      else if 5 * correct >= 3 * total then Proficient
      else if 10 * correct >= 3 * total then Learning
      else Novice
  {
    RatioAtLeast(correct, total, 17, 20);
    RatioAtLeast(correct, total, 3, 5);
    RatioAtLeast(correct, total, 3, 10);
    assert 0.85 == 17 as real / 20 as real;
    assert 0.6 == 3 as real / 5 as real;
    assert 0.3 == 3 as real / 10 as real;
  }

  /** The four scenarios the repository's tests pin down. */
  lemma DefaultLevelVectors()
    ensures CalculateLevel(DefaultConfig, 4, 1, 2.0) == Novice
    ensures CalculateLevel(DefaultConfig, 5, 2, 3.0) == Learning
    ensures CalculateLevel(DefaultConfig, 7, 5, 4.0) == Proficient
    ensures CalculateLevel(DefaultConfig, 5, 5, 4.8) == Mastered
  {
    DefaultLevelsByCrossMultiplying(4, 1, 2.0);
    DefaultLevelsByCrossMultiplying(5, 2, 3.0);
    DefaultLevelsByCrossMultiplying(7, 5, 4.0);
    DefaultLevelsByCrossMultiplying(5, 5, 4.8);
  }

  /** Number of attempts marked correct. */
  function CountCorrect(attempts: seq<QuizAttempt>): (n: nat)
    ensures n <= |attempts|
    ensures n == |attempts| <==> forall i :: 0 <= i < |attempts| ==> attempts[i].isCorrect
    ensures n == 0 <==> forall i :: 0 <= i < |attempts| ==> !attempts[i].isCorrect
  {
    if attempts == [] then 0
    else CountCorrect(attempts[..|attempts| - 1]) + (if attempts[|attempts| - 1].isCorrect then 1 else 0)
  }

  /** An attempt whose quality score enters the average: present and positive. */
  predicate HasQuality(a: QuizAttempt) {
    a.llmQualityScore.Some? && a.llmQualityScore.value > 0
  }

  /** The scores of `attempts` that are present and positive, in order. */
  function QualityScores(attempts: seq<QuizAttempt>): (r: seq<int>)
    ensures |r| <= |attempts|
    ensures forall k :: 0 <= k < |r| ==> r[k] > 0
    ensures r == [] <==> forall i :: 0 <= i < |attempts| ==> !HasQuality(attempts[i])
  {
    if attempts == [] then []
    else
      var a := attempts[|attempts| - 1];
      QualityScores(attempts[..|attempts| - 1]) + (if HasQuality(a) then [a.llmQualityScore.value] else [])
  }

  function Sum(xs: seq<int>): int {
    if xs == [] then 0 else Sum(xs[..|xs| - 1]) + xs[|xs| - 1]
  }

  /** Arithmetic mean, or 0.0 for an empty list. */
  function Mean(xs: seq<int>): real {
    if xs == [] then 0.0 else Sum(xs) as real / |xs| as real
  }

  lemma {:induction false} SumBounds(xs: seq<int>, lo: int, hi: int)
    requires forall k :: 0 <= k < |xs| ==> lo <= xs[k] <= hi
    ensures lo * |xs| <= Sum(xs) <= hi * |xs|
  {
    if xs != [] {
      SumBounds(xs[..|xs| - 1], lo, hi);
    }
  }

  /** A mean of scores in [lo, hi] lies in [lo, hi]. */
  lemma MeanBounds(xs: seq<int>, lo: int, hi: int)
    requires xs != []
    requires forall k :: 0 <= k < |xs| ==> lo <= xs[k] <= hi
    ensures lo as real <= Mean(xs) <= hi as real
  {
    SumBounds(xs, lo, hi);
    var n := |xs| as real;
    assert lo as real * n <= Sum(xs) as real <= hi as real * n;
  }

  /** `MasteryCalculator.calculate_from_attempts`. */
  function CalculateFromAttempts(cfg: MasteryConfig, attempts: seq<QuizAttempt>): (s: MasteryStats)
    ensures attempts == [] ==> s == MasteryStats(0, 0, 0.0, Novice)
    ensures s.totalAttempts == |attempts|
    ensures 0 <= s.correctAttempts <= s.totalAttempts
    ensures s.avgQualityScore == Mean(QualityScores(attempts))
    ensures attempts != [] ==>
      s.masteryLevel == CalculateLevel(cfg, s.totalAttempts, s.correctAttempts, s.avgQualityScore)
  {
    if attempts == [] then MasteryStats(0, 0, 0.0, Novice)
    else
      var total := |attempts|;
      var correct := CountCorrect(attempts);
      var avg := Mean(QualityScores(attempts));
      MasteryStats(total, correct, avg, CalculateLevel(cfg, total, correct, avg))
  }

  /** The average ignores missing and non-positive scores: it is 0.0 exactly
      when no attempt has a positive score, and when every present score is at
      most 5 it lies in [1, 5] otherwise. */
  lemma AverageQualityFacts(cfg: MasteryConfig, attempts: seq<QuizAttempt>)
    requires forall i :: 0 <= i < |attempts| && attempts[i].llmQualityScore.Some? ==> attempts[i].llmQualityScore.value <= 5
    ensures var s := CalculateFromAttempts(cfg, attempts);
      (s.avgQualityScore == 0.0 <==> forall i :: 0 <= i < |attempts| ==> !HasQuality(attempts[i]))
      && (s.avgQualityScore != 0.0 ==> 1.0 <= s.avgQualityScore <= 5.0)
  {
    var qs := QualityScores(attempts);
    if qs != [] {
      QualityScoresAtMost(attempts, 5);
      MeanBounds(qs, 1, 5);
    }
  }

  lemma {:induction false} QualityScoresAtMost(attempts: seq<QuizAttempt>, hi: int)
    requires forall i :: 0 <= i < |attempts| && attempts[i].llmQualityScore.Some? ==> attempts[i].llmQualityScore.value <= hi
    ensures forall k :: 0 <= k < |QualityScores(attempts)| ==> QualityScores(attempts)[k] <= hi
  {
    if attempts != [] {
      QualityScoresAtMost(attempts[..|attempts| - 1], hi);
    }
  }

  /** `MasteryCalculator.level_from_string`: the lower-cased value, or
      novice for an unknown string. */
  function LevelFromString(s: string): (l: MasteryLevel)
    ensures Lower(s) == l.Value() || (l == Novice && forall m: MasteryLevel :: Lower(s) != m.Value())
  {
    var t := Lower(s);
    if t == "learning" then Learning
    else if t == "proficient" then Proficient
    else if t == "mastered" then Mastered
    else Novice
  }

  /** Every level's stored value parses back to that level. */
  lemma LevelFromStringRoundTrip(l: MasteryLevel)
    ensures LevelFromString(l.Value()) == l
  {
    var v := l.Value();
    assert Lower(v) == v;
  }

  /** Parsing ignores ASCII letter case. */
  lemma {:induction false} LevelFromStringCaseInsensitive(s: string)
    ensures LevelFromString(Upper(s)) == LevelFromString(s)
  {
    assert Lower(Upper(s)) == Lower(s) by {
      forall i | 0 <= i < |s| ensures Lower(Upper(s))[i] == Lower(s)[i] {
        assert LowerChar(UpperChar(s[i])) == LowerChar(s[i]);
      }
    }
  }

  /** `MasteryCalculator.get_next_level`. */
  function NextLevel(l: MasteryLevel): (r: MasteryLevel)
    ensures l != Mastered ==> r.Rank() == l.Rank() + 1
    ensures l == Mastered ==> r == Mastered
  {
    if l.Rank() < 3 then LevelAt(l.Rank() + 1) else l
  }

  /** Three steps reach mastered from anywhere, and it stays there. */
  lemma NextLevelReachesMastered(l: MasteryLevel)
    ensures NextLevel(NextLevel(NextLevel(l))) == Mastered
    ensures NextLevel(Mastered) == Mastered
  {
  }
}
