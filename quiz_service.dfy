/** The quiz service's grading logic (chibi/services/quiz_service.py): the
    parser that turns the judge's reply into a verdict and a 1-5 score, the
    running mastery update each graded answer triggers, and the choice of the
    next concept to quiz. The two repositories the service writes through are
    modelled as two fields: the mastery records keyed by (user, concept) and
    the log of attempts. */
module QuizService {
  import opened Wrappers
  import opened Text
  import opened Seqs
  import opened Models
  import opened Mastery
  import opened Course

  /** `EvaluationResult`. */
  datatype EvaluationResult = EvaluationResult(
    isCorrect: bool,
    isPartial: bool,
    qualityScore: int,
    feedback: string,
    countsAsCorrect: bool)

  // ---------------------------------------------------------------------
  // Parsing the judge's reply

  /** The stripped, non-blank entries of `parts`, in order. */
  function NonBlankLines(parts: seq<string>): (r: seq<string>)
    ensures |r| <= |parts|
    ensures forall k :: 0 <= k < |r| ==> r[k] != [] && IsStripped(r[k])
  {
    if parts == [] then []
    else
      var s := Strip(parts[0]);
      (if s == [] then [] else [s]) + NonBlankLines(parts[1..])
  }

  /** The comprehension distributes over concatenation: lines are kept in
      the order of the parts they come from. */
  lemma {:induction false} NonBlankLinesAppend(a: seq<string>, b: seq<string>)
    ensures NonBlankLines(a + b) == NonBlankLines(a) + NonBlankLines(b)
  {
    if a == [] {
      assert a + b == b;
    } else {
      assert (a + b)[1..] == a[1..] + b;
      NonBlankLinesAppend(a[1..], b);
    }
  }

  /** A line is kept exactly when it is the non-empty strip of some part. */
  lemma {:induction false} NonBlankLinesMembers(parts: seq<string>, x: string)
    ensures x in NonBlankLines(parts) <==> x != [] && exists j :: 0 <= j < |parts| && Strip(parts[j]) == x
  {
    if parts != [] {
      NonBlankLinesMembers(parts[1..], x);
      if exists j :: 0 <= j < |parts[1..]| && Strip(parts[1..][j]) == x {
        var j :| 0 <= j < |parts[1..]| && Strip(parts[1..][j]) == x;
        assert Strip(parts[j + 1]) == x;
      }
      if exists j :: 0 <= j < |parts| && Strip(parts[j]) == x {
        var j :| 0 <= j < |parts| && Strip(parts[j]) == x;
        if j > 0 {
          assert Strip(parts[1..][j - 1]) == x;
        }
      }
    }
  }

  /** The first kept line is the strip of the first part that is not blank. */
  lemma {:induction false} NonBlankLinesFirst(parts: seq<string>, j: nat)
    requires j < |parts| && !IsBlank(parts[j])
    requires forall m :: 0 <= m < j ==> IsBlank(parts[m])
    ensures NonBlankLines(parts) != [] && NonBlankLines(parts)[0] == Strip(parts[j])
  {
    if j > 0 {
      NonBlankLinesFirst(parts[1..], j - 1);
    }
  }

  /** `[line.strip() for line in eval_text.strip().split("\n") if line.strip()]`. */
  function Lines(evalText: string): (r: seq<string>)
    ensures forall k :: 0 <= k < |r| ==> r[k] != [] && IsStripped(r[k])
  {
    NonBlankLines(Split(Strip(evalText), "\n"))
  }

  /** The line the verdict is read from: for a reply that is not blank,
      the first line of the stripped reply, itself stripped. */
  lemma LinesFirstIsFirstLine(evalText: string)
    requires !IsBlank(evalText)
    ensures var s := Strip(evalText);
      var i := FindFrom(s, "\n", 0);
      Lines(evalText) != [] && Lines(evalText)[0] == Strip(if i < 0 then s else s[..i])
  {
    var s := Strip(evalText);
    var i := FindFrom(s, "\n", 0);
    var parts := Split(s, "\n");
    assert s != [] && !IsSpace(s[0]);
    assert !OccursAt(s, "\n", 0) by { assert s[0..1][0] == s[0]; }
    var first := if i < 0 then s else s[..i];
    assert parts[0] == first;
    assert first[0] == s[0];
    NonBlankLinesFirst(parts, 0);
  }

  /** A reply has no lines exactly when it is empty or whitespace. */
  lemma LinesEmptyIffBlank(evalText: string)
    ensures Lines(evalText) == [] <==> IsBlank(evalText)
  {
    var s := Strip(evalText);
    var parts := Split(s, "\n");
    if IsBlank(evalText) {
      assert s == [];
      assert FindFrom(s, "\n", 0) == -1;
      assert parts == [[]];
    } else {
      assert s != [] && !IsSpace(s[0]);
      var i := FindFrom(s, "\n", 0);
      assert !OccursAt(s, "\n", 0) by { assert s[0..1][0] == s[0]; }
      assert !IsBlank(parts[0]) by {
        if i < 0 {
          assert parts[0] == s;
        } else {
          assert parts[0] == s[..i] && s[..i][0] == s[0];
        }
      }
    }
  }

  /** Python's `\w` on ASCII: letters, digits and the underscore. */
  predicate IsWordChar(c: char) {
    'a' <= c <= 'z' || 'A' <= c <= 'Z' || '0' <= c <= '9' || c == '_'
  }

  /** `\b([1-5])\b` matches at `p`: a digit 1-5 with no word character
      directly before or after it. */
  predicate StandaloneScoreAt(t: string, p: int) {
    0 <= p < |t| && '1' <= t[p] <= '5'
    && (p == 0 || !IsWordChar(t[p - 1]))
    && (p + 1 == |t| || !IsWordChar(t[p + 1]))
  }

  /** `re.search(r'\b([1-5])\b', t[from:])`: the leftmost match. */
  function FirstScoreFrom(t: string, from: nat): (r: Option<nat>)
    ensures r.Some? ==> from <= r.value && StandaloneScoreAt(t, r.value)
    ensures r.Some? ==> forall q :: from <= q < r.value ==> !StandaloneScoreAt(t, q)
    ensures r.None? ==> forall q :: from <= q < |t| ==> !StandaloneScoreAt(t, q)
    decreases |t| - from
  {
    if from >= |t| then None
    else if StandaloneScoreAt(t, from) then Some(from)
    else FirstScoreFrom(t, from + 1)
  }

  /** The quality score: the first standalone digit 1-5 among the reply's
      first 100 characters, or 1 when there is none. */
  function QualityScoreOf(evalText: string): (s: int)
    ensures 1 <= s <= 5
    ensures FirstScoreFrom(PyTake(evalText, 100), 0).None? ==> s == 1
  {
    var t := PyTake(evalText, 100);
    match FirstScoreFrom(t, 0)
    case Some(p) => DigitValue(t[p])
    case None => 1
  }

  /** Nothing after the first 100 characters affects the score. */
  lemma ScoreReadsFirstHundred(a: string, b: string)
    requires |a| >= 100
    ensures QualityScoreOf(a + b) == QualityScoreOf(a)
  {
    assert PyTake(a + b, 100) == PyTake(a, 100);
  }

  /** The reply format the judge is asked for: a verdict line without
      digits 1-5, then a score line. The score read is that line's digit. */
  lemma ScoreOnSecondLine(verdict: string, d: char, rest: string)
    requires |verdict| < 98
    requires forall j :: 0 <= j < |verdict| ==> !('1' <= verdict[j] <= '5')
    requires '1' <= d <= '5'
    ensures QualityScoreOf(verdict + "\n" + [d] + "\n" + rest) == DigitValue(d)
  {
    var text := verdict + "\n" + [d] + "\n" + rest;
    var t := PyTake(text, 100);
    var p := |verdict| + 1;
    assert t[p] == d && t[p - 1] == '\n' && t[p + 1] == '\n';
    assert StandaloneScoreAt(t, p);
    assert forall q :: 0 <= q < p ==> !StandaloneScoreAt(t, q) by {
      forall q | 0 <= q < p ensures !StandaloneScoreAt(t, q) {
        if q < |verdict| { assert t[q] == verdict[q]; } else { assert t[q] == '\n'; }
      }
    }
    var r := FirstScoreFrom(t, 0);
    assert r == Some(p);
  }

  /** `first_line.upper()` searched for "PASS", then for "PARTIAL". */
  function Verdict(firstLine: string): (v: (bool, bool))
    ensures !(v.0 && v.1)
    ensures v.0 <==> Contains(Upper(firstLine), "PASS")
    ensures v.1 <==> !Contains(Upper(firstLine), "PASS") && Contains(Upper(firstLine), "PARTIAL")
  {
    var u := Upper(firstLine);
    if Contains(u, "PASS") then (true, false)
    else if Contains(u, "PARTIAL") then (false, true)
    else (false, false)
  }

  /** `re.match(r'^\d$', line)` on a stripped line. */
  predicate SingleDigitLine(line: string) {
    |line| == 1 && IsDigit(line[0])
  }

  const GoodJob := "\U{2705} Good job! Your answer demonstrates understanding of the concept."
  const SomeUnderstanding := "\U{1F536} Your answer shows some understanding but could be more complete."
  const NeedsImprovement := "\U{274C} Your answer needs improvement. Please review the concept and try again."
  const UnableToEvaluate := "\U{274C} Unable to evaluate your answer. Please try again."

  /** The feedback used when nothing else could be extracted. */
  function DefaultFeedback(isCorrect: bool, isPartial: bool): (f: string)
    ensures f != []
  {
    if isCorrect then GoodJob else if isPartial then SomeUnderstanding else NeedsImprovement
  }

  /** The feedback text. `patternGroup` is the first capture of the first
      feedback regular expression that matched the reply (None when neither
      did); the fallbacks are the lines from the third on, then the lines from
      the second on without bare digits, then a verdict-specific default. */
  function Feedback(lines: seq<string>, patternGroup: Option<string>, isCorrect: bool, isPartial: bool): (f: string)
    ensures f != []
    ensures patternGroup.Some? && Strip(patternGroup.value) != [] ==> f == Strip(patternGroup.value)
    ensures (patternGroup.None? || Strip(patternGroup.value) == []) && |lines| <= 1 ==>
      f == DefaultFeedback(isCorrect, isPartial)
  {
    var f0 := if patternGroup.Some? then Strip(patternGroup.value) else "";
    var f1 := if f0 == [] && |lines| > 2 then Strip(Join("\n", lines[2..])) else f0;
    var f2 := if f1 == [] && |lines| > 1 then Strip(Join("\n", Filter(lines[1..], l => !SingleDigitLine(l)))) else f1;
    if f2 == [] then DefaultFeedback(isCorrect, isPartial) else f2
  }

  /** The result for a reply with no non-blank line. */
  const Unevaluable := EvaluationResult(false, false, 1, UnableToEvaluate, false)

  /** The result once the verdict is known. */
  function Assemble(evalText: string, lines: seq<string>, patternGroup: Option<string>, v: (bool, bool)): (r: EvaluationResult)
    requires !(v.0 && v.1)
    ensures r.isCorrect == v.0 && r.isPartial == v.1
    ensures r.countsAsCorrect == (v.0 || v.1)
    ensures r.qualityScore == QualityScoreOf(evalText)
    ensures r.feedback != []
  {
    EvaluationResult(v.0, v.1, QualityScoreOf(evalText), Feedback(lines, patternGroup, v.0, v.1), v.0 || v.1)
  }

  /** `QuizService._parse_evaluation_response`, as written. */
  function ParseEvaluation(evalText: string, patternGroup: Option<string>): (r: EvaluationResult)
    ensures Lines(evalText) == [] ==> r == Unevaluable
    ensures !(r.isCorrect && r.isPartial)
    ensures r.countsAsCorrect == (r.isCorrect || r.isPartial)
    ensures 1 <= r.qualityScore <= 5
    ensures r.feedback != []
    ensures Lines(evalText) != [] ==> r.qualityScore == QualityScoreOf(evalText)
    ensures Lines(evalText) != [] ==>
      (r.isCorrect <==> Contains(Upper(Lines(evalText)[0]), "PASS"))
    ensures Lines(evalText) != [] ==>
      (r.isPartial <==> !Contains(Upper(Lines(evalText)[0]), "PASS") && Contains(Upper(Lines(evalText)[0]), "PARTIAL"))
  {
    var lines := Lines(evalText);
    if lines == [] then Unevaluable
    else Assemble(evalText, lines, patternGroup, Verdict(lines[0]))
  }

  /** The verdict of a reply that is not blank is read from its first line:
      "PASS" anywhere in it, in any case, makes the answer correct. */
  lemma VerdictReadsFirstLine(evalText: string, patternGroup: Option<string>)
    requires !IsBlank(evalText)
    ensures var s := Strip(evalText);
      var i := FindFrom(s, "\n", 0);
      var first := Strip(if i < 0 then s else s[..i]);
      var r := ParseEvaluation(evalText, patternGroup);
      (r.isCorrect <==> Contains(Upper(first), "PASS"))
      && (r.isPartial <==> !Contains(Upper(first), "PASS") && Contains(Upper(first), "PARTIAL"))
  {
    LinesFirstIsFirstLine(evalText);
  }

  /** An empty or whitespace reply counts as wrong with score 1. */
  lemma BlankReplyIsUnevaluable(evalText: string, patternGroup: Option<string>)
    requires IsBlank(evalText)
    ensures var r := ParseEvaluation(evalText, patternGroup);
      !r.isCorrect && !r.isPartial && !r.countsAsCorrect && r.qualityScore == 1
      && r.feedback == UnableToEvaluate
  {
    LinesEmptyIffBlank(evalText);
  }

  /** The verdict the prompt's vocabulary evidently intends: "INCORRECT"
      (which contains "CORRECT") and "FAIL" mean wrong, "PARTIAL" means
      partial credit, "CORRECT" and "PASS" mean right. */
  function IntendedVerdict(firstLine: string): (v: (bool, bool))
    ensures !(v.0 && v.1)
  {
    var u := Upper(firstLine);
    if Contains(u, "INCORRECT") || Contains(u, "FAIL") then (false, false)
    else if Contains(u, "PARTIAL") then (false, true)
    else if Contains(u, "CORRECT") || Contains(u, "PASS") then (true, false)
    else (false, false)
  }

  /** How both verdict tests read the words of the two vocabularies:
      "CORRECT" is right only for the intended test. */
  lemma VerdictOfCorrect(first: string)
    requires first == "CORRECT"
    ensures Verdict(first) == (false, false)
    ensures IntendedVerdict(first) == (true, false)
  {
    UpperWithoutLower(first);
    NotContainsMissingChar(first, "PASS", 0);
    NotContainsMissingChar(first, "PARTIAL", 0);
    NotContainsLonger(first, "INCORRECT");
    NotContainsMissingChar(first, "FAIL", 0);
    ContainsSelf(first);
  }

  lemma VerdictOfIncorrect(first: string)
    requires first == "INCORRECT"
    ensures Verdict(first) == (false, false)
    ensures IntendedVerdict(first) == (false, false)
  {
    UpperWithoutLower(first);
    NotContainsMissingChar(first, "PASS", 0);
    NotContainsMissingChar(first, "PARTIAL", 0);
    ContainsSelf(first);
  }

  lemma VerdictOfPartial(first: string)
    requires first == "PARTIAL"
    ensures Verdict(first) == (false, true)
    ensures IntendedVerdict(first) == (false, true)
  {
    UpperWithoutLower(first);
    var u := Upper(first);
    NotContainsMissingChar(u, "PASS", 2);
    NotContainsLonger(u, "INCORRECT");
    NotContainsMissingChar(u, "FAIL", 0);
    ContainsSelf(u);
    assert !Contains(u, "PASS") && Contains(u, "PARTIAL");
    assert !Contains(u, "INCORRECT") && !Contains(u, "FAIL");
  }

  lemma VerdictOfPass(first: string)
    requires first == "PASS"
    ensures Verdict(first) == IntendedVerdict(first) == (true, false)
  {
    UpperWithoutLower(first);
    NotContainsLonger(first, "INCORRECT");
    NotContainsMissingChar(first, "FAIL", 0);
    NotContainsLonger(first, "PARTIAL");
    ContainsSelf(first);
  }

  lemma VerdictOfFail(first: string)
    requires first == "FAIL"
    ensures Verdict(first) == IntendedVerdict(first) == (false, false)
  {
    UpperWithoutLower(first);
    NotContainsMissingChar(first, "PASS", 0);
    NotContainsLonger(first, "PARTIAL");
    ContainsSelf(first);
  }

  /** As written, a reply whose verdict line is "CORRECT" (the first of the
      three verdicts the evaluation prompt asks the judge for) is not
      counted as correct. */
  lemma CorrectVerdictNotCounted(evalText: string, patternGroup: Option<string>)
    requires Lines(evalText) != [] && Lines(evalText)[0] == "CORRECT"
    ensures !ParseEvaluation(evalText, patternGroup).countsAsCorrect
  {
    VerdictOfCorrect(Lines(evalText)[0]);
  }

  /** The parser with the intended verdict test. */
  function ParseEvaluationIntended(evalText: string, patternGroup: Option<string>): (r: EvaluationResult)
    ensures Lines(evalText) == [] ==> r == Unevaluable
    ensures !(r.isCorrect && r.isPartial)
    ensures r.countsAsCorrect == (r.isCorrect || r.isPartial)
    ensures 1 <= r.qualityScore <= 5
  {
    var lines := Lines(evalText);
    if lines == [] then Unevaluable
    else Assemble(evalText, lines, patternGroup, IntendedVerdict(lines[0]))
  }

  /** Each verdict of the prompt's vocabulary is honoured. */
  lemma IntendedHonoursPrompt(evalText: string, patternGroup: Option<string>)
    requires Lines(evalText) != []
    ensures Lines(evalText)[0] == "CORRECT" ==>
      ParseEvaluationIntended(evalText, patternGroup).isCorrect
    ensures Lines(evalText)[0] == "INCORRECT" ==>
      !ParseEvaluationIntended(evalText, patternGroup).countsAsCorrect
    ensures Lines(evalText)[0] == "PARTIAL" ==>
      ParseEvaluationIntended(evalText, patternGroup).isPartial
  {
    var first := Lines(evalText)[0];
    if first == "CORRECT" {
      VerdictOfCorrect(first);
    } else if first == "INCORRECT" {
      VerdictOfIncorrect(first);
    } else if first == "PARTIAL" {
      VerdictOfPartial(first);
    }
  }

  /** Replies in the vocabulary the parser was written for are read the
      same way by both parsers. */
  lemma IntendedAgreesOnPassPartialFail(evalText: string, patternGroup: Option<string>)
    requires Lines(evalText) != []
    requires Lines(evalText)[0] == "PASS" || Lines(evalText)[0] == "PARTIAL" || Lines(evalText)[0] == "FAIL"
    ensures ParseEvaluationIntended(evalText, patternGroup) == ParseEvaluation(evalText, patternGroup)
  {
    var first := Lines(evalText)[0];
    if first == "PASS" {
      VerdictOfPass(first);
    } else if first == "PARTIAL" {
      VerdictOfPartial(first);
    } else {
      VerdictOfFail(first);
    }
  }

  // ---------------------------------------------------------------------
  // The running mastery update

  /** `_update_mastery`'s running average: a positive score is folded into
      a positive average weighted by the attempt count, starts the average
      when there is none yet, and a score of 0 or less leaves it alone. */
  function RunningAverage(avg: real, total: nat, q: int): (r: real)
    ensures q <= 0 ==> r == avg
    ensures q > 0 && avg <= 0.0 ==> r == q as real
    ensures q > 0 && avg > 0.0 ==> r * (total + 1) as real == avg * total as real + q as real
  {
    if q > 0 then
      (if avg > 0.0 then (avg * total as real + q as real) / (total + 1) as real else q as real)
    else avg
  }

  /** `_update_mastery`'s new record: one more attempt, one more correct
      answer exactly when correct (so `correct <= total` is kept), the
      running average, and the level recomputed from scratch by the
      calculator rather than adjusted step by step. */
  function NextMastery(cfg: MasteryConfig, m: ConceptMastery, isCorrect: bool, q: int): (n: ConceptMastery)
    ensures n.id == m.id && n.userId == m.userId && n.conceptId == m.conceptId
    ensures n.totalAttempts == m.totalAttempts + 1
    ensures n.correctAttempts == m.correctAttempts + 1 <==> isCorrect
    ensures !isCorrect ==> n.correctAttempts == m.correctAttempts
    ensures m.correctAttempts <= m.totalAttempts ==> n.correctAttempts <= n.totalAttempts
    ensures n.avgQualityScore == RunningAverage(m.avgQualityScore, m.totalAttempts, q)
    ensures n.masteryLevel == CalculateLevel(cfg, n.totalAttempts, n.correctAttempts, n.avgQualityScore).Value()
  {
    var total := m.totalAttempts + 1;
    var correct := m.correctAttempts + (if isCorrect then 1 else 0);
    var avg := RunningAverage(m.avgQualityScore, m.totalAttempts, q);
    m.(totalAttempts := total, correctAttempts := correct, avgQualityScore := avg,
       masteryLevel := CalculateLevel(cfg, total, correct, avg).Value())
  }

  /** The record a repository lookup yields: the stored one, or a fresh one
      with every default. */
  function Current(ms: map<(int, string), ConceptMastery>, key: (int, string)): (m: ConceptMastery)
    ensures key !in ms ==> m.totalAttempts == 0 && m.masteryLevel == LevelNovice
  {
    if key in ms then ms[key] else NewConceptMastery(key.0, key.1)
  }

  /** The (user, concept) key of an attempt. */
  function KeyOf(a: QuizAttempt): (int, string) {
    (a.userId, a.conceptId)
  }

  /** The attempts in `log` with key `key`, in order. */
  function AttemptsFor(log: seq<QuizAttempt>, key: (int, string)): (r: seq<QuizAttempt>)
    ensures |r| <= |log|
    ensures forall k :: 0 <= k < |r| ==> r[k] in log && KeyOf(r[k]) == key
  {
    if log == [] then []
    else
      var a := log[|log| - 1];
      AttemptsFor(log[..|log| - 1], key) + (if KeyOf(a) == key then [a] else [])
  }

  /** A stored record agrees with the statistics recomputed from a list of
      attempts. */
  predicate Agrees(m: ConceptMastery, s: MasteryStats) {
    m.totalAttempts == s.totalAttempts && m.correctAttempts == s.correctAttempts
    && m.avgQualityScore == s.avgQualityScore && m.masteryLevel == s.masteryLevel.Value()
  }

  /** A record equals what `calculate_from_attempts` computes from the
      attempts logged under its key. */
  predicate RecordMatches(cfg: MasteryConfig, m: ConceptMastery, log: seq<QuizAttempt>, key: (int, string)) {
    Agrees(m, CalculateFromAttempts(cfg, AttemptsFor(log, key)))
  }

  /** Every logged attempt has a positive score and a record. */
  predicate LogCovered(ms: map<(int, string), ConceptMastery>, log: seq<QuizAttempt>) {
    forall i :: 0 <= i < |log| ==> HasQuality(log[i]) && KeyOf(log[i]) in ms
  }

  /** The store is consistent with the log: the log is covered and every
      record matches its attempts. */
  predicate Consistent(cfg: MasteryConfig, ms: map<(int, string), ConceptMastery>, log: seq<QuizAttempt>) {
    LogCovered(ms, log) && RecordsMatch(cfg, ms, log)
  }

  predicate RecordsMatch(cfg: MasteryConfig, ms: map<(int, string), ConceptMastery>, log: seq<QuizAttempt>) {
    forall key :: key in ms ==> RecordMatches(cfg, ms[key], log, key)
  }

  /** Storing a matching record keeps every record matching. */
  lemma InsertMatching(cfg: MasteryConfig, ms: map<(int, string), ConceptMastery>, log: seq<QuizAttempt>,
                       key: (int, string), m: ConceptMastery)
    requires forall k :: k in ms && k != key ==> RecordMatches(cfg, ms[k], log, k)
    requires RecordMatches(cfg, m, log, key)
    ensures RecordsMatch(cfg, ms[key := m], log)
  {
    var ms' := ms[key := m];
    forall k | k in ms' ensures RecordMatches(cfg, ms'[k], log, k) {
      if k != key {
        assert ms'[k] == ms[k];
      }
    }
  }

  /** A key no logged attempt has has no attempts. */
  lemma {:induction false} AttemptsForAbsent(log: seq<QuizAttempt>, key: (int, string))
    requires forall i :: 0 <= i < |log| ==> KeyOf(log[i]) != key
    ensures AttemptsFor(log, key) == []
  {
    if log != [] {
      AttemptsForAbsent(log[..|log| - 1], key);
    }
  }

  /** When every attempt has a score, there is one score per attempt. */
  lemma {:induction false} QualityScoresAll(xs: seq<QuizAttempt>)
    requires forall i :: 0 <= i < |xs| ==> HasQuality(xs[i])
    ensures |QualityScores(xs)| == |xs|
  {
    if xs != [] {
      QualityScoresAll(xs[..|xs| - 1]);
    }
  }

  lemma {:induction false} SumPositive(xs: seq<int>)
    requires xs != []
    requires forall k :: 0 <= k < |xs| ==> xs[k] > 0
    ensures Sum(xs) > 0
  {
    if |xs| > 1 {
      SumPositive(xs[..|xs| - 1]);
    }
  }

  /** The record of a key no logged attempt has matches its (empty)
      attempts, whether stored or not. */
  lemma CurrentMatches(cfg: MasteryConfig, ms: map<(int, string), ConceptMastery>,
                       log: seq<QuizAttempt>, key: (int, string))
    requires Consistent(cfg, ms, log)
    ensures RecordMatches(cfg, Current(ms, key), log, key)
  {
    if key !in ms {
      assert forall i :: 0 <= i < |log| ==> KeyOf(log[i]) != key;
      AttemptsForAbsent(log, key);
      assert CalculateFromAttempts(cfg, []) == MasteryStats(0, 0, 0.0, Novice);
    }
  }

  /** A lookup keeps a consistent store consistent. */
  lemma GetOrCreateKeepsConsistent(cfg: MasteryConfig, ms: map<(int, string), ConceptMastery>,
                                   log: seq<QuizAttempt>, key: (int, string))
    requires Consistent(cfg, ms, log)
    ensures Consistent(cfg, ms[key := Current(ms, key)], log)
  {
    CurrentMatches(cfg, ms, log, key);
    InsertMatching(cfg, ms, log, key, Current(ms, key));
  }

  /** Extending a list of attempts by one scored attempt adds one attempt,
      one correct answer if it was correct, and its score. */
  lemma StatsOfExtended(cfg: MasteryConfig, xs: seq<QuizAttempt>, a: QuizAttempt)
    requires HasQuality(a)
    ensures CountCorrect(xs + [a]) == CountCorrect(xs) + (if a.isCorrect then 1 else 0)
    ensures QualityScores(xs + [a]) == QualityScores(xs) + [a.llmQualityScore.value]
  {
    assert (xs + [a])[..|xs|] == xs;
  }

  /** The mean after one more positive score, in the running form. */
  lemma MeanExtended(qs: seq<int>, q: int)
    requires forall k :: 0 <= k < |qs| ==> qs[k] > 0
    requires q > 0
    ensures Mean(qs + [q]) == RunningAverage(Mean(qs), |qs|, q)
  {
    assert Sum(qs + [q]) == Sum(qs) + q by {
      assert (qs + [q])[..|qs|] == qs;
    }
    if qs != [] {
      SumPositive(qs);
      var n := |qs| as real;
      var total := Sum(qs) as real;
      assert Mean(qs) == total / n;
      assert total / n * n == total;
      assert Mean(qs) > 0.0;
    }
  }

  /** The running update recomputes `calculate_from_attempts` on the extended
      list when the new attempt has a positive score. */
  lemma NextMasteryExtends(cfg: MasteryConfig, m: ConceptMastery, xs: seq<QuizAttempt>, a: QuizAttempt)
    requires forall i :: 0 <= i < |xs| ==> HasQuality(xs[i])
    requires HasQuality(a)
    requires Agrees(m, CalculateFromAttempts(cfg, xs))
    ensures Agrees(NextMastery(cfg, m, a.isCorrect, a.llmQualityScore.value), CalculateFromAttempts(cfg, xs + [a]))
  {
    var q := a.llmQualityScore.value;
    var ys := xs + [a];
    var qs := QualityScores(xs);
    var n := NextMastery(cfg, m, a.isCorrect, q);
    var s := CalculateFromAttempts(cfg, ys);
    StatsOfExtended(cfg, xs, a);
    QualityScoresAll(xs);
    MeanExtended(qs, q);
    assert n.totalAttempts == s.totalAttempts && n.correctAttempts == s.correctAttempts;
    assert n.avgQualityScore == s.avgQualityScore;
  }

  /** Logging an attempt with a positive score and applying the running
      update keeps the store consistent with the extended log. */
  lemma LogKeepsConsistent(cfg: MasteryConfig, ms: map<(int, string), ConceptMastery>,
                           log: seq<QuizAttempt>, a: QuizAttempt)
    requires Consistent(cfg, ms, log)
    requires HasQuality(a)
    ensures Consistent(cfg, ms[KeyOf(a) := NextMastery(cfg, Current(ms, KeyOf(a)), a.isCorrect, a.llmQualityScore.value)],
                       log + [a])
  {
    var key := KeyOf(a);
    var n := NextMastery(cfg, Current(ms, key), a.isCorrect, a.llmQualityScore.value);
    assert RecordsMatch(cfg, ms[key := n], log + [a]) by {
      OtherRecordsUnaffected(cfg, ms, log, a);
      UpdatedRecordMatches(cfg, ms, log, a);
      InsertMatching(cfg, ms, log + [a], key, n);
    }
    CoveredAfterLog(ms, log, a, n);
  }

  /** The logged attempt is scored and its key gets a record. */
  lemma CoveredAfterLog(ms: map<(int, string), ConceptMastery>, log: seq<QuizAttempt>, a: QuizAttempt, n: ConceptMastery)
    requires LogCovered(ms, log)
    requires HasQuality(a)
    ensures LogCovered(ms[KeyOf(a) := n], log + [a])
  {
    var log' := log + [a];
    var ms' := ms[KeyOf(a) := n];
    forall i | 0 <= i < |log'| ensures HasQuality(log'[i]) && KeyOf(log'[i]) in ms' {
      if i < |log| { assert log'[i] == log[i]; }
    }
  }

  /** Logging an attempt changes no other key's attempts. */
  lemma OtherRecordsUnaffected(cfg: MasteryConfig, ms: map<(int, string), ConceptMastery>,
                               log: seq<QuizAttempt>, a: QuizAttempt)
    requires RecordsMatch(cfg, ms, log)
    ensures forall k :: k in ms && k != KeyOf(a) ==> RecordMatches(cfg, ms[k], log + [a], k)
  {
    assert (log + [a])[..|log|] == log;
    forall k | k in ms && k != KeyOf(a) ensures RecordMatches(cfg, ms[k], log + [a], k) {
      assert AttemptsFor(log + [a], k) == AttemptsFor(log, k);
    }
  }

  /** The updated record of the attempt's key matches the extended log. */
  lemma UpdatedRecordMatches(cfg: MasteryConfig, ms: map<(int, string), ConceptMastery>,
                             log: seq<QuizAttempt>, a: QuizAttempt)
    requires Consistent(cfg, ms, log)
    requires HasQuality(a)
    ensures RecordMatches(cfg, NextMastery(cfg, Current(ms, KeyOf(a)), a.isCorrect, a.llmQualityScore.value),
                          log + [a], KeyOf(a))
  {
    var key := KeyOf(a);
    var xs := AttemptsFor(log, key);
    CurrentMatches(cfg, ms, log, key);
    AttemptsForScored(log, key);
    assert (log + [a])[..|log|] == log;
    assert AttemptsFor(log + [a], key) == xs + [a];
    NextMasteryExtends(cfg, Current(ms, key), xs, a);
  }

  /** The attempts of one key in a log of scored attempts are scored. */
  lemma {:induction false} AttemptsForScored(log: seq<QuizAttempt>, key: (int, string))
    requires forall i :: 0 <= i < |log| ==> HasQuality(log[i])
    ensures forall k :: 0 <= k < |AttemptsFor(log, key)| ==> HasQuality(AttemptsFor(log, key)[k])
  {
    if log != [] {
      AttemptsForScored(log[..|log| - 1], key);
    }
  }

  // ---------------------------------------------------------------------
  // Choosing the next concept

  /** The priority of a concept for quizzing (lower first): 0 never
      attempted, 1 novice, 2 learning, 3 proficient, 4 anything else. */
  function PriorityScore(m: ConceptMastery): (s: nat)
    ensures s <= 4
    ensures s == 0 <==> m.totalAttempts == 0
  {
    if m.totalAttempts == 0 then 0
    else if m.masteryLevel == LevelNovice then 1
    else if m.masteryLevel == LevelLearning then 2
    else if m.masteryLevel == LevelProficient then 3
    else 4
  }

  /** The selection reason shown for each priority. */
  function PriorityReason(s: nat): string {
    if s == 0 then "New concept"
    else if s == 1 then "Needs practice"
    else if s == 2 then "Building understanding"
    else if s == 3 then "Reinforcement"
    else "Review"
  }

  /** The priority of concept `c` for user `u` in store `ms`. */
  function Priority(ms: map<(int, string), ConceptMastery>, u: int, c: Concept): nat {
    PriorityScore(Current(ms, (u, c.id)))
  }

  /** Concept `k` has the lowest priority among `cs`. */
  predicate LowestPriority(ms: map<(int, string), ConceptMastery>, u: int, cs: seq<Concept>, k: int) {
    0 <= k < |cs| && forall j :: 0 <= j < |cs| ==> Priority(ms, u, cs[k]) <= Priority(ms, u, cs[j])
  }

  /** The quiz service with its two stores. */
  class QuizService {
    /** Mastery records by (user id, concept id). */
    var masteries: map<(int, string), ConceptMastery>
    /** Every logged quiz attempt, oldest first. */
    var attempts: seq<QuizAttempt>
    const cfg: MasteryConfig

    predicate Valid()
      reads this
    {
      Consistent(cfg, masteries, attempts)
    }

    constructor(cfg: MasteryConfig)
      ensures masteries == map[] && attempts == [] && this.cfg == cfg
      ensures Valid()
    {
      masteries := map[];
      attempts := [];
      this.cfg := cfg;
    }

    /** `MasteryRepository.get_or_create`: the stored record, or a new
        default record that is stored and returned. */
    method GetOrCreate(userId: int, conceptId: string) returns (m: ConceptMastery)
      modifies this
      ensures m == Current(old(masteries), (userId, conceptId))
      ensures masteries == old(masteries)[(userId, conceptId) := m]
      ensures attempts == old(attempts)
      ensures forall key :: Current(masteries, key) == Current(old(masteries), key)
      ensures old(Valid()) ==> Valid()
    {
      var key := (userId, conceptId);
      if old(Valid()) {
        GetOrCreateKeepsConsistent(cfg, masteries, attempts, key);
      }
      if key in masteries {
        m := masteries[key];
        assert masteries[key := m] == masteries;
      } else {
        m := NewConceptMastery(userId, conceptId);
        masteries := masteries[key := m];
      }
    }

    /** `QuizService._update_mastery`. */
    method UpdateMastery(userId: int, conceptId: string, isCorrect: bool, q: int)
      modifies this
      ensures masteries == old(masteries)[(userId, conceptId) :=
        NextMastery(cfg, Current(old(masteries), (userId, conceptId)), isCorrect, q)]
      ensures attempts == old(attempts)
    {
      var m := GetOrCreate(userId, conceptId);
      masteries := masteries[(userId, conceptId) := NextMastery(cfg, m, isCorrect, q)];
    }

    /** `QuizService.log_attempt_and_update_mastery`: log a free-form attempt
        (its quality is null unless positive), then update mastery once. A
        parsed result always has a positive score, and then the store stays
        consistent with the log. */
    method LogAttemptAndUpdateMastery(userId: int, moduleId: string, conceptId: string, question: string,
                                      userAnswer: string, correctAnswer: Option<string>, result: EvaluationResult)
      modifies this
      ensures attempts == old(attempts) + [LoggedAttempt(userId, moduleId, conceptId, question, userAnswer, correctAnswer, result)]
      ensures masteries == old(masteries)[(userId, conceptId) :=
        NextMastery(cfg, Current(old(masteries), (userId, conceptId)), result.countsAsCorrect, result.qualityScore)]
      ensures old(Valid()) && result.qualityScore > 0 ==> Valid()
    {
      var a := LoggedAttempt(userId, moduleId, conceptId, question, userAnswer, correctAnswer, result);
      if old(Valid()) && result.qualityScore > 0 {
        LogKeepsConsistent(cfg, masteries, attempts, a);
      }
      attempts := attempts + [a];
      UpdateMastery(userId, conceptId, result.countsAsCorrect, result.qualityScore);
    }

    /** `QuizService.select_concept_by_mastery`: score every concept of the
        module (creating missing records on the way), then pick any concept
        with the lowest score, together with that score's reason. */
    method SelectConceptByMastery(userId: int, courseModule: Module) returns (concept: Option<Concept>, reason: string)
      modifies this
      ensures courseModule.concepts == [] ==> concept == None && reason == ""
      ensures courseModule.concepts != [] ==>
        (exists k :: LowestPriority(old(masteries), userId, courseModule.concepts, k)
           && concept == Some(courseModule.concepts[k])
           && reason == PriorityReason(Priority(old(masteries), userId, courseModule.concepts[k])))
      ensures forall key :: Current(masteries, key) == Current(old(masteries), key)
      ensures attempts == old(attempts)
      ensures old(Valid()) ==> Valid()
    {
      var cs := courseModule.concepts;
      if cs == [] {
        return None, "";
      }
      var scores: seq<nat> := [];
      var i := 0;
      while i < |cs|
        invariant 0 <= i <= |cs| && |scores| == i
        invariant forall j :: 0 <= j < i ==> scores[j] == Priority(old(masteries), userId, cs[j])
        invariant forall key :: Current(masteries, key) == Current(old(masteries), key)
        invariant attempts == old(attempts)
        invariant old(Valid()) ==> Valid()
      {
        var m := GetOrCreate(userId, cs[i].id);
        scores := scores + [PriorityScore(m)];
        i := i + 1;
      }
      var minScore := LowestScore(scores);
      var candidates := WithScore(scores, minScore);
      var k :| k in candidates;
      concept := Some(cs[k]);
      reason := PriorityReason(scores[k]);
    }
  }

  /** The lowest of a non-empty list of scores: the first score once the
      list is sorted. */
  method LowestScore(scores: seq<nat>) returns (low: nat)
    requires scores != []
    ensures low in scores
    ensures forall j :: 0 <= j < |scores| ==> low <= scores[j]
  {
    low := scores[0];
    var i := 1;
    while i < |scores|
      invariant 1 <= i <= |scores|
      invariant low in scores[..i]
      invariant forall j :: 0 <= j < i ==> low <= scores[j]
    {
      if scores[i] < low {
        low := scores[i];
      }
      i := i + 1;
    }
  }

  /** The positions whose score is `s`, in order: the candidates of the
      random choice. */
  method WithScore(scores: seq<nat>, s: nat) returns (positions: seq<nat>)
    ensures forall k :: 0 <= k < |positions| ==> positions[k] < |scores| && scores[positions[k]] == s
    ensures forall j :: 0 <= j < |scores| && scores[j] == s ==> j in positions
  {
    positions := [];
    var i := 0;
    while i < |scores|
      invariant 0 <= i <= |scores|
      invariant forall k :: 0 <= k < |positions| ==> positions[k] < i && scores[positions[k]] == s
      invariant forall j :: 0 <= j < i && scores[j] == s ==> j in positions
    {
      if scores[i] == s {
        positions := positions + [i];
      }
      i := i + 1;
    }
  }

  /** The record `log_attempt` stores for a free-form answer. */
  function LoggedAttempt(userId: int, moduleId: string, conceptId: string, question: string,
                         userAnswer: string, correctAnswer: Option<string>, result: EvaluationResult): (a: QuizAttempt)
    ensures a.quizFormat == "free-form" && a.isCorrect == result.countsAsCorrect
    ensures a.llmFeedback == Some(result.feedback)
    ensures HasQuality(a) <==> result.qualityScore > 0
    ensures a.llmQualityScore.Some? ==> a.llmQualityScore.value == result.qualityScore
    ensures KeyOf(a) == (userId, conceptId)
  {
    QuizAttempt(None, userId, moduleId, conceptId, "free-form", question, userAnswer, correctAnswer,
                result.countsAsCorrect, Some(result.feedback),
                if result.qualityScore > 0 then Some(result.qualityScore) else None)
  }

  /** A parsed result always carries a positive score, so logging it keeps
      the store consistent, whichever verdict test the parser uses. */
  lemma ParsedResultKeepsConsistent(cfg: MasteryConfig, ms: map<(int, string), ConceptMastery>, log: seq<QuizAttempt>,
                                    evalText: string, patternGroup: Option<string>,
                                    userId: int, moduleId: string, conceptId: string, question: string,
                                    userAnswer: string, correctAnswer: Option<string>)
    requires Consistent(cfg, ms, log)
    ensures var r := ParseEvaluation(evalText, patternGroup);
      var a := LoggedAttempt(userId, moduleId, conceptId, question, userAnswer, correctAnswer, r);
      Consistent(cfg, ms[(userId, conceptId) := NextMastery(cfg, Current(ms, (userId, conceptId)), r.countsAsCorrect, r.qualityScore)],
                 log + [a])
    ensures var r := ParseEvaluationIntended(evalText, patternGroup);
      var a := LoggedAttempt(userId, moduleId, conceptId, question, userAnswer, correctAnswer, r);
      Consistent(cfg, ms[(userId, conceptId) := NextMastery(cfg, Current(ms, (userId, conceptId)), r.countsAsCorrect, r.qualityScore)],
                 log + [a])
  {
    var r := ParseEvaluation(evalText, patternGroup);
    var a := LoggedAttempt(userId, moduleId, conceptId, question, userAnswer, correctAnswer, r);
    LogKeepsConsistent(cfg, ms, log, a);
    var r' := ParseEvaluationIntended(evalText, patternGroup);
    var a' := LoggedAttempt(userId, moduleId, conceptId, question, userAnswer, correctAnswer, r');
    LogKeepsConsistent(cfg, ms, log, a');
  }
}
