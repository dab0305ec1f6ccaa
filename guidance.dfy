/** Grading guidance: how many more attempts, correct answers and LLM-quiz
    wins a student needs before each concept and each module counts as
    complete (chibi/services/guidance_service.py). Ratios and products with
    0.6 are exact rationals. */
module Guidance {
  import opened Wrappers
  import opened Text
  import opened Seqs
  import opened Models
  import opened Course
  import opened Mastery

  const RatioProficient: real := 0.6
  const RatioMastered: real := 0.85
  const QualityMastered: real := 4.0

  /** `n` is the least integer at or above `x`. */
  predicate IsCeil(x: real, n: int) {
    x <= n as real && (n - 1) as real < x
  }

  /** `math.ceil` of an exact rational. */
  function Ceil(x: real): (n: int)
    ensures IsCeil(x, n)
  {
    -((-x).Floor)
  }

  /** `max(0, n)`. */
  function AtLeastZero(n: int): (r: nat)
    ensures r >= n && (n > 0 ==> r == n)
  {
    if n > 0 then n else 0
  }

  /** Which guidance sentence is shown, with the numbers it quotes. */
  datatype Advice =
    | StartPracticing(minAttempts: int)
    | ConceptComplete
    | NeedMoreCorrect(attemptsNeeded: int, correctNeeded: int)
    | CompleteWithGoodAnswers(attemptsNeeded: int, correct: int, total: int)
    | AnswerInARow(count: int, accuracy: real)
    | ImproveQuality(accuracy: real, quality: real)
    | KeepPracticing(total: int, accuracy: real)
    | ChallengeComplete
    | StartChallenge(target: int)
    | WinMore(winsNeeded: int, wins: int, target: int)

  /** The triple `_calculate_requirements` returns. */
  datatype Requirements = Requirements(attempts: int, correct: int, advice: Advice)

  /** Correct answers that make up 60% of `minAttempts`. */
  function TargetCorrect(minAttempts: int): int {
    Ceil(minAttempts as real * RatioProficient)
  }

  /** The shortfall below 60% accuracy, in answers. */
  function Deficit(total: int, correct: int): real {
    RatioProficient * total as real - correct as real
  }

  /** `GuidanceService._calculate_requirements`: what a started but incomplete
      concept still needs to reach proficient. */
  function CalculateRequirements(minAttempts: int, total: int, correct: int,
                                 accuracy: real, quality: real): (r: Requirements)
    ensures r.attempts >= 1 && r.correct >= 0
  {
    if total < minAttempts then
      var attemptsNeeded := minAttempts - total;
      var correctNeeded := AtLeastZero(TargetCorrect(minAttempts) - correct);
      var advice := if correctNeeded > attemptsNeeded then NeedMoreCorrect(attemptsNeeded, correctNeeded)
                    else CompleteWithGoodAnswers(attemptsNeeded, correct, total);
      Requirements(attemptsNeeded, correctNeeded, advice)
    else if accuracy < RatioProficient && Deficit(total, correct) > 0.0 then
      var n := Ceil(Deficit(total, correct) / (1.0 - RatioProficient));
      Requirements(n, n, AnswerInARow(n, accuracy))
    else if accuracy >= RatioMastered && quality < QualityMastered && quality > 0.0 then
      Requirements(1, 1, ImproveQuality(accuracy, quality))
    else
      Requirements(1, 1, KeepPracticing(total, accuracy))
  }

  /** Below the minimum number of attempts: the missing attempts, and the
      correct answers still missing from ⌈0.6·min⌉, never negative. */
  lemma BelowMinimumRequirements(minAttempts: int, total: int, correct: int, accuracy: real, quality: real)
    requires total < minAttempts
    ensures var r := CalculateRequirements(minAttempts, total, correct, accuracy, quality);
      r.attempts == minAttempts - total
      && (correct >= TargetCorrect(minAttempts) ==> r.correct == 0)
      && (correct < TargetCorrect(minAttempts) ==> correct + r.correct == TargetCorrect(minAttempts))
      && IsCeil(0.6 * minAttempts as real, TargetCorrect(minAttempts))
  {
  }

  /** Doing what the below-minimum advice asks, when it fits in the missing
      attempts, lifts the ratio to 60% at exactly the minimum. */
  lemma BelowMinimumAdviceSuffices(minAttempts: int, total: int, correct: int, accuracy: real, quality: real)
    requires 0 <= total < minAttempts
    requires var r := CalculateRequirements(minAttempts, total, correct, accuracy, quality);
      r.correct <= r.attempts
    ensures var r := CalculateRequirements(minAttempts, total, correct, accuracy, quality);
      Ratio(correct + r.correct, total + r.attempts) >= RatioProficient
  {
    var r := CalculateRequirements(minAttempts, total, correct, accuracy, quality);
    assert total + r.attempts == minAttempts;
    assert 5 * (correct + r.correct) >= 3 * minAttempts by {
      assert (correct + r.correct) as real >= minAttempts as real * 0.6;
    }
    RatioAtLeast(correct + r.correct, minAttempts, 3, 5);
  }

  /** The low-accuracy branch: `n = ⌈(0.6·T − C) / 0.4⌉` more correct answers
      in a row. */
  lemma LowAccuracyRequirements(minAttempts: int, total: int, correct: int, accuracy: real, quality: real)
    requires minAttempts <= total
    requires accuracy < RatioProficient && Deficit(total, correct) > 0.0
    ensures var r := CalculateRequirements(minAttempts, total, correct, accuracy, quality);
      r.attempts == r.correct && r.advice == AnswerInARow(r.correct, accuracy)
      && IsCeil(Deficit(total, correct) / 0.4, r.correct)
  {
  }

  /** `n` more correct answers in a row bring `correct` of `total` to 60%,
      and one fewer would not: the bound is tight. */
  lemma {:induction false} AnswerInARowReachesProficient(total: int, correct: int, n: int)
    requires total > 0
    requires IsCeil(Deficit(total, correct) / 0.4, n)
    ensures 5 * (correct + n) >= 3 * (total + n)
    ensures 5 * (correct + n - 1) < 3 * (total + n - 1)
  {
    var d := Deficit(total, correct);
    assert 0.4 * n as real >= d by {
      assert d / 0.4 <= n as real;
    }
    assert 0.4 * (n - 1) as real < d by {
      assert (n - 1) as real < d / 0.4;
    }
  }

  /** The same, as ratios: `(C + n) / (T + n) ≥ 0.6`, and `(C + n − 1) /
      (T + n − 1) < 0.6`, which is why the advice asks for exactly `n`. */
  lemma LowAccuracyAdviceIsTight(minAttempts: int, total: int, correct: int, accuracy: real, quality: real)
    requires 0 < total && minAttempts <= total
    requires accuracy < RatioProficient && Deficit(total, correct) > 0.0
    ensures var n := CalculateRequirements(minAttempts, total, correct, accuracy, quality).correct;
      Ratio(correct + n, total + n) >= RatioProficient
      && Ratio(correct + n - 1, total + n - 1) < RatioProficient
  {
    var n := CalculateRequirements(minAttempts, total, correct, accuracy, quality).correct;
    LowAccuracyRequirements(minAttempts, total, correct, accuracy, quality);
    AnswerInARowReachesProficient(total, correct, n);
    RatioAtLeast(correct + n, total + n, 3, 5);
    RatioAtLeast(correct + n - 1, total + n - 1, 3, 5);
  }

  /** With the calculator's proficient threshold at 0.6, answering the
      advised number in a row makes the concept proficient or mastered,
      whatever the quality average is by then. */
  lemma LowAccuracyAdviceCompletes(cfg: MasteryConfig, total: int, correct: int, accuracy: real,
                                   quality: real, laterQuality: real)
    requires cfg.proficientRatio == RatioProficient
    requires 0 < total && cfg.minAttemptsForMastery <= total
    requires accuracy < RatioProficient && Deficit(total, correct) > 0.0
    ensures var n := CalculateRequirements(cfg.minAttemptsForMastery, total, correct, accuracy, quality).correct;
      CalculateLevel(cfg, total + n, correct + n, laterQuality) in {Proficient, Mastered}
  {
    LowAccuracyAdviceIsTight(cfg.minAttemptsForMastery, total, correct, accuracy, quality);
  }

  /** Every other case asks for one more attempt with one correct answer. */
  lemma OtherCasesNeedOne(minAttempts: int, total: int, correct: int, accuracy: real, quality: real)
    requires minAttempts <= total
    requires !(accuracy < RatioProficient && Deficit(total, correct) > 0.0)
    ensures var r := CalculateRequirements(minAttempts, total, correct, accuracy, quality);
      r.attempts == 1 && r.correct == 1
      && (r.advice.ImproveQuality? <==> accuracy >= RatioMastered && 0.0 < quality < QualityMastered)
  {
  }

  /** `ConceptGuidance`: one concept's standing and what it still needs. */
  datatype ConceptGuidance = ConceptGuidance(
    conceptId: string,
    conceptName: string,
    currentLevel: string,
    currentAttempts: int,
    currentCorrect: int,
    currentAccuracy: real,   // a percentage
    currentQuality: real,
    isComplete: bool,
    needsAttempts: int,
    needsCorrect: int,
    needsQualityImprovement: bool,
    advice: Advice)

  /** `mastery.mastery_level or MASTERY_NOVICE`. */
  function LevelOrNovice(level: string): string {
    if level == "" then LevelNovice else level
  }

  /** `GuidanceService._generate_concept_guidance`; `byConcept` is the
      student's mastery records keyed by concept id. */
  function ConceptGuidanceOf(minAttempts: int, concept: Concept,
                             byConcept: map<string, ConceptMastery>): (g: ConceptGuidance)
    ensures g.conceptId == concept.id && g.conceptName == concept.name
    ensures concept.id !in byConcept ==>
      g.currentLevel == LevelNovice && !g.isComplete && g.currentAttempts == 0
      && g.needsAttempts == minAttempts && IsCeil(0.6 * minAttempts as real, g.needsCorrect)
    ensures concept.id in byConcept ==>
      (g.isComplete <==> byConcept[concept.id].masteryLevel in {LevelProficient, LevelMastered})
    ensures g.isComplete ==> g.needsAttempts == 0 && g.needsCorrect == 0 && !g.needsQualityImprovement
    ensures concept.id in byConcept && !g.isComplete ==>
      var m := byConcept[concept.id];
      var acc := Ratio(m.correctAttempts, m.totalAttempts);
      var r := CalculateRequirements(minAttempts, m.totalAttempts, m.correctAttempts, acc, m.avgQualityScore);
      g.needsAttempts == r.attempts && g.needsCorrect == r.correct && g.advice == r.advice
      && (g.needsQualityImprovement <==>
            acc >= RatioMastered && 0.0 < m.avgQualityScore < QualityMastered)
  {
    if concept.id !in byConcept then
      ConceptGuidance(concept.id, concept.name, LevelNovice, 0, 0, 0.0, 0.0, false,
                      minAttempts, TargetCorrect(minAttempts), false, StartPracticing(minAttempts))
    else
      var m := byConcept[concept.id];
      var level := LevelOrNovice(m.masteryLevel);
      var accuracy := Ratio(m.correctAttempts, m.totalAttempts);
      var quality := m.avgQualityScore;
      if level == LevelProficient || level == LevelMastered then
        ConceptGuidance(concept.id, concept.name, level, m.totalAttempts, m.correctAttempts,
                        accuracy * 100.0, quality, true, 0, 0, false, ConceptComplete)
      else
        var r := CalculateRequirements(minAttempts, m.totalAttempts, m.correctAttempts, accuracy, quality);
        var needsQuality := accuracy >= RatioMastered && quality < QualityMastered && quality > 0.0;
        ConceptGuidance(concept.id, concept.name, level, m.totalAttempts, m.correctAttempts,
                        accuracy * 100.0, quality, false, r.attempts, r.correct, needsQuality, r.advice)
  }

  /** An incomplete concept always asks for at least one more attempt. */
  lemma IncompleteNeedsAnAttempt(minAttempts: int, concept: Concept, byConcept: map<string, ConceptMastery>)
    requires minAttempts >= 1
    ensures var g := ConceptGuidanceOf(minAttempts, concept, byConcept);
      !g.isComplete <==> g.needsAttempts >= 1
  {
  }

  /** `LLMQuizGuidance`: progress in the stump-the-AI challenge of a module. */
  datatype LLMQuizGuidance = LLMQuizGuidance(
    moduleId: string,
    moduleName: string,
    currentWins: int,
    targetWins: int,
    isComplete: bool,
    winsNeeded: int,
    advice: Advice)

  /** `GuidanceService._generate_llm_quiz_guidance`; `progress` maps a module
      id to (wins, target) and `defaultTarget` is the challenge's target for
      a module without an entry. */
  function QuizGuidanceOf(moduleId: string, moduleName: string, progress: map<string, (int, int)>,
                          defaultTarget: int): (g: LLMQuizGuidance)
    ensures g.moduleId == moduleId && g.moduleName == moduleName
    ensures moduleId in progress ==> (g.currentWins, g.targetWins) == progress[moduleId]
    ensures moduleId !in progress ==> g.currentWins == 0 && g.targetWins == defaultTarget
    ensures g.isComplete <==> g.currentWins >= g.targetWins
    ensures g.winsNeeded >= 0
    ensures g.isComplete <==> g.winsNeeded == 0
  {
    var (wins, target) := if moduleId in progress then progress[moduleId] else (0, defaultTarget);
    var isComplete := wins >= target;
    var winsNeeded := AtLeastZero(target - wins);
    var advice := if isComplete then ChallengeComplete
                  else if wins == 0 then StartChallenge(target)
                  else WinMore(winsNeeded, wins, target);
    LLMQuizGuidance(moduleId, moduleName, wins, target, isComplete, winsNeeded, advice)
  }

  /** `wins_needed` more wins complete the challenge, and no fewer do. */
  lemma WinsNeededIsExact(moduleId: string, moduleName: string, progress: map<string, (int, int)>,
                          defaultTarget: int, k: int)
    requires 0 <= k
    ensures var g := QuizGuidanceOf(moduleId, moduleName, progress, defaultTarget);
      g.currentWins + k >= g.targetWins <==> k >= g.winsNeeded
  {
  }

  /** The concept guidance of a module's concepts, in order. */
  function ConceptGuidances(minAttempts: int, concepts: seq<Concept>,
                            byConcept: map<string, ConceptMastery>): (gs: seq<ConceptGuidance>)
    ensures |gs| == |concepts|
  {
    if concepts == [] then []
    else ConceptGuidances(minAttempts, concepts[..|concepts| - 1], byConcept)
         + [ConceptGuidanceOf(minAttempts, concepts[|concepts| - 1], byConcept)]
  }

  /** The guidance of the `i`-th concept is that concept's own guidance. */
  lemma {:induction false} ConceptGuidancesAt(minAttempts: int, concepts: seq<Concept>,
                                              byConcept: map<string, ConceptMastery>, i: nat)
    requires i < |concepts|
    ensures ConceptGuidances(minAttempts, concepts, byConcept)[i]
      == ConceptGuidanceOf(minAttempts, concepts[i], byConcept)
  {
    if i < |concepts| - 1 {
      var front := concepts[..|concepts| - 1];
      ConceptGuidancesAt(minAttempts, front, byConcept, i);
      assert front[i] == concepts[i];
    }
  }

  /** Extending the concepts by one appends that concept's guidance. */
  lemma GuidancesStep(minAttempts: int, concepts: seq<Concept>, byConcept: map<string, ConceptMastery>, i: nat)
    requires i < |concepts|
    ensures ConceptGuidances(minAttempts, concepts[..i + 1], byConcept)
      == ConceptGuidances(minAttempts, concepts[..i], byConcept) + [ConceptGuidanceOf(minAttempts, concepts[i], byConcept)]
  {
    assert concepts[..i + 1][..i] == concepts[..i];
  }

  /** Number of complete concepts. */
  function CountComplete(gs: seq<ConceptGuidance>): (n: nat)
    ensures n <= |gs|
    ensures n == |gs| <==> forall i :: 0 <= i < |gs| ==> gs[i].isComplete
  {
    if gs == [] then 0
    else CountComplete(gs[..|gs| - 1]) + (if gs[|gs| - 1].isComplete then 1 else 0)
  }

  /** `complete / total * 100`, or `whenEmpty` when there is nothing to count. */
  function Percentage(complete: nat, total: nat, whenEmpty: real): (p: real)
    ensures total > 0 ==> p * total as real == complete as real * 100.0
    ensures total == 0 ==> p == whenEmpty
    ensures complete <= total && 0.0 <= whenEmpty <= 100.0 ==> 0.0 <= p <= 100.0
    ensures 0 < total == complete ==> p == 100.0
  {
    if total > 0 then complete as real / total as real * 100.0 else whenEmpty
  }

  /** One sentence of a module summary. */
  datatype SummaryPart =
    | AllConceptsComplete(total: int)
    | ConceptsNeedPractice(incomplete: int)
    | FocusOn(conceptName: string, needsCorrect: int)
    | ChallengeWinsNeeded(winsNeeded: int)
    | ChallengeDone

  /** The sentence as it appears in the summary. */
  function SummarySentence(p: SummaryPart): string {
    match p
    case AllConceptsComplete(t) => "All " + IntToString(t) + " concepts mastered!"
    case ConceptsNeedPractice(n) => IntToString(n) + " concept(s) need more practice."
    case FocusOn(name, n) => "Focus on '" + name + "' - only " + IntToString(n) + " more correct answer(s) needed."
    case ChallengeWinsNeeded(n) => "LLM Quiz: " + IntToString(n) + " more win(s) needed."
    case ChallengeDone => "LLM Quiz: Complete!"
  }

  function SummarySentences(parts: seq<SummaryPart>): (r: seq<string>)
    ensures |r| == |parts|
  {
    if parts == [] then [] else [SummarySentence(parts[0])] + SummarySentences(parts[1..])
  }

  /** The incomplete concepts, in order. */
  function IncompleteConcepts(gs: seq<ConceptGuidance>): (r: seq<ConceptGuidance>)
    ensures forall i :: 0 <= i < |r| ==> r[i] in gs && !r[i].isComplete
    ensures forall i :: 0 <= i < |gs| && !gs[i].isComplete ==> gs[i] in r
  {
    Filter(gs, (g: ConceptGuidance) => !g.isComplete)
  }

  /** The first element after a stable sort by `needs_correct`: the earliest
      of those needing the fewest correct answers. */
  function ClosestIndex(gs: seq<ConceptGuidance>): (k: nat)
    requires gs != []
    ensures k < |gs|
    ensures forall j :: 0 <= j < |gs| ==> gs[k].needsCorrect <= gs[j].needsCorrect
    ensures forall j :: 0 <= j < k ==> gs[j].needsCorrect > gs[k].needsCorrect
  {
    if |gs| == 1 then 0
    else
      var k := ClosestIndex(gs[1..]);
      if gs[0].needsCorrect <= gs[1..][k].needsCorrect then 0 else k + 1
  }

  /** The parts `_generate_module_summary` joins with spaces. */
  function SummaryParts(complete: int, total: int, gs: seq<ConceptGuidance>,
                        llm: LLMQuizGuidance): (parts: seq<SummaryPart>)
    ensures 2 <= |parts| <= 3
    ensures complete == total <==> parts[0] == AllConceptsComplete(total)
    ensures complete != total ==> parts[0] == ConceptsNeedPractice(total - complete)
    ensures parts[|parts| - 1] == (if llm.isComplete then ChallengeDone else ChallengeWinsNeeded(llm.winsNeeded))
    ensures |parts| == 3 ==> complete != total && exists c :: (c in gs && !c.isComplete
      && parts[1] == FocusOn(c.conceptName, c.needsCorrect)
      && forall d :: d in gs && !d.isComplete ==> c.needsCorrect <= d.needsCorrect)
  {
    var head :=
      if complete == total then [AllConceptsComplete(total)]
      else
        var incomplete := IncompleteConcepts(gs);
        [ConceptsNeedPractice(total - complete)]
        + if incomplete == [] then []
          else
            var c := incomplete[ClosestIndex(incomplete)];
            [FocusOn(c.conceptName, c.needsCorrect)];
    head + [if llm.isComplete then ChallengeDone else ChallengeWinsNeeded(llm.winsNeeded)]
  }

  /** With an incomplete concept and a count that says so, the summary names
      the concept to focus on. */
  lemma SummaryNamesAFocus(complete: int, total: int, gs: seq<ConceptGuidance>, llm: LLMQuizGuidance)
    requires complete == CountComplete(gs) && total == |gs|
    requires exists i :: 0 <= i < |gs| && !gs[i].isComplete
    ensures |SummaryParts(complete, total, gs, llm)| == 3
  {
    var i :| 0 <= i < |gs| && !gs[i].isComplete;
    assert gs[i] in IncompleteConcepts(gs);
  }

  /** `GuidanceService._generate_module_summary`. */
  function ModuleSummary(complete: int, total: int, gs: seq<ConceptGuidance>, llm: LLMQuizGuidance): string {
    Join(" ", SummarySentences(SummaryParts(complete, total, gs, llm)))
  }

  /** `ModuleGuidance`. The challenge guidance is always present. */
  datatype ModuleGuidance = ModuleGuidance(
    moduleId: string,
    moduleName: string,
    completionPercentage: real,
    conceptsComplete: nat,
    conceptsTotal: nat,
    conceptGuidance: seq<ConceptGuidance>,
    llmQuizGuidance: LLMQuizGuidance,
    summary: string)

  /** What `_generate_module_guidance` returns for a module. */
  function ModuleGuidanceOf(minAttempts: int, m: Module, byConcept: map<string, ConceptMastery>,
                            progress: map<string, (int, int)>, defaultTarget: int): (g: ModuleGuidance)
    ensures g.conceptsComplete <= g.conceptsTotal
  {
    var gs := ConceptGuidances(minAttempts, m.concepts, byConcept);
    var complete := CountComplete(gs);
    var llm := QuizGuidanceOf(m.id, m.name, progress, defaultTarget);
    ModuleGuidance(m.id, m.name, Percentage(complete, |m.concepts|, 100.0), complete, |m.concepts|,
                   gs, llm, ModuleSummary(complete, |m.concepts|, gs, llm))
  }

  /** A module's report: every concept's guidance in order, the count of
      complete ones (all of them exactly when every concept is complete),
      the completion percentage (100 for a module without concepts) and the
      challenge's guidance. */
  lemma ModuleGuidanceFacts(minAttempts: int, m: Module, byConcept: map<string, ConceptMastery>,
                            progress: map<string, (int, int)>, defaultTarget: int)
    ensures var g := ModuleGuidanceOf(minAttempts, m, byConcept, progress, defaultTarget);
      g.moduleId == m.id && g.moduleName == m.name
      && g.conceptsTotal == |m.concepts| && |g.conceptGuidance| == |m.concepts|
      && (forall i :: 0 <= i < |m.concepts| ==>
            g.conceptGuidance[i] == ConceptGuidanceOf(minAttempts, m.concepts[i], byConcept))
      && (g.conceptsComplete == g.conceptsTotal <==>
            forall i :: 0 <= i < |m.concepts| ==> g.conceptGuidance[i].isComplete)
      && g.completionPercentage == Percentage(g.conceptsComplete, g.conceptsTotal, 100.0)
      && 0.0 <= g.completionPercentage <= 100.0
      && g.llmQuizGuidance == QuizGuidanceOf(m.id, m.name, progress, defaultTarget)
  {
    var g := ModuleGuidanceOf(minAttempts, m, byConcept, progress, defaultTarget);
    forall i | 0 <= i < |m.concepts|
      ensures g.conceptGuidance[i] == ConceptGuidanceOf(minAttempts, m.concepts[i], byConcept)
    {
      ConceptGuidancesAt(minAttempts, m.concepts, byConcept, i);
    }
  }

  /** `GuidanceService._generate_module_guidance`: one pass over the
      concepts, counting the complete ones. */
  method GenerateModuleGuidance(minAttempts: int, m: Module, byConcept: map<string, ConceptMastery>,
                                progress: map<string, (int, int)>, defaultTarget: int)
    returns (g: ModuleGuidance)
    ensures g == ModuleGuidanceOf(minAttempts, m, byConcept, progress, defaultTarget)
  {
    var gs, complete := GuideConcepts(minAttempts, m.concepts, byConcept);
    var llm := QuizGuidanceOf(m.id, m.name, progress, defaultTarget);
    var completion := Percentage(complete, |m.concepts|, 100.0);
    var summary := ModuleSummary(complete, |m.concepts|, gs, llm);
    g := ModuleGuidance(m.id, m.name, completion, complete, |m.concepts|, gs, llm, summary);
  }

  /** The concept loop of `_generate_module_guidance`. */
  method GuideConcepts(minAttempts: int, concepts: seq<Concept>, byConcept: map<string, ConceptMastery>)
    returns (gs: seq<ConceptGuidance>, complete: nat)
    ensures gs == ConceptGuidances(minAttempts, concepts, byConcept)
    ensures complete == CountComplete(gs)
  {
    gs, complete := [], 0;
    for i := 0 to |concepts|
      invariant gs == ConceptGuidances(minAttempts, concepts[..i], byConcept)
      invariant complete == CountComplete(gs)
    {
      var cg := ConceptGuidanceOf(minAttempts, concepts[i], byConcept);
      GuidancesStep(minAttempts, concepts, byConcept, i);
      gs := gs + [cg];
      if cg.isComplete {
        complete := complete + 1;
      }
    }
    assert concepts[..|concepts|] == concepts;
  }

  /** The student's mastery records keyed by concept id, as the dictionary
      comprehension over the rows builds it: a later row wins. */
  function ByConcept(records: seq<ConceptMastery>): (r: map<string, ConceptMastery>)
    ensures forall k :: k in r ==> r[k].conceptId == k && r[k] in records
    ensures forall i :: 0 <= i < |records| ==> records[i].conceptId in r
    ensures records != [] ==> r[records[|records| - 1].conceptId] == records[|records| - 1]
  {
    if records == [] then map[]
    else
      var last := records[|records| - 1];
      ByConcept(records[..|records| - 1])[last.conceptId := last]
  }

  /** The modules `get_guidance` reports on: all of them when no module id
      is given (or it is empty), else the one with that id, if any. */
  function ModulesToAnalyze(c: CourseInfo, moduleId: string): (r: seq<Module>)
    ensures moduleId == "" ==> r == c.modules
    ensures moduleId != "" ==> |r| <= 1
    ensures moduleId != "" ==>
      (r == [] <==> forall i :: 0 <= i < |c.modules| ==> c.modules[i].id != moduleId)
    ensures moduleId != "" ==> forall i :: 0 <= i < |r| ==> r[i].id == moduleId && r[i] in c.modules
  {
    if moduleId == "" then c.modules
    else
      match GetModule(c, moduleId)
      case Some(m) => [m]
      case None => []
  }

  /** The guidance of each analysed module, in order. */
  function ModuleGuidances(minAttempts: int, modules: seq<Module>, byConcept: map<string, ConceptMastery>,
                           progress: map<string, (int, int)>, defaultTarget: int): (gs: seq<ModuleGuidance>)
    ensures |gs| == |modules|
  {
    if modules == [] then []
    else ModuleGuidances(minAttempts, modules[..|modules| - 1], byConcept, progress, defaultTarget)
         + [ModuleGuidanceOf(minAttempts, modules[|modules| - 1], byConcept, progress, defaultTarget)]
  }

  /** A line of the priority list: a concept's advice, or a module's
      challenge advice, tagged with the module's name. */
  datatype PriorityAction =
    | ConceptAction(moduleName: string, conceptName: string, advice: Advice)
    | ChallengeAction(moduleName: string, advice: Advice)

  /** One action per incomplete concept, in order. */
  function ConceptActions(moduleName: string, gs: seq<ConceptGuidance>): (r: seq<PriorityAction>)
    ensures |r| == |IncompleteConcepts(gs)|
    ensures forall i :: 0 <= i < |r| ==> r[i].ConceptAction? && r[i].moduleName == moduleName
  {
    if gs == [] then []
    else
      (if !gs[0].isComplete then [ConceptAction(moduleName, gs[0].conceptName, gs[0].advice)] else [])
      + ConceptActions(moduleName, gs[1..])
  }

  /** The actions one module contributes: its incomplete concepts, then its
      challenge when that is not complete. */
  function ModuleActions(g: ModuleGuidance): (r: seq<PriorityAction>)
    ensures (r != [] && r[|r| - 1].ChallengeAction?) <==> !g.llmQuizGuidance.isComplete
    ensures forall i :: 0 <= i < |r| - 1 ==> r[i].ConceptAction?
    ensures forall i :: 0 <= i < |r| ==> r[i].moduleName == g.moduleName
  {
    ConceptActions(g.moduleName, g.conceptGuidance)
    + if g.llmQuizGuidance.isComplete then [] else [ChallengeAction(g.moduleName, g.llmQuizGuidance.advice)]
  }

  /** Every module's actions, module by module. */
  function AllActions(gs: seq<ModuleGuidance>): seq<PriorityAction> {
    if gs == [] then [] else AllActions(gs[..|gs| - 1]) + ModuleActions(gs[|gs| - 1])
  }

  /** Complete concepts over all analysed modules. */
  function TotalComplete(gs: seq<ModuleGuidance>): nat {
    if gs == [] then 0 else TotalComplete(gs[..|gs| - 1]) + gs[|gs| - 1].conceptsComplete
  }

  /** Concepts over all analysed modules. */
  function TotalConcepts(gs: seq<ModuleGuidance>): nat {
    if gs == [] then 0 else TotalConcepts(gs[..|gs| - 1]) + gs[|gs| - 1].conceptsTotal
  }

  /** No module reports more complete concepts than it has, so neither does
      the total. */
  lemma {:induction false} TotalCompleteBounded(gs: seq<ModuleGuidance>)
    requires forall i :: 0 <= i < |gs| ==> gs[i].conceptsComplete <= gs[i].conceptsTotal
    ensures TotalComplete(gs) <= TotalConcepts(gs)
  {
    if gs != [] {
      TotalCompleteBounded(gs[..|gs| - 1]);
    }
  }

  /** `GradingGuidance`. */
  datatype GradingGuidance = GradingGuidance(
    userId: int,
    overallCompletion: real,
    modules: seq<ModuleGuidance>,
    priorityActions: seq<PriorityAction>)

  /** `GuidanceService.get_guidance`: a report per analysed module, the
      overall completion over all their concepts, and the first five
      actions. `records` are the student's mastery rows, `progress` the
      challenge's (wins, target) by module id. */
  method GetGuidance(minAttempts: int, course: CourseInfo, userId: int, moduleId: string,
                     records: seq<ConceptMastery>, progress: map<string, (int, int)>, defaultTarget: int)
    returns (g: GradingGuidance)
    ensures g.userId == userId
    ensures g.modules == ModuleGuidances(minAttempts, ModulesToAnalyze(course, moduleId),
                                         ByConcept(records), progress, defaultTarget)
    ensures g.overallCompletion == Percentage(TotalComplete(g.modules), TotalConcepts(g.modules), 0.0)
    ensures 0.0 <= g.overallCompletion <= 100.0
    ensures g.priorityActions == PyTake(AllActions(g.modules), 5)
    ensures |g.priorityActions| <= 5
  {
    var byConcept := ByConcept(records);
    var targets := ModulesToAnalyze(course, moduleId);
    var modules, totalComplete, totalConcepts, actions := GuideModules(minAttempts, targets, byConcept, progress, defaultTarget);
    var overall := Percentage(totalComplete, totalConcepts, 0.0);
    g := GradingGuidance(userId, overall, modules, PyTake(actions, 5));
  }

  /** The module loop of `get_guidance`. */
  method GuideModules(minAttempts: int, targets: seq<Module>, byConcept: map<string, ConceptMastery>,
                      progress: map<string, (int, int)>, defaultTarget: int)
    returns (modules: seq<ModuleGuidance>, totalComplete: nat, totalConcepts: nat, actions: seq<PriorityAction>)
    ensures modules == ModuleGuidances(minAttempts, targets, byConcept, progress, defaultTarget)
    ensures totalComplete == TotalComplete(modules) <= totalConcepts == TotalConcepts(modules)
    ensures actions == AllActions(modules)
  {
    modules, totalComplete, totalConcepts, actions := [], 0, 0, [];
    for i := 0 to |targets|
      invariant modules == ModuleGuidances(minAttempts, targets[..i], byConcept, progress, defaultTarget)
      invariant totalComplete == TotalComplete(modules) <= totalConcepts == TotalConcepts(modules)
      invariant actions == AllActions(modules)
    {
      var mg := GenerateModuleGuidance(minAttempts, targets[i], byConcept, progress, defaultTarget);
      ModuleGuidancesStep(minAttempts, targets, byConcept, progress, defaultTarget, i);
      TotalsStep(modules, mg);
      modules := modules + [mg];
      totalComplete := totalComplete + mg.conceptsComplete;
      totalConcepts := totalConcepts + mg.conceptsTotal;
      actions := actions + ModuleActions(mg);
    }
    assert targets[..|targets|] == targets;
  }

  /** Appending a module's report adds its counts and its actions. */
  lemma TotalsStep(gs: seq<ModuleGuidance>, g: ModuleGuidance)
    ensures TotalComplete(gs + [g]) == TotalComplete(gs) + g.conceptsComplete
    ensures TotalConcepts(gs + [g]) == TotalConcepts(gs) + g.conceptsTotal
    ensures AllActions(gs + [g]) == AllActions(gs) + ModuleActions(g)
  {
    assert (gs + [g])[..|gs|] == gs;
  }

  /** Extending the modules by one appends that module's guidance. */
  lemma ModuleGuidancesStep(minAttempts: int, targets: seq<Module>, byConcept: map<string, ConceptMastery>,
                            progress: map<string, (int, int)>, defaultTarget: int, i: nat)
    requires i < |targets|
    ensures ModuleGuidances(minAttempts, targets[..i + 1], byConcept, progress, defaultTarget)
      == ModuleGuidances(minAttempts, targets[..i], byConcept, progress, defaultTarget)
         + [ModuleGuidanceOf(minAttempts, targets[i], byConcept, progress, defaultTarget)]
  {
    assert targets[..i + 1][..i] == targets[..i];
  }

  /** An unknown module id gives a report with no modules, no completion
      and no actions. */
  lemma UnknownModuleReportsNothing(minAttempts: int, course: CourseInfo, moduleId: string,
                                    byConcept: map<string, ConceptMastery>, progress: map<string, (int, int)>,
                                    defaultTarget: int)
    requires moduleId != ""
    requires forall i :: 0 <= i < |course.modules| ==> course.modules[i].id != moduleId
    ensures var gs := ModuleGuidances(minAttempts, ModulesToAnalyze(course, moduleId), byConcept, progress, defaultTarget);
      gs == [] && Percentage(TotalComplete(gs), TotalConcepts(gs), 0.0) == 0.0 && AllActions(gs) == []
  {
  }
}
