/** The database records the learning engine reads and writes
    (chibi/database/models.py). Timestamps are left out. */
module Models {
  import opened Wrappers

  /** A registered student. */
  datatype User = User(id: Option<int>, discordId: string, username: string)

  /** One graded quiz answer. */
  datatype QuizAttempt = QuizAttempt(
    id: Option<int>,
    userId: int,
    moduleId: string,
    conceptId: string,
    quizFormat: string,
    question: string,
    userAnswer: string,
    correctAnswer: Option<string>,
    isCorrect: bool,
    llmFeedback: Option<string>,
    llmQualityScore: Option<int>)   // 1-5 for free-form answers, null when absent

  /** A student's aggregate on one concept. */
  datatype ConceptMastery = ConceptMastery(
    id: Option<int>,
    userId: int,
    conceptId: string,
    totalAttempts: nat,
    correctAttempts: nat,
    avgQualityScore: real,
    masteryLevel: string)

  const LevelNovice := "novice"
  const LevelLearning := "learning"
  const LevelProficient := "proficient"
  const LevelMastered := "mastered"

  /** A record created with only its keys: every default of the dataclass. */
  function NewConceptMastery(userId: int, conceptId: string): (m: ConceptMastery)
    ensures m.userId == userId && m.conceptId == conceptId && m.id == None
    ensures m.totalAttempts == 0 && m.correctAttempts == 0
    ensures m.avgQualityScore == 0.0 && m.masteryLevel == "novice"
  {
    ConceptMastery(None, userId, conceptId, 0, 0, 0.0, LevelNovice)
  }

  // Review statuses of an LLM-quiz attempt.
  const Pending := "pending"
  const Approved := "approved"
  const ApprovedWithBonus := "approved_with_bonus"
  const RejectedContentMismatch := "rejected_content_mismatch"
  const RejectedHeavyMath := "rejected_heavy_math"
  const RejectedDeadlinePassed := "rejected_deadline_passed"
  const AutoApproved := "auto_approved"

  /** The statuses under which a win counts. */
  const ApprovedStatuses: set<string> := {Approved, ApprovedWithBonus, AutoApproved}

  /** The statuses under which a win does not count. */
  const RejectedStatuses: set<string> := {RejectedContentMismatch, RejectedHeavyMath, RejectedDeadlinePassed}

  /** No status is both approved and rejected, and a pending attempt is
      neither. */
  lemma StatusSetsDisjoint()
    ensures ApprovedStatuses * RejectedStatuses == {}
    ensures Pending !in ApprovedStatuses && Pending !in RejectedStatuses
    ensures |ApprovedStatuses| == 3 && |RejectedStatuses| == 3
  {
  }

  /** One attempt to stump the AI in the LLM-quiz challenge. */
  datatype LLMQuizAttempt = LLMQuizAttempt(
    id: Option<int>,
    userId: int,
    moduleId: string,
    question: string,
    studentAnswer: string,
    llmAnswer: string,
    studentWins: bool,
    studentAnswerCorrectness: string,
    evaluationExplanation: Option<string>,
    reviewStatus: string,
    reviewedBy: Option<string>,
    discordUserId: Option<string>)

  /** An attempt built without a review status is auto-approved. */
  function NewLLMQuizAttempt(userId: int, moduleId: string, question: string, studentAnswer: string,
                             llmAnswer: string, studentWins: bool, correctness: string): (a: LLMQuizAttempt)
    ensures a.reviewStatus == AutoApproved && a.reviewStatus in ApprovedStatuses
    ensures a.userId == userId && a.moduleId == moduleId && a.studentWins == studentWins
    ensures a.question == question && a.studentAnswer == studentAnswer && a.llmAnswer == llmAnswer
  {
    LLMQuizAttempt(None, userId, moduleId, question, studentAnswer, llmAnswer, studentWins,
                   correctness, None, AutoApproved, None, None)
  }
}
