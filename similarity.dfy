/** The anti-cheat check for LLM-quiz questions
    (chibi/services/similarity_service.py): a question is rejected when an
    earlier question of the same module is at least as similar as the
    threshold. The embedding service and the vector store are outside the
    model; what their calls did is a parameter. Every failure lets the
    question through. */
module Similarity {
  import opened Wrappers

  type Embedding = seq<real>

  datatype SimilarityConfig = SimilarityConfig(enabled: bool, similarityThreshold: real, topK: int)

  datatype SimilarQuestion = SimilarQuestion(
    questionId: string, questionText: string, moduleId: string, userId: int, similarityScore: real)

  datatype SimilarityCheckResult = SimilarityCheckResult(
    isSimilar: bool, highestSimilarity: real, similarQuestions: seq<SimilarQuestion>, error: Option<string>)

  /** The answer that lets a question through. */
  function Allowed(error: Option<string>): SimilarityCheckResult {
    SimilarityCheckResult(false, 0.0, [], error)
  }

  const EmbeddingUnavailable := "Embedding service unavailable"

  /** `max(q.similarity_score for q in qs)`. */
  function MaxScore(qs: seq<SimilarQuestion>): (m: real)
    requires qs != []
    ensures forall i :: 0 <= i < |qs| ==> qs[i].similarityScore <= m
    ensures exists i :: 0 <= i < |qs| && qs[i].similarityScore == m
  {
    if |qs| == 1 then qs[0].similarityScore
    else
      var rest := MaxScore(qs[1..]);
      assert forall i :: 1 <= i < |qs| ==> qs[i] == qs[1..][i - 1];
      if qs[0].similarityScore >= rest then qs[0].similarityScore else rest
  }

  /** The highest score, 0.0 when nothing was found. */
  function HighestSimilarity(qs: seq<SimilarQuestion>): real {
    if qs == [] then 0.0 else MaxScore(qs)
  }

  /** `check_similarity`. The search is consulted only once an embedding
      was produced. */
  function CheckSimilarity(cfg: SimilarityConfig, embedding: Call<Option<Embedding>>,
                           search: Call<seq<SimilarQuestion>>): (r: SimilarityCheckResult)
    ensures !cfg.enabled ==> r == Allowed(None)
    ensures cfg.enabled && embedding.Raised? ==> r == Allowed(Some(embedding.message))
    ensures cfg.enabled && embedding == Returned(None) ==> r == Allowed(Some(EmbeddingUnavailable))
    ensures cfg.enabled && embedding.Returned? && embedding.value.Some? && search.Raised? ==>
      r == Allowed(Some(search.message))
    ensures cfg.enabled && embedding.Returned? && embedding.value.Some? && search.Returned? ==>
      r.error.None? && r.similarQuestions == search.value
      && r.highestSimilarity == HighestSimilarity(search.value)
      && (r.isSimilar <==> r.highestSimilarity >= cfg.similarityThreshold)
  {
    if !cfg.enabled then Allowed(None)
    else match embedding
      case Raised(e) => Allowed(Some(e))
      case Returned(None) => Allowed(Some(EmbeddingUnavailable))
      case Returned(Some(_)) =>
        match search
        case Raised(e) => Allowed(Some(e))
        case Returned(qs) =>
          var highest := HighestSimilarity(qs);
          SimilarityCheckResult(highest >= cfg.similarityThreshold, highest, qs, None)
  }

  /** With a positive threshold, a question is rejected exactly when the
      search ran and found some question scoring at least the threshold;
      any failure lets it through. */
  lemma {:induction false} RejectedExactlyWhenCloseMatch(cfg: SimilarityConfig, embedding: Call<Option<Embedding>>,
                                                        search: Call<seq<SimilarQuestion>>)
    ensures var r := CheckSimilarity(cfg, embedding, search);
      r.isSimilar && cfg.similarityThreshold > 0.0 ==> r.error.None? && exists i :: (0 <= i < |r.similarQuestions|
        && r.similarQuestions[i].similarityScore >= cfg.similarityThreshold)
    ensures var r := CheckSimilarity(cfg, embedding, search);
      r.error.Some? ==> !r.isSimilar
    ensures var r := CheckSimilarity(cfg, embedding, search);
      cfg.enabled && embedding.Returned? && embedding.value.Some? && search.Returned?
      && (exists i :: 0 <= i < |search.value| && search.value[i].similarityScore >= cfg.similarityThreshold)
      ==> r.isSimilar
  {
  }

  /** What `add_question` hands to the vector store. */
  datatype StoredQuestion = StoredQuestion(
    questionId: int, questionText: string, embedding: Embedding, moduleId: string, userId: int)

  /** `add_question`: true without storing when disabled; otherwise true
      exactly when an embedding was produced and the store did not raise.
      `stored` is what was handed to the store. */
  function AddQuestion(cfg: SimilarityConfig, questionId: int, questionText: string, moduleId: string,
                       userId: int, embedding: Call<Option<Embedding>>, store: Call<()>)
    : (r: (bool, Option<StoredQuestion>))
    ensures !cfg.enabled ==> r == (true, None)
    ensures cfg.enabled ==> (r.0 <==> embedding.Returned? && embedding.value.Some? && store.Returned?)
    ensures r.1.Some? <==> cfg.enabled && embedding.Returned? && embedding.value.Some?
    ensures r.1.Some? ==> r.1.value == StoredQuestion(questionId, questionText, embedding.value.value, moduleId, userId)
  {
    if !cfg.enabled then (true, None)
    else match embedding
      case Raised(_) => (false, None)
      case Returned(None) => (false, None)
      case Returned(Some(e)) =>
        var q := StoredQuestion(questionId, questionText, e, moduleId, userId);
        (store.Returned?, Some(q))
  }

  /** `is_available`: a disabled check is always available. */
  function IsAvailable(cfg: SimilarityConfig, embeddingAvailable: bool): (b: bool)
    ensures !cfg.enabled ==> b
    ensures cfg.enabled ==> b == embeddingAvailable
  {
    !cfg.enabled || embeddingAvailable
  }
}
