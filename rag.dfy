/** Retrieval over the indexed course content (chibi/services/rag_service.py).
    The embedding service and the vector search are outside the model: the
    query embedding and the chunks the search returned are parameters. */
module Rag {
  import opened Wrappers
  import opened Text
  import opened Grouping
  import opened Sorting

  /** A chunk as the vector search returns it. */
  datatype RetrievedChunk = RetrievedChunk(
    chunkId: string, text: string, sourceId: string, sourceName: string, chunkIndex: int, similarityScore: real)

  datatype RAGResult = RAGResult(context: string, chunks: seq<RetrievedChunk>, query: string, totalChunks: int)

  /** The service's `top_k`, `min_similarity` and `max_context_length`. */
  datatype RagConfig = RagConfig(topK: int, minSimilarity: real, maxContextLength: int)

  const DefaultConfig := RagConfig(5, 0.3, 4000)

  type Embedding = seq<real>

  function SourceNameOf(c: RetrievedChunk): string { c.sourceName }
  function ChunkIdOf(c: RetrievedChunk): string { c.chunkId }
  function IndexKey(c: RetrievedChunk): real { c.chunkIndex as real }
  /** Sorting by the negated score is the stable descending sort. */
  function ScoreDescKey(c: RetrievedChunk): real { -c.similarityScore }

  /** The line that opens a source's block. */
  function SourceHeader(name: string): string {
    "\n--- From " + name + " ---\n"
  }

  /** The stripped texts of chunks, in order. */
  function ChunkTexts(cs: seq<RetrievedChunk>): (r: seq<string>)
    ensures |r| == |cs|
    ensures forall j :: 0 <= j < |cs| ==> r[j] == Strip(cs[j].text)
  {
    if cs == [] then [] else ChunkTexts(cs[..|cs| - 1]) + [Strip(cs[|cs| - 1].text)]
  }

  /** The inner loop of `_build_context` over one source's sorted chunks,
      from chunk `j` on, given their stripped texts: each chunk costs its
      length plus 2, and the first chunk that would take
      `current + header + cost` past the limit ends the loop. Returns the
      source's text and the new running total. */
  function FillFrom(text: string, current: int, texts: seq<string>, j: nat, headerLength: int, maxLength: int)
    : (r: (string, int))
    decreases |texts| - j
  {
    if j >= |texts| then (text, current)
    else
      var chunkLength := |texts[j]| + 2;
      if current + headerLength + chunkLength > maxLength then (text, current)
      else FillFrom(text + texts[j] + "\n\n", current + chunkLength, texts, j + 1, headerLength, maxLength)
  }

  /** One step of the inner loop: a chunk that fits is added. */
  lemma FillFromStep(text: string, current: int, texts: seq<string>, j: nat, headerLength: int, maxLength: int)
    requires j < |texts| && current + headerLength + |texts[j]| + 2 <= maxLength
    ensures FillFrom(text, current, texts, j, headerLength, maxLength)
      == FillFrom(text + texts[j] + "\n\n", current + (|texts[j]| + 2), texts, j + 1, headerLength, maxLength)
  {
  }

  /** The inner loop over all of one source's chunks. */
  function FillSource(text: string, current: int, cs: seq<RetrievedChunk>, headerLength: int, maxLength: int)
    : (r: (string, int))
  {
    FillFrom(text, current, ChunkTexts(cs), 0, headerLength, maxLength)
  }

  /** The outer loop of `_build_context` over the sources: every visited
      source contributes its block, and the loop stops once the running
      total reaches the limit. */
  function FillSources(groups: Groups<RetrievedChunk>, current: int, maxLength: int): (r: (seq<string>, int))
    ensures |r.0| <= |groups|
  {
    if groups == [] then ([], current)
    else
      var header := SourceHeader(groups[0].0);
      var filled := FillSource(header, current, SortBy(groups[0].1, IndexKey), |header|, maxLength);
      if filled.1 >= maxLength then ([filled.0], filled.1)
      else
        var rest := FillSources(groups[1..], filled.1, maxLength);
        ([filled.0] + rest.0, rest.1)
  }

  /** One step of the outer loop: the first source's block, then the rest
      unless the total has reached the limit. */
  lemma FillSourcesStep(groups: Groups<RetrievedChunk>, current: int, maxLength: int)
    requires groups != []
    ensures var header := SourceHeader(groups[0].0);
      var filled := FillSource(header, current, SortBy(groups[0].1, IndexKey), |header|, maxLength);
      FillSources(groups, current, maxLength).0
        == [filled.0] + (if filled.1 >= maxLength then [] else FillSources(groups[1..], filled.1, maxLength).0)
  {
  }

  /** What `_build_context` returns. */
  function BuiltContext(chunks: seq<RetrievedChunk>, maxLength: int): string {
    Strip(Concat(FillSources(GroupBy(chunks, SourceNameOf), 0, maxLength).0))
  }

  /** Adding chunks to a source's block only appends, and the block grows
      by exactly what the running total grows by; a chunk is added only
      while the total stays within the limit less the header. */
  lemma FillSourceFacts(text: string, current: int, cs: seq<RetrievedChunk>,
                        headerLength: int, maxLength: int)
    ensures var r := FillSource(text, current, cs, headerLength, maxLength);
      current <= r.1 && (r.1 == current || r.1 + headerLength <= maxLength)
      && |r.0| == |text| + r.1 - current && |text| <= |r.0| && r.0[..|text|] == text
  {
    FillFromTotal(text, current, ChunkTexts(cs), 0, headerLength, maxLength);
    FillFromLength(text, current, ChunkTexts(cs), 0, headerLength, maxLength);
    FillFromPrefix(text, current, ChunkTexts(cs), 0, headerLength, maxLength);
  }

  /** The running total only grows, and only while it stays within the
      limit less the header. */
  lemma {:induction false} FillFromTotal(text: string, current: int, texts: seq<string>, j: nat,
                                         headerLength: int, maxLength: int)
    ensures var r := FillFrom(text, current, texts, j, headerLength, maxLength);
      current <= r.1 && (r.1 == current || r.1 + headerLength <= maxLength)
    decreases |texts| - j
  {
    if j < |texts| {
      var chunkText := texts[j];
      var chunkLength := |chunkText| + 2;
      if current + headerLength + chunkLength <= maxLength {
        FillFromTotal(text + chunkText + "\n\n", current + chunkLength, texts, j + 1, headerLength, maxLength);
      }
    }
  }

  /** The block grows by exactly what the total grows by. */
  lemma {:induction false} FillFromLength(text: string, current: int, texts: seq<string>, j: nat,
                                          headerLength: int, maxLength: int)
    ensures var r := FillFrom(text, current, texts, j, headerLength, maxLength);
      |r.0| == |text| + r.1 - current
    decreases |texts| - j
  {
    if j < |texts| {
      var chunkText := texts[j];
      var chunkLength := |chunkText| + 2;
      if current + headerLength + chunkLength <= maxLength {
        FillFromLength(text + chunkText + "\n\n", current + chunkLength, texts, j + 1, headerLength, maxLength);
      }
    }
  }

  /** The block only appends to `text`. */
  lemma {:induction false} FillFromPrefix(text: string, current: int, texts: seq<string>, j: nat,
                                          headerLength: int, maxLength: int)
    ensures var r := FillFrom(text, current, texts, j, headerLength, maxLength);
      |text| <= |r.0| && r.0[..|text|] == text
    decreases |texts| - j
  {
    if j < |texts| {
      var chunkText := texts[j];
      var chunkLength := |chunkText| + 2;
      if current + headerLength + chunkLength <= maxLength {
        var text' := text + chunkText + "\n\n";
        var r := FillFrom(text', current + chunkLength, texts, j + 1, headerLength, maxLength).0;
        FillFromPrefix(text', current + chunkLength, texts, j + 1, headerLength, maxLength);
        PrefixOfAppend(text + chunkText, "\n\n", r);
        PrefixOfAppend(text, chunkText, r);
      }
    }
  }

  /** What begins with `a + b` begins with `a`. */
  lemma PrefixOfAppend(a: string, b: string, r: string)
    requires |a + b| <= |r| && r[..|a + b|] == a + b
    ensures |a| <= |r| && r[..|a|] == a
  {
    assert r[..|a|] == r[..|a + b|][..|a|];
  }

  /** The total length of the headers of `groups`. */
  function HeaderTotal(groups: Groups<RetrievedChunk>): nat {
    if groups == [] then 0 else |SourceHeader(groups[0].0)| + HeaderTotal(groups[1..])
  }

  /** Every visited source yields one block that opens with its header, in
      group order; the running total ends within the limit unless nothing
      was added; and the blocks are as long as their headers plus the
      chunk costs counted in the total. */
  lemma {:induction false} FillSourcesFacts(groups: Groups<RetrievedChunk>, current: int, maxLength: int)
    ensures var r := FillSources(groups, current, maxLength);
      |r.0| <= |groups| && (groups != [] ==> r.0 != [])
      && current <= r.1 && (r.1 == current || r.1 <= maxLength)
      && |Concat(r.0)| == HeaderTotal(groups[..|r.0|]) + r.1 - current
      && forall p :: 0 <= p < |r.0| ==>
        |SourceHeader(groups[p].0)| <= |r.0[p]| && r.0[p][..|SourceHeader(groups[p].0)|] == SourceHeader(groups[p].0)
  {
    if groups != [] {
      var header := SourceHeader(groups[0].0);
      var filled := FillSource(header, current, SortBy(groups[0].1, IndexKey), |header|, maxLength);
      FillSourceFacts(header, current, SortBy(groups[0].1, IndexKey), |header|, maxLength);
      var r := FillSources(groups, current, maxLength);
      assert groups[..1] == [groups[0]];
      assert HeaderTotal([groups[0]]) == |header|;
      if filled.1 < maxLength {
        var rest := FillSources(groups[1..], filled.1, maxLength);
        FillSourcesFacts(groups[1..], filled.1, maxLength);
        assert r.0 == [filled.0] + rest.0;
        assert Concat(r.0) == filled.0 + Concat(rest.0);
        assert groups[..|r.0|][1..] == groups[1..][..|rest.0|];
        forall p | 0 <= p < |r.0|
          ensures |SourceHeader(groups[p].0)| <= |r.0[p]| && r.0[p][..|SourceHeader(groups[p].0)|] == SourceHeader(groups[p].0)
        {
          if p > 0 {
            assert r.0[p] == rest.0[p - 1] && groups[p] == groups[1..][p - 1];
          }
        }
      } else {
        assert Concat(r.0) == filled.0 + Concat([]);
      }
    }
  }

  /** The budget of `_build_context` counts chunk text only: the chunks
      added never cost more than `max_context_length` in total, and the
      context is at most that plus the headers of the sources shown. */
  lemma BuildContextBudget(chunks: seq<RetrievedChunk>, maxLength: int)
    ensures var groups := GroupBy(chunks, SourceNameOf);
      var r := FillSources(groups, 0, maxLength);
      (r.1 == 0 || r.1 <= maxLength)
      && |BuiltContext(chunks, maxLength)| <= HeaderTotal(groups[..|r.0|]) + r.1
  {
    FillSourcesFacts(GroupBy(chunks, SourceNameOf), 0, maxLength);
  }

  /** The inner loop of `_build_context`. The chunks' stripped texts are
      taken first and the loop runs over them; the source strips each
      chunk as it reaches it, which computes the same. */
  method FillOne(text: string, current: int, cs: seq<RetrievedChunk>, headerLength: int, maxLength: int)
    returns (text': string, current': int)
    ensures (text', current') == FillSource(text, current, cs, headerLength, maxLength)
  {
    var texts := ChunkTexts(cs);
    text', current' := FillTexts(text, current, texts, headerLength, maxLength);
  }

  /** The loop of `FillOne` over the stripped texts. */
  method FillTexts(text: string, current: int, texts: seq<string>, headerLength: int, maxLength: int)
    returns (text': string, current': int)
    ensures (text', current') == FillFrom(text, current, texts, 0, headerLength, maxLength)
  {
    text', current' := text, current;
    var j := 0;
    while j < |texts|
      invariant 0 <= j <= |texts|
      invariant FillFrom(text', current', texts, j, headerLength, maxLength) == FillFrom(text, current, texts, 0, headerLength, maxLength)
    {
      var chunkLength := |texts[j]| + 2;
      if current' + headerLength + chunkLength > maxLength {
        return;
      }
      FillFromStep(text', current', texts, j, headerLength, maxLength);
      text' := text' + texts[j] + "\n\n";
      current' := current' + chunkLength;
      j := j + 1;
    }
  }

  /** `_build_context`: group by source in order of first appearance, sort
      each source's chunks by `chunk_index`, and fill the sources in turn. */
  method BuildContext(chunks: seq<RetrievedChunk>, maxLength: int) returns (context: string)
    ensures context == BuiltContext(chunks, maxLength)
  {
    var groups := GroupInOrder(chunks, SourceNameOf);
    var parts := FillAll(groups, maxLength);
    context := Strip(Concat(parts));
  }

  /** The loop of `_build_context` over the sources. */
  method FillAll(groups: Groups<RetrievedChunk>, maxLength: int) returns (parts: seq<string>)
    ensures parts == FillSources(groups, 0, maxLength).0
  {
    parts := [];
    var current := 0;
    var g := 0;
    while g < |groups|
      invariant 0 <= g <= |groups|
      invariant parts + FillSources(groups[g..], current, maxLength).0 == FillSources(groups, 0, maxLength).0
    {
      var sourceChunks := SortBy(groups[g].1, IndexKey);
      var sourceText := SourceHeader(groups[g].0);
      var sourceLength := |sourceText|;
      assert groups[g..][0] == groups[g] && groups[g..][1..] == groups[g + 1..];
      FillSourcesStep(groups[g..], current, maxLength);
      ghost var before := FillSources(groups[g..], current, maxLength).0;
      sourceText, current := FillOne(sourceText, current, sourceChunks, sourceLength, maxLength);
      if current >= maxLength {
        assert before == [sourceText];
        parts := parts + [sourceText];
        return;
      }
      ghost var after := FillSources(groups[g + 1..], current, maxLength).0;
      assert before == [sourceText] + after;
      assert (parts + [sourceText]) + after == parts + before;
      parts := parts + [sourceText];
      g := g + 1;
    }
    assert groups[g..] == [];
  }

  /** `[c for c in chunks if c.similarity_score >= min_similarity]`. */
  function AboveThreshold(chunks: seq<RetrievedChunk>, minSimilarity: real): (r: seq<RetrievedChunk>)
    ensures |r| <= |chunks|
  {
    if chunks == [] then []
    else
      var last := chunks[|chunks| - 1];
      AboveThreshold(chunks[..|chunks| - 1], minSimilarity) + (if last.similarityScore >= minSimilarity then [last] else [])
  }

  /** Exactly the chunks scoring at least the threshold are kept, in the
      order the search returned them. */
  lemma {:induction false} AboveThresholdExact(chunks: seq<RetrievedChunk>, minSimilarity: real)
    ensures forall k :: 0 <= k < |AboveThreshold(chunks, minSimilarity)| ==>
      AboveThreshold(chunks, minSimilarity)[k].similarityScore >= minSimilarity
      && AboveThreshold(chunks, minSimilarity)[k] in chunks
    ensures forall i :: 0 <= i < |chunks| && chunks[i].similarityScore >= minSimilarity ==>
      chunks[i] in AboveThreshold(chunks, minSimilarity)
  {
    if chunks != [] {
      var init := chunks[..|chunks| - 1];
      AboveThresholdExact(init, minSimilarity);
      assert forall i :: 0 <= i < |init| ==> init[i] == chunks[i];
      var r := AboveThreshold(chunks, minSimilarity);
      var ri := AboveThreshold(init, minSimilarity);
      forall k | 0 <= k < |r| ensures r[k].similarityScore >= minSimilarity && r[k] in chunks {
        if k < |ri| {
          assert r[k] == ri[k];
        }
      }
    } else {
      assert AboveThreshold(chunks, minSimilarity) == [];
    }
  }

  /** Filtering two runs one after the other filters each in turn. */
  lemma {:induction false} AboveThresholdAppend(a: seq<RetrievedChunk>, b: seq<RetrievedChunk>, minSimilarity: real)
    ensures AboveThreshold(a + b, minSimilarity) == AboveThreshold(a, minSimilarity) + AboveThreshold(b, minSimilarity)
    decreases |b|
  {
    if b == [] {
      assert a + b == a;
    } else {
      var b' := b[..|b| - 1];
      assert (a + b)[..|a + b| - 1] == a + b';
      AboveThresholdAppend(a, b', minSimilarity);
    }
  }

  /** The answer for a query with no usable result. */
  function NoResult(query: string): RAGResult {
    RAGResult("", [], query, 0)
  }

  /** `retrieve`. `searched` is what the vector search returned for the
      query embedding; the optional `top_k` only reaches that search. */
  method Retrieve(cfg: RagConfig, query: string, embedding: Option<Embedding>, searched: seq<RetrievedChunk>)
    returns (r: RAGResult)
    ensures embedding.None? ==> r == NoResult(query)
    ensures embedding.Some? && AboveThreshold(searched, cfg.minSimilarity) == [] ==> r == NoResult(query)
    ensures embedding.Some? && AboveThreshold(searched, cfg.minSimilarity) != [] ==>
      r.chunks == AboveThreshold(searched, cfg.minSimilarity) && r.context == BuiltContext(r.chunks, cfg.maxContextLength)
    ensures r.query == query && r.totalChunks == |r.chunks|
  {
    if embedding.None? {
      return NoResult(query);
    }
    var filtered := AboveThreshold(searched, cfg.minSimilarity);
    if filtered == [] {
      return NoResult(query);
    }
    var context := BuildContext(filtered, cfg.maxContextLength);
    r := RAGResult(context, filtered, query, |filtered|);
  }

  /** All retrieved chunks one concept after another. */
  function Flatten(results: seq<seq<RetrievedChunk>>): seq<RetrievedChunk> {
    if results == [] then [] else Flatten(results[..|results| - 1]) + results[|results| - 1]
  }

  /** The ids of a list of chunks: the `seen_chunk_ids` set. */
  function IdsOf(cs: seq<RetrievedChunk>): set<string> {
    set c | c in cs :: c.chunkId
  }

  /** The first chunk of each id, in order: the de-duplication loop of
      `retrieve_for_concepts`. */
  function FirstById(cs: seq<RetrievedChunk>): (r: seq<RetrievedChunk>)
    ensures |r| <= |cs|
  {
    if cs == [] then []
    else
      var kept := FirstById(cs[..|cs| - 1]);
      var last := cs[|cs| - 1];
      if last.chunkId in IdsOf(kept) then kept else kept + [last]
  }

  /** The kept chunks have distinct ids, come from the input, and cover
      every id of the input. */
  lemma FirstByIdFacts(cs: seq<RetrievedChunk>)
    ensures DistinctBy(FirstById(cs), ChunkIdOf)
    ensures forall k :: 0 <= k < |FirstById(cs)| ==> FirstById(cs)[k] in cs
    ensures forall i :: 0 <= i < |cs| ==> cs[i].chunkId in IdsOf(FirstById(cs))
  {
    FirstByIdDistinct(cs);
    FirstByIdFrom(cs);
    FirstByIdCovers(cs);
  }

  /** No two kept chunks share an id. */
  lemma {:induction false} FirstByIdDistinct(cs: seq<RetrievedChunk>)
    ensures DistinctBy(FirstById(cs), ChunkIdOf)
  {
    if cs != [] {
      var init := cs[..|cs| - 1];
      var last := cs[|cs| - 1];
      FirstByIdDistinct(init);
      var kept := FirstById(init);
      if last.chunkId !in IdsOf(kept) {
        forall i | 0 <= i < |kept| ensures kept[i].chunkId != last.chunkId {
          assert kept[i] in kept;
        }
        assert FirstById(cs) == kept + [last];
      }
    } else {
      assert FirstById(cs) == [];
    }
  }

  /** Every kept chunk is one of the input chunks. */
  lemma {:induction false} FirstByIdFrom(cs: seq<RetrievedChunk>)
    ensures forall k :: 0 <= k < |FirstById(cs)| ==> FirstById(cs)[k] in cs
  {
    if cs != [] {
      var init := cs[..|cs| - 1];
      FirstByIdFrom(init);
      var kept := FirstById(init);
      assert forall k :: 0 <= k < |kept| ==> kept[k] in init;
      assert forall c :: c in init ==> c in cs;
    } else {
      assert FirstById(cs) == [];
    }
  }

  /** Every input id is the id of some kept chunk. */
  lemma {:induction false} FirstByIdCovers(cs: seq<RetrievedChunk>)
    ensures forall i :: 0 <= i < |cs| ==> cs[i].chunkId in IdsOf(FirstById(cs))
  {
    if cs != [] {
      var init := cs[..|cs| - 1];
      var last := cs[|cs| - 1];
      FirstByIdCovers(init);
      var kept := FirstById(init);
      assert forall i :: 0 <= i < |init| ==> init[i] == cs[i];
      if last.chunkId !in IdsOf(kept) {
        assert FirstById(cs) == kept + [last];
        IdsOfSnoc(kept, last);
      }
    } else {
      assert FirstById(cs) == [];
    }
  }

  /** The chunks `retrieve_for_concepts` keeps: the first of each id,
      sorted by similarity from high to low, at most `2 * top_k`. */
  function ConceptChunks(cfg: RagConfig, results: seq<seq<RetrievedChunk>>): seq<RetrievedChunk> {
    PyTake(SortBy(FirstById(Flatten(results)), ScoreDescKey), cfg.topK * 2)
  }

  /** The kept chunks have distinct ids, are in descending similarity, are
      at most twice `top_k`, and each was retrieved for some concept. */
  lemma ConceptChunksFacts(cfg: RagConfig, results: seq<seq<RetrievedChunk>>)
    ensures var cs := ConceptChunks(cfg, results);
      DistinctBy(cs, ChunkIdOf)
      && (forall i, j :: 0 <= i < j < |cs| ==> cs[i].similarityScore >= cs[j].similarityScore)
      && (cfg.topK >= 0 ==> |cs| <= 2 * cfg.topK)
      && (forall k :: 0 <= k < |cs| ==> cs[k] in Flatten(results))
  {
    ConceptChunksOrdered(cfg, results);
    ConceptChunksRetrieved(cfg, results);
  }

  /** The kept chunks have distinct ids and descending similarity. */
  lemma ConceptChunksOrdered(cfg: RagConfig, results: seq<seq<RetrievedChunk>>)
    ensures var cs := ConceptChunks(cfg, results);
      DistinctBy(cs, ChunkIdOf)
      && (forall i, j :: 0 <= i < j < |cs| ==> cs[i].similarityScore >= cs[j].similarityScore)
  {
    var unique := FirstById(Flatten(results));
    FirstByIdDistinct(Flatten(results));
    SortByDistinct(unique, ScoreDescKey, ChunkIdOf);
    var sorted := SortBy(unique, ScoreDescKey);
    var cs := ConceptChunks(cfg, results);
    assert cs == sorted[..|cs|];
    forall i, j | 0 <= i < j < |cs| ensures cs[i].similarityScore >= cs[j].similarityScore {
      assert ScoreDescKey(sorted[i]) <= ScoreDescKey(sorted[j]);
    }
  }

  /** Each kept chunk was retrieved for some concept. */
  lemma ConceptChunksRetrieved(cfg: RagConfig, results: seq<seq<RetrievedChunk>>)
    ensures var cs := ConceptChunks(cfg, results);
      forall k :: 0 <= k < |cs| ==> cs[k] in Flatten(results)
  {
    var flat := Flatten(results);
    var unique := FirstById(flat);
    FirstByIdFrom(flat);
    SortByFrom(unique, ScoreDescKey);
    var sorted := SortBy(unique, ScoreDescKey);
    var cs := ConceptChunks(cfg, results);
    assert cs == sorted[..|cs|];
    forall k | 0 <= k < |cs| ensures cs[k] in flat {
      var j :| 0 <= j < |unique| && sorted[k] == unique[j];
      assert unique[j] in flat;
    }
  }

  /** Appending a chunk adds its id to the set of ids. */
  lemma IdsOfSnoc(cs: seq<RetrievedChunk>, c: RetrievedChunk)
    ensures IdsOf(cs + [c]) == IdsOf(cs) + {c.chunkId}
  {
    forall u ensures u in IdsOf(cs + [c]) <==> u in IdsOf(cs) + {c.chunkId} {
      if u in IdsOf(cs + [c]) {
        var d :| d in cs + [c] && d.chunkId == u;
      }
      if u == c.chunkId {
        assert c in cs + [c];
      } else if u in IdsOf(cs) {
        var d :| d in cs && d.chunkId == u;
        assert d in cs + [c];
      }
    }
  }

  /** One more chunk is kept exactly when its id is new. */
  lemma FirstByIdSnoc(cs: seq<RetrievedChunk>, c: RetrievedChunk)
    ensures FirstById(cs + [c]) == if c.chunkId in IdsOf(FirstById(cs)) then FirstById(cs) else FirstById(cs) + [c]
  {
    assert (cs + [c])[..|cs|] == cs;
  }

  /** One chunk of a concept's results seen by the de-duplication loop. */
  lemma AddUnseenStep(before: seq<RetrievedChunk>, cs: seq<RetrievedChunk>, j: nat)
    requires j < |cs|
    ensures var kept := FirstById(before + cs[..j]);
      FirstById(before + cs[..j + 1])
        == if cs[j].chunkId in IdsOf(kept) then kept else kept + [cs[j]]
  {
    assert before + cs[..j + 1] == (before + cs[..j]) + [cs[j]];
    FirstByIdSnoc(before + cs[..j], cs[j]);
  }

  /** One concept's chunks added to the de-duplicated list. */
  method AddUnseen(all: seq<RetrievedChunk>, seen: set<string>, cs: seq<RetrievedChunk>,
                   ghost before: seq<RetrievedChunk>)
    returns (all': seq<RetrievedChunk>, seen': set<string>)
    requires all == FirstById(before) && seen == IdsOf(all)
    ensures all' == FirstById(before + cs) && seen' == IdsOf(all')
  {
    all', seen' := all, seen;
    assert before + cs[..0] == before;
    for j := 0 to |cs|
      invariant all' == FirstById(before + cs[..j]) && seen' == IdsOf(all')
    {
      var chunk := cs[j];
      AddUnseenStep(before, cs, j);
      if chunk.chunkId !in seen' {
        IdsOfSnoc(all', chunk);
        all' := all' + [chunk];
        seen' := seen' + {chunk.chunkId};
      }
    }
    assert cs[..|cs|] == cs;
  }

  /** `retrieve_for_concepts`. `results[i]` are the chunks `retrieve`
      returned for `concepts[i]`. */
  method RetrieveForConcepts(cfg: RagConfig, concepts: seq<string>, results: seq<seq<RetrievedChunk>>)
    returns (r: RAGResult)
    requires |results| == |concepts|
    ensures r.chunks == ConceptChunks(cfg, results)
    ensures r.context == BuiltContext(r.chunks, cfg.maxContextLength)
    ensures r.query == Join(", ", concepts) && r.totalChunks == |r.chunks|
  {
    var all: seq<RetrievedChunk> := [];
    var seen: set<string> := {};
    for i := 0 to |results|
      invariant all == FirstById(Flatten(results[..i])) && seen == IdsOf(all)
    {
      assert results[..i + 1][..i] == results[..i];
      all, seen := AddUnseen(all, seen, results[i], Flatten(results[..i]));
    }
    assert results[..|results|] == results;
    var sorted := SortBy(all, ScoreDescKey);
    var limited := PyTake(sorted, cfg.topK * 2);
    var context := BuildContext(limited, cfg.maxContextLength);
    r := RAGResult(context, limited, Join(", ", concepts), |limited|);
  }

  /** `is_ready`: a connected, non-empty index and an available embedding
      service; each failed check answers false. */
  function IsReady(connected: bool, chunkCount: int, embeddingAvailable: bool): (b: bool)
    ensures b ==> connected && chunkCount != 0 && embeddingAvailable
    ensures !connected || chunkCount == 0 || !embeddingAvailable ==> !b
  {
    if !connected then false
    else if chunkCount == 0 then false
    else embeddingAvailable
  }
}
