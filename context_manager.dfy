/** The context manager (chibi/agent/context_manager.py): it asks the
    retrieval service for course content matching a query, formats what
    comes back by source, and falls back to the course's own texts when
    retrieval is unavailable or finds nothing. The agent's fields never
    change after construction, so the course is a parameter; what the
    retrieval service's calls did is a parameter too. */
module ContextManager {
  import opened Wrappers
  import opened Text
  import opened Course
  import opened Grouping
  import opened Seqs
  import Rag

  datatype ContextType = QuizGeneration | AnswerEvaluation | LLMQuizChallenge | GeneralAssistant

  datatype ContextSource = ContextSource(
    sourceId: string, sourceName: string, content: string, relevanceScore: real, chunkId: string)

  datatype ContextResult = ContextResult(
    context: string, sources: seq<ContextSource>, query: string, contextType: ContextType,
    totalChunks: int, hasRelevantContent: bool)

  function SourceNameOf(s: ContextSource): string { s.sourceName }

  /** `ContextResult.chunk_ids`: the sources' chunk ids, empty ones left out. */
  function ChunkIds(sources: seq<ContextSource>): (ids: seq<string>)
    ensures |ids| <= |sources|
    ensures forall k :: 0 <= k < |ids| ==> ids[k] != ""
  {
    if sources == [] then []
    else
      var last := sources[|sources| - 1];
      ChunkIds(sources[..|sources| - 1]) + (if last.chunkId != "" then [last.chunkId] else [])
  }

  /** An id is listed exactly when some source carries it and it is not
      empty; when no id is empty, the list is the ids in source order. */
  lemma {:induction false} ChunkIdsExact(sources: seq<ContextSource>)
    ensures forall c :: c in ChunkIds(sources) <==> c != "" && exists i :: 0 <= i < |sources| && sources[i].chunkId == c
    ensures (forall i :: 0 <= i < |sources| ==> sources[i].chunkId != "") ==>
      |ChunkIds(sources)| == |sources| && forall i :: 0 <= i < |sources| ==> ChunkIds(sources)[i] == sources[i].chunkId
  {
    if sources != [] {
      var init := sources[..|sources| - 1];
      var last := sources[|sources| - 1];
      ChunkIdsExact(init);
      assert forall i :: 0 <= i < |init| ==> init[i] == sources[i];
      var r := ChunkIds(sources);
      assert r == ChunkIds(init) + (if last.chunkId != "" then [last.chunkId] else []);
      forall c ensures c in r <==> c != "" && exists i :: 0 <= i < |sources| && sources[i].chunkId == c {
        if c != "" && exists i :: 0 <= i < |sources| && sources[i].chunkId == c {
          var i :| 0 <= i < |sources| && sources[i].chunkId == c;
          if i < |init| {
            assert init[i].chunkId == c;
          }
        }
      }
    } else {
      assert ChunkIds(sources) == [];
    }
  }

  /** `ContextResult.source_names`, as the set it is built from. */
  function SourceNames(sources: seq<ContextSource>): set<string> {
    set s | s in sources :: s.sourceName
  }

  /** The source names are exactly the names of the blocks
      `_format_context` writes. */
  lemma SourceNamesAreGroups(sources: seq<ContextSource>)
    ensures forall n :: n in SourceNames(sources) <==> HasName(GroupBy(sources, SourceNameOf), n)
  {
    var groups := GroupBy(sources, SourceNameOf);
    GroupByCovers(sources, SourceNameOf);
    GroupByMembers(sources, SourceNameOf);
    forall n ensures n in SourceNames(sources) <==> HasName(groups, n) {
      if n in SourceNames(sources) {
        var s :| s in sources && s.sourceName == n;
        var i :| 0 <= i < |sources| && sources[i] == s;
        assert HasName(groups, SourceNameOf(sources[i]));
      }
      if HasName(groups, n) {
        var p :| 0 <= p < |groups| && groups[p].0 == n;
        var i := FirstOf(sources, SourceNameOf, n);
        assert sources[i] in sources;
      }
    }
  }

  /** `_get_top_k_for_type`. Every type is in the table, so the agent's
      `default_top_k` is never used. */
  function TopK(t: ContextType): (k: int)
  {
    match t
    case QuizGeneration => 5
    case AnswerEvaluation => 3
    case LLMQuizChallenge => 7
    case GeneralAssistant => 5
  }

  /** Evaluation asks for the fewest chunks and the LLM quiz for the most;
      quiz generation and the assistant share the middle value. */
  lemma TopKOrder(t: ContextType)
    ensures TopK(AnswerEvaluation) <= TopK(t) <= TopK(LLMQuizChallenge)
    ensures TopK(AnswerEvaluation) < TopK(QuizGeneration) == TopK(GeneralAssistant) < TopK(LLMQuizChallenge)
    ensures TopK(t) > 0
  {
  }

  const QuizPrefix := "quiz question about "
  const EvaluationPrefix := "facts and definitions: "

  /** The query after the concept step of `_enhance_query`: the concept's
      name is put in front unless the query already contains it. */
  function WithConcept(query: string, concept: Option<Concept>): string {
    if concept.Some? && !Contains(query, concept.value.name) then concept.value.name + ": " + query else query
  }

  /** `_enhance_query`. */
  function EnhanceQuery(query: string, t: ContextType, concept: Option<Concept>): (r: string)
  {
    var enhanced := WithConcept(query, concept);
    match t
    case QuizGeneration => QuizPrefix + enhanced
    case AnswerEvaluation => EvaluationPrefix + enhanced
    case _ => enhanced
  }

  /** The type decides the prefix, and the assistant and LLM quiz types
      without a concept search for the query itself. */
  lemma EnhanceQueryPrefix(query: string, t: ContextType, concept: Option<Concept>)
    ensures t == QuizGeneration ==> EnhanceQuery(query, t, concept) == QuizPrefix + WithConcept(query, concept)
    ensures t == AnswerEvaluation ==> EnhanceQuery(query, t, concept) == EvaluationPrefix + WithConcept(query, concept)
    ensures t in {LLMQuizChallenge, GeneralAssistant} ==> EnhanceQuery(query, t, concept) == WithConcept(query, concept)
    ensures concept.None? && t in {LLMQuizChallenge, GeneralAssistant} ==> EnhanceQuery(query, t, concept) == query
    ensures concept.Some? && Contains(query, concept.value.name) ==> WithConcept(query, concept) == query
  {
  }

  /** The enhanced query is the query behind a prefix. */
  lemma EnhanceQuerySuffix(query: string, t: ContextType, concept: Option<Concept>)
    ensures var r := EnhanceQuery(query, t, concept);
      |query| <= |r| && r[|r| - |query|..] == query
  {
    var w := WithConcept(query, concept);
    var r := EnhanceQuery(query, t, concept);
    assert w[|w| - |query|..] == query;
    assert r == r[..|r| - |w|] + w;
  }

  /** The concept's name always occurs in the enhanced query. */
  lemma EnhanceQueryNamesConcept(query: string, t: ContextType, concept: Option<Concept>)
    requires concept.Some?
    ensures Contains(EnhanceQuery(query, t, concept), concept.value.name)
  {
    var w := WithConcept(query, concept);
    var r := EnhanceQuery(query, t, concept);
    var prefix := r[..|r| - |w|];
    assert r == prefix + w;
    var name := concept.value.name;
    if Contains(query, name) {
      assert w == query;
    } else {
      assert w == name + (": " + query);
      assert w[..|name|] == name;
      OccursContains(w, name, 0);
    }
    ContainsAfterPrefix(prefix, w, name);
  }

  /** The lines describing a concept, shared by both formatters. */
  function ConceptLines(c: Concept): seq<string> {
    ["**Concept: " + c.name + "**"]
      + (if c.description != "" then ["Description: " + c.description] else [])
      + (if c.quizFocus != "" then ["Focus: " + c.quizFocus] else [])
      + [""]
  }

  /** The line that opens a source's block. */
  function BlockHeader(name: string): string {
    "--- From " + name + " ---"
  }

  /** Each source's content, stripped. */
  function StrippedContents(ss: seq<ContextSource>): (r: seq<string>)
    ensures |r| == |ss|
    ensures forall i :: 0 <= i < |ss| ==> r[i] == Strip(ss[i].content)
  {
    if ss == [] then [] else StrippedContents(ss[..|ss| - 1]) + [Strip(ss[|ss| - 1].content)]
  }

  /** One source's block: header, stripped contents, blank line. */
  function Block(g: (string, seq<ContextSource>)): seq<string> {
    [BlockHeader(g.0)] + StrippedContents(g.1) + [""]
  }

  /** The blocks of all sources, one after another. */
  function Blocks(groups: Groups<ContextSource>): seq<string> {
    ConcatMap(groups, Block)
  }

  /** Where block `p` starts. */
  function BlockStart(groups: Groups<ContextSource>, p: nat): nat
    requires p <= |groups|
  {
    PieceStart(groups, Block, p)
  }

  /** Whether `_format_context` writes the concept lines. */
  predicate ShowsConcept(t: ContextType, concept: Option<Concept>) {
    concept.Some? && t in {QuizGeneration, AnswerEvaluation}
  }

  /** The lines `_format_context` writes before the sources' blocks. */
  function LeadLines(t: ContextType, concept: Option<Concept>): seq<string> {
    if ShowsConcept(t, concept) then ConceptLines(concept.value) else []
  }

  /** The lines `_format_context` joins, given the sources grouped by
      name. */
  function FormatParts(groups: Groups<ContextSource>, t: ContextType, concept: Option<Concept>): seq<string> {
    LeadLines(t, concept) + Blocks(groups)
  }

  /** What `_format_context` returns. */
  function FormattedContext(sources: seq<ContextSource>, t: ContextType, concept: Option<Concept>): string {
    if sources == [] then "" else Strip(Join("\n", FormatParts(GroupBy(sources, SourceNameOf), t, concept)))
  }

  /** The context is empty exactly when there are no sources. */
  lemma FormattedContextEmpty(sources: seq<ContextSource>, t: ContextType, concept: Option<Concept>)
    ensures FormattedContext(sources, t, concept) == "" <==> sources == []
  {
    if sources != [] {
      var groups := GroupBy(sources, SourceNameOf);
      GroupByCovers(sources, SourceNameOf);
      assert HasName(groups, SourceNameOf(sources[0]));
      ConcatMapAt(groups, Block, 0);
      var lead := LeadLines(t, concept);
      var parts := FormatParts(groups, t, concept);
      assert BlockStart(groups, 0) == 0 by { assert groups[..0] == []; }
      assert parts[|lead|] == Blocks(groups)[0] == Block(groups[0])[0];
      assert !IsSpace(BlockHeader(groups[0].0)[0]);
      JoinNotBlank("\n", parts, |lead|);
    }
  }

  /** The formatted lines open with the lead lines: the concept lines
      exactly for quiz and evaluation contexts with a concept, and none
      otherwise. */
  lemma FormatPartsLead(groups: Groups<ContextSource>, t: ContextType, concept: Option<Concept>)
    ensures |LeadLines(t, concept)| <= |FormatParts(groups, t, concept)|
    ensures FormatParts(groups, t, concept)[..|LeadLines(t, concept)|] == LeadLines(t, concept)
    ensures ShowsConcept(t, concept) ==> LeadLines(t, concept) == ConceptLines(concept.value)
    ensures !ShowsConcept(t, concept) ==> LeadLines(t, concept) == []
  {
  }

  /** After the lead lines comes one block per group, in the groups'
      order, and the last block ends the lines. For the sources' own
      groups that is one block per distinct source name, in order of first
      appearance (`FormatBlocksOrder`), holding the stripped contents of
      that source's chunks in their retrieved order
      (`Grouping.GroupMembers`). */
  lemma FormatPartsLayout(groups: Groups<ContextSource>, t: ContextType, concept: Option<Concept>, p: nat)
    requires p < |groups|
    ensures var parts := FormatParts(groups, t, concept);
      var s := |LeadLines(t, concept)| + BlockStart(groups, p);
      var e := s + |Block(groups[p])|;
      e <= |parts| && parts[s..e] == Block(groups[p])
      && (p == |groups| - 1 ==> e == |parts|)
  {
    ConcatMapAt(groups, Block, p);
    SliceAfter(LeadLines(t, concept), Blocks(groups), BlockStart(groups, p), Block(groups[p]));
  }

  /** A slice of `b` sits at the same place, shifted, in `a + b`. */
  lemma SliceAfter<T>(a: seq<T>, b: seq<T>, s: nat, x: seq<T>)
    requires s + |x| <= |b| && b[s..s + |x|] == x
    ensures |a| + s + |x| <= |a + b| && (a + b)[|a| + s..|a| + s + |x|] == x
    ensures (a + b)[..|a|] == a
  {
    assert (a + b)[|a| + s..|a| + s + |x|] == b[s..s + |x|];
  }

  /** `_format_context`. */
  method FormatContext(sources: seq<ContextSource>, t: ContextType, concept: Option<Concept>)
    returns (context: string)
    ensures context == FormattedContext(sources, t, concept)
  {
    if sources == [] {
      return "";
    }
    var lead: seq<string> := [];
    if ShowsConcept(t, concept) {
      lead := ConceptLines(concept.value);
    }
    var groups := GroupInOrder(sources, SourceNameOf);
    var blocks := BlocksOf(groups);
    var parts := lead + blocks;
    context := Strip(Join("\n", parts));
  }

  /** The loop of `_format_context` over the sources. */
  method BlocksOf(groups: Groups<ContextSource>) returns (parts: seq<string>)
    ensures parts == Blocks(groups)
  {
    parts := [];
    for g := 0 to |groups|
      invariant parts == Blocks(groups[..g])
    {
      ConcatMapSnoc(groups, Block, g);
      var block := BlockOf(groups[g]);
      parts := parts + block;
    }
    assert groups[..|groups|] == groups;
  }

  /** The lines of one source's block, as `_format_context` appends them. */
  method BlockOf(g: (string, seq<ContextSource>)) returns (block: seq<string>)
    ensures block == Block(g)
  {
    block := [BlockHeader(g.0)];
    var members := g.1;
    for i := 0 to |members|
      invariant block == [BlockHeader(g.0)] + StrippedContents(members[..i])
    {
      assert members[..i + 1][..i] == members[..i];
      block := block + [Strip(members[i].content)];
    }
    assert members[..|members|] == members;
    block := block + [""];
  }

  /** The chunks the retrieval service returned, as context sources. */
  function SourceOf(c: Rag.RetrievedChunk): ContextSource {
    ContextSource(c.sourceId, c.sourceName, c.text, c.similarityScore, c.chunkId)
  }

  function SourcesOf(chunks: seq<Rag.RetrievedChunk>): (r: seq<ContextSource>)
    ensures |r| == |chunks|
    ensures forall i :: 0 <= i < |chunks| ==> r[i] == SourceOf(chunks[i])
  {
    if chunks == [] then [] else SourcesOf(chunks[..|chunks| - 1]) + [SourceOf(chunks[|chunks| - 1])]
  }

  /** Python truthiness of an optional module id: present and not empty. */
  predicate Truthy(moduleId: Option<string>) {
    moduleId.Some? && moduleId.value != ""
  }

  const PreviewLimit := 2000

  /** The module content preview of the fallback: the first 2000
      characters, with "..." only when something was cut. */
  function Preview(content: string): (r: string)
    ensures |content| <= PreviewLimit ==> r == content
    ensures |content| > PreviewLimit ==>
      |r| == PreviewLimit + 3 && r[..PreviewLimit] == content[..PreviewLimit] && r[PreviewLimit..] == "..."
  {
    var preview := PyTake(content, PreviewLimit);
    if |content| > PreviewLimit then preview + "..." else preview
  }

  const ModuleListLimit := 5

  /** One line of the module list of the course overview. */
  function ModuleLine(m: Module): string {
    "- " + m.name + ": " + (if m.description != "" then m.description else "No description")
  }

  function ModuleLines(ms: seq<Module>): (r: seq<string>)
    ensures |r| == |ms|
    ensures forall i :: 0 <= i < |ms| ==> r[i] == ModuleLine(ms[i])
  {
    if ms == [] then [] else ModuleLines(ms[..|ms| - 1]) + [ModuleLine(ms[|ms| - 1])]
  }

  /** The fallback's lines about the requested module, if it exists. */
  function ModuleParts(found: Option<Module>): seq<string> {
    match found
    case None => []
    case Some(m) =>
      var all := GetAllContent(m);
      ["**Module: " + m.name + "**"]
        + (if m.description != "" then [m.description] else [])
        + (if all != "" then [Preview(all)] else [])
  }

  /** The fallback's course overview: name, description and the first five
      modules. */
  function CourseOverview(c: CourseInfo): seq<string> {
    ["**Course: " + c.name + "**"]
      + (if c.description != "" then [c.description] else [])
      + ["\nAvailable Modules:"]
      + ModuleLines(PyTake(c.modules, ModuleListLimit))
  }

  /** The lines `_build_fallback_context` joins. */
  function FallbackParts(c: CourseInfo, moduleId: Option<string>, concept: Option<Concept>): seq<string> {
    (if concept.Some? then ConceptLines(concept.value) else [])
      + (if Truthy(moduleId) then ModuleParts(GetModule(c, moduleId.value)) else CourseOverview(c))
  }

  /** The one source of the fallback: the whole module, at relevance 0.5. */
  function FallbackSources(c: CourseInfo, moduleId: Option<string>): (r: seq<ContextSource>)
    ensures |r| <= 1
    ensures r != [] <==> Truthy(moduleId) && GetModule(c, moduleId.value).Some?
  {
    if Truthy(moduleId) then
      match GetModule(c, moduleId.value)
      case None => []
      case Some(m) => [ContextSource(m.id, m.name, GetAllContent(m), 0.5, "")]
    else []
  }

  /** What `_build_fallback_context` returns. */
  function Fallback(c: CourseInfo, query: string, t: ContextType, moduleId: Option<string>, concept: Option<Concept>)
    : (r: ContextResult)
    ensures r.totalChunks == |r.sources| && (r.hasRelevantContent <==> r.sources != [])
    ensures r.hasRelevantContent <==> Truthy(moduleId) && GetModule(c, moduleId.value).Some?
    ensures r.query == query && r.contextType == t
  {
    var sources := FallbackSources(c, moduleId);
    ContextResult(Strip(Join("\n", FallbackParts(c, moduleId, concept))), sources, query, t, |sources|, sources != [])
  }

  /** The fallback's one source is the requested module, with its whole
      content. */
  lemma FallbackSourceIsModule(c: CourseInfo, moduleId: Option<string>)
    ensures var r := FallbackSources(c, moduleId);
      r != [] ==> var m := GetModule(c, moduleId.value).value;
        m.id == moduleId.value && r[0] == ContextSource(m.id, m.name, GetAllContent(m), 0.5, "")
  {
  }

  /** The fallback's text shows the module's content only as a preview of
      at most 2000 characters and the ellipsis. */
  lemma FallbackShowsPreview(c: CourseInfo, moduleId: Option<string>, concept: Option<Concept>)
    requires Truthy(moduleId) && GetModule(c, moduleId.value).Some?
    requires GetAllContent(GetModule(c, moduleId.value).value) != ""
    ensures var all := GetAllContent(GetModule(c, moduleId.value).value);
      Preview(all) in FallbackParts(c, moduleId, concept) && |Preview(all)| <= PreviewLimit + 3
  {
    var m := GetModule(c, moduleId.value).value;
    var all := GetAllContent(m);
    var mp := ModuleParts(Some(m));
    assert mp[|mp| - 1] == Preview(all);
    assert Preview(all) in mp;
  }

  /** Without a module id the fallback shows, after any concept lines, the
      course title and ends with at most five module lines. */
  lemma FallbackOverview(c: CourseInfo, moduleId: Option<string>, concept: Option<Concept>)
    requires !Truthy(moduleId)
    ensures var lead := if concept.Some? then |ConceptLines(concept.value)| else 0;
      var parts := FallbackParts(c, moduleId, concept);
      lead < |parts| && parts[lead] == "**Course: " + c.name + "**"
      && parts[|parts| - |ModuleLines(PyTake(c.modules, ModuleListLimit))|..] == ModuleLines(PyTake(c.modules, ModuleListLimit))
      && |ModuleLines(PyTake(c.modules, ModuleListLimit))| == if |c.modules| < ModuleListLimit then |c.modules| else ModuleListLimit
  {
    var lines := if concept.Some? then ConceptLines(concept.value) else [];
    var shown := ModuleLines(PyTake(c.modules, ModuleListLimit));
    var head := ["**Course: " + c.name + "**"] + (if c.description != "" then [c.description] else [])
      + ["\nAvailable Modules:"];
    assert CourseOverview(c) == head + shown;
    assert FallbackParts(c, moduleId, concept) == lines + (head + shown);
    EndsWith(lines, head, shown);
  }

  /** `c` ends `a + (b + c)`, and `b` starts right after `a`. */
  lemma EndsWith<T>(a: seq<T>, b: seq<T>, c: seq<T>)
    requires b != []
    ensures (a + (b + c))[|a|] == b[0]
    ensures (a + (b + c))[|a + (b + c)| - |c|..] == c
  {
    assert (a + (b + c))[|a + (b + c)| - |c|..] == (b + c)[|b|..];
  }

  /** `_build_fallback_context`. */
  method BuildFallbackContext(c: CourseInfo, query: string, t: ContextType, moduleId: Option<string>,
                              concept: Option<Concept>)
    returns (r: ContextResult)
    ensures r == Fallback(c, query, t, moduleId, concept)
  {
    var parts: seq<string> := [];
    var sources: seq<ContextSource> := [];
    if concept.Some? {
      parts := ConceptLines(concept.value);
    }
    ghost var conceptPart := parts;
    if Truthy(moduleId) {
      var found := GetModule(c, moduleId.value);
      parts := parts + ModuleParts(found);
      if found.Some? {
        var m := found.value;
        sources := [ContextSource(m.id, m.name, GetAllContent(m), 0.5, "")];
      }
    } else {
      var overview := OverviewLines(c);
      parts := parts + overview;
    }
    assert parts == FallbackParts(c, moduleId, concept);
    assert sources == FallbackSources(c, moduleId);
    r := ContextResult(Strip(Join("\n", parts)), sources, query, t, |sources|, sources != []);
  }

  /** The course overview branch of `_build_fallback_context`. */
  method OverviewLines(c: CourseInfo) returns (parts: seq<string>)
    ensures parts == CourseOverview(c)
  {
    parts := ["**Course: " + c.name + "**"];
    if c.description != "" {
      parts := parts + [c.description];
    }
    parts := parts + ["\nAvailable Modules:"];
    var shown := PyTake(c.modules, ModuleListLimit);
    var lead := parts;
    for i := 0 to |shown|
      invariant parts == lead + ModuleLines(shown[..i])
    {
      assert shown[..i + 1][..i] == shown[..i];
      parts := parts + [ModuleLine(shown[i])];
    }
    assert shown[..|shown|] == shown;
  }

  /** What `get_context` hands to the retrieval service's `retrieve`. */
  datatype RetrieveRequest = RetrieveRequest(
    query: string, sourceId: Option<string>, topK: int, excludeChunkIds: Option<set<string>>)

  /** Retrieval was asked and answered with chunks. */
  predicate RagAnswered(ragPresent: bool, ready: Call<bool>, retrieved: Call<seq<Rag.RetrievedChunk>>) {
    ragPresent && ready == Returned(true) && retrieved.Returned? && retrieved.value != []
  }

  /** `get_context`. `ragPresent` says whether the agent has a retrieval
      service; `ready` is what its `is_ready` did and `retrieved` the
      chunks of what its `retrieve` returned (or its exception). Any other
      outcome than a non-empty answer falls back. */
  method GetContext(c: CourseInfo, query: string, t: ContextType, moduleId: Option<string>,
                    concept: Option<Concept>, topK: Option<int>, excludeChunkIds: Option<set<string>>,
                    ragPresent: bool, ready: Call<bool>, retrieved: Call<seq<Rag.RetrievedChunk>>)
    returns (r: ContextResult, request: Option<RetrieveRequest>)
    ensures request.Some? <==> ragPresent && ready == Returned(true)
    ensures request.Some? ==>
      request.value == RetrieveRequest(EnhanceQuery(query, t, concept), moduleId, topK.GetOr(TopK(t)), excludeChunkIds)
    ensures !RagAnswered(ragPresent, ready, retrieved) ==> r == Fallback(c, query, t, moduleId, concept)
    ensures RagAnswered(ragPresent, ready, retrieved) ==>
      r.sources == SourcesOf(retrieved.value) && r.context == FormattedContext(r.sources, t, concept)
      && r.context != ""
    ensures r.query == query && r.contextType == t && r.totalChunks == |r.sources|
    ensures r.hasRelevantContent <==>
      RagAnswered(ragPresent, ready, retrieved) || (Truthy(moduleId) && GetModule(c, moduleId.value).Some?)
  {
    var k := if topK.Some? then topK.value else TopK(t);
    var chunks;
    chunks, request := AskRag(RetrieveRequest(EnhanceQuery(query, t, concept), moduleId, k, excludeChunkIds),
                              ragPresent, ready, retrieved);
    if chunks == [] {
      r := BuildFallbackContext(c, query, t, moduleId, concept);
    } else {
      var sources := SourcesOf(chunks);
      var formatted := FormatContext(sources, t, concept);
      FormattedContextEmpty(sources, t, concept);
      r := ContextResult(formatted, sources, query, t, |sources|, true);
    }
  }

  /** The retrieval half of `get_context`: `is_ready` is asked first, and
      `retrieve` only when it answered true; an exception from either, or a
      false answer, leaves no chunks. */
  method AskRag(want: RetrieveRequest, ragPresent: bool, ready: Call<bool>, retrieved: Call<seq<Rag.RetrievedChunk>>)
    returns (chunks: seq<Rag.RetrievedChunk>, request: Option<RetrieveRequest>)
    ensures request == if ragPresent && ready == Returned(true) then Some(want) else None
    ensures chunks != [] <==> RagAnswered(ragPresent, ready, retrieved)
    ensures chunks != [] ==> chunks == retrieved.value
  {
    request := None;
    chunks := [];
    if ragPresent {
      match ready {
        case Raised(_) =>
        case Returned(isReady) =>
          if isReady {
            request := Some(want);
            match retrieved {
              case Raised(_) =>
              case Returned(found) => chunks := found;
            }
          }
      }
    }
  }

  /** The arguments one of the `get_context_for_*` helpers passes to
      `get_context`. */
  datatype ContextRequest = ContextRequest(
    query: string, contextType: ContextType, moduleId: Option<string>, concept: Option<Concept>,
    topK: Option<int>, excludeChunkIds: Option<set<string>>)

  /** The quiz query: the concept's name, then its description and quiz
      focus when they are not empty, separated by spaces. */
  function QuizQuery(c: Concept): string {
    Join(" ", [c.name] + (if c.description != "" then [c.description] else [])
      + (if c.quizFocus != "" then [c.quizFocus] else []))
  }

  /** `get_context_for_quiz`. */
  function ForQuiz(c: Concept, m: Module): (r: ContextRequest)
    ensures r.topK == Some(TopK(r.contextType)) && r.contextType == QuizGeneration
    ensures r.moduleId == Some(m.id) && r.concept == Some(c) && r.excludeChunkIds.None?
    ensures |c.name| <= |r.query| && r.query[..|c.name|] == c.name
  {
    var parts := [c.name] + (if c.description != "" then [c.description] else [])
      + (if c.quizFocus != "" then [c.quizFocus] else []);
    JoinStartsWithFirst(" ", parts);
    ContextRequest(QuizQuery(c), QuizGeneration, Some(m.id), Some(c), Some(5), None)
  }

  /** The quiz query already names the concept, so the enhanced query only
      gains the quiz prefix. */
  lemma ForQuizEnhancedOnce(c: Concept, m: Module)
    ensures var r := ForQuiz(c, m);
      EnhanceQuery(r.query, r.contextType, r.concept) == QuizPrefix + r.query
  {
    var r := ForQuiz(c, m);
    assert r.query[..|c.name|] == c.name;
    OccursContains(r.query, c.name, 0);
  }

  /** `get_context_for_evaluation`. The concept description it receives
      is not used. */
  function ForEvaluation(question: string, conceptName: string, conceptDescription: string,
                         moduleId: Option<string>): (r: ContextRequest)
    ensures r.topK == Some(TopK(r.contextType)) && r.contextType == AnswerEvaluation
    ensures r.moduleId == moduleId && r.concept.None? && r.excludeChunkIds.None?
    ensures |conceptName| <= |r.query| && r.query[..|conceptName|] == conceptName
    ensures |question| <= |r.query| && r.query[|r.query| - |question|..] == question
  {
    ContextRequest(conceptName + ": " + question, AnswerEvaluation, moduleId, None, Some(3), None)
  }

  /** `get_context_for_llm_quiz`. */
  function ForLLMQuiz(question: string, m: Module): (r: ContextRequest)
    ensures r.topK == Some(TopK(r.contextType)) && r.contextType == LLMQuizChallenge
    ensures r.query == question && r.moduleId == Some(m.id) && r.concept.None? && r.excludeChunkIds.None?
  {
    ContextRequest(question, LLMQuizChallenge, Some(m.id), None, Some(7), None)
  }

  /** `get_context_for_assistant`. */
  function ForAssistant(question: string, moduleId: Option<string>, excludeChunkIds: Option<set<string>>)
    : (r: ContextRequest)
    ensures r.topK == Some(TopK(r.contextType)) && r.contextType == GeneralAssistant
    ensures r.query == question && r.moduleId == moduleId && r.concept.None? && r.excludeChunkIds == excludeChunkIds
  {
    ContextRequest(question, GeneralAssistant, moduleId, None, Some(5), excludeChunkIds)
  }

  /** The helpers other than the quiz search for their query with at most
      the type's prefix: the evaluation query gains only the evaluation
      prefix, and the LLM quiz and assistant queries are searched as they
      are. */
  lemma HelperQueriesEnhanced(question: string, conceptName: string, conceptDescription: string,
                              moduleId: Option<string>, m: Module, exclude: Option<set<string>>)
    ensures var r := ForEvaluation(question, conceptName, conceptDescription, moduleId);
      EnhanceQuery(r.query, r.contextType, r.concept) == EvaluationPrefix + conceptName + ": " + question
    ensures var r := ForLLMQuiz(question, m);
      EnhanceQuery(r.query, r.contextType, r.concept) == question
    ensures var r := ForAssistant(question, moduleId, exclude);
      EnhanceQuery(r.query, r.contextType, r.concept) == question
  {
  }
}
