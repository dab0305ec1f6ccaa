# chibi: a verified model of the tutoring bot's learning and integrity engine

chibi is a Discord tutoring bot. Students ask questions about a course, take
quizzes and LLM "stump the bot" challenges, and check in with rotating
attendance codes. This project models, in Dafny, the logic behind that
Discord surface and proves properties of it:

- **Mastery tracking** (`Mastery`, `QuizService`, `Profiles`, `Grades`).
  - The level cascade over attempts, correct answers and average quality.
  - The running mastery update after each logged attempt.
  - Parsing of the judge's reply.
  - Mastery-driven concept selection.
  - Student-profile counts and the per-module grade rows.
- **Guidance arithmetic** (`Guidance`). How many more attempts, correct
  answers and LLM-quiz wins a student needs, with the low-accuracy bound
  proved tight.
- **Attendance** (`Attendance`, `CodeGenerator`).
  - The session object as a state machine: inactive, then active, then inactive.
  - Code rotation with a code that always differs from the previous one.
  - The `/here` normalisation.
- **Anti-cheat** (`Similarity`). The threshold decision over vector-search
  results, which fails open when a search fails.
- **Supporting cores**:
  - the expiring pending-quiz table (`PendingQuizzes`);
  - the bounded per-(user, channel) conversation memory (`Memory`);
  - the primary/fallback LLM switch with its failure counter (`LLMManagement`);
  - the text chunker (`Chunking`);
  - the length-budgeted RAG context (`Rag`) and the context manager's query and format helpers (`ContextManager`);
  - course and module lookup (`Course`);
  - the progress bar and truncation formatters (`Formatters`);
  - message splitting and autocomplete (`CogUtils`);
  - the database records (`Models`).

`Wrappers`, `Text`, `Seqs`, `Dicts`, `Sorting` and `Grouping` hold shared
definitions:
- `Option`/`Result` and the `Call` outcome of an external call, which either
  returns a value or raises.
- Python's `strip`, `split`, `find` and `lower`, written out over `seq<char>`.
- Order-preserving de-duplication.
- Dictionary iteration order.
- An insertion sort proved sorted and a permutation.
- Group-by.

Classes model what the source updates in place:
- `AttendanceSessionManager`
- `PendingQuizManager`
- `ConversationMemory`
- `LLMManager`
- the mastery store of `QuizService`

Their methods state their whole new state and the invariant they keep.
Loops that build or update state are methods with loop invariants, each
proved against a specification function, and lemmas state what the source
promises about that function. The first-match searches of
chibi/content/course.py (`get_concept`, `get_module` and the rule loops of
`find_module`) and the separator and piece loops of `_recursive_split` in
chibi/services/chunking.py are recursive functions instead; their contracts
state the first match and the pieces' properties directly. Ratios and averages are exact reals and
integer cross-multiplication, not floats.

On these points the model follows the code:
- **Mastery level.** The level is a cascade:
  - fewer than `min_attempts` attempts gives novice;
  - otherwise a ratio of at least 0.85 with average quality at least 4.0,
    or exactly 0, gives mastered;
  - otherwise at least 0.6 gives proficient;
  - otherwise at least 0.3 gives learning;
  - otherwise novice.

  The `quality_threshold` and `correct_ratio_threshold` configuration
  fields are never consulted (chibi/learning/mastery.py:107-147).
- **Repeat attendance.** A repeat attendance submission overwrites the
  earlier one. There is no "already submitted" outcome
  (chibi/services/attendance_session.py:109-114).
- **Scenario test.** A scenario test expects "learning" after two
  attempts, but with the default `min_attempts` of 3 the code gives
  novice. The model gives novice.

## Model

| member | source | states |
|---|---|---|
| Attendance.SubmissionCount | chibi/services/attendance_session.py:109-114 | storing a submission adds one entry for a new user and none for a user who already submitted, so a resubmission overwrites |
| Attendance.RecordsOnePerUser | chibi/services/attendance_session.py:141-150 | the records `end_session` builds number as many as the submitting users, name each user once, and carry each user's latest submission |
| Attendance.RecordsFor | chibi/services/attendance_session.py:142-150 | the loop over `submissions.items()` yields, position by position, the record of each user in insertion order |
| Attendance.AttendanceSessionManager.constructor | chibi/services/attendance_session.py:32-46 | a new manager has every field empty, no submissions and no active session |
| Attendance.AttendanceSessionManager.StartSession | chibi/services/attendance_session.py:48-70 | refused with `SessionAlreadyActive` and no change while active; otherwise an active session with the initial code, the clock-made id, the message and channel ids, and no submissions |
| Attendance.AttendanceSessionManager.UpdateCode | chibi/services/attendance_session.py:72-84 | refused with `NoActiveSession` and no change when inactive; otherwise only the current code changes |
| Attendance.AttendanceSessionManager.SubmitAttendance | chibi/services/attendance_session.py:86-114 | `NoActiveSession` when inactive and `InvalidCode` for a code other than the current one, both without change; otherwise the user's entry is set (replacing an earlier one) and nothing else changes; the count grows by at most one |
| Attendance.AttendanceSessionManager.ValidateCode | chibi/services/attendance_session.py:116-127 | true exactly when a session is active and the code equals the current code |
| Attendance.AttendanceSessionManager.EndSession | chibi/services/attendance_session.py:129-160 | `NoActiveSession` when inactive; otherwise one record per submitting user in insertion order and the session id, after which the session is inactive without code or start time, the submissions kept |
| Attendance.AttendanceSessionManager.GetSubmissionCount | chibi/services/attendance_session.py:162-168 | the number of distinct users who submitted |
| Attendance.AttendanceSessionManager.Reset | chibi/services/attendance_session.py:186-196 | every field back to its initial empty value, inactive |
| Attendance.RotateCode | chibi/cogs/attendance.py:716-725 | the rotated code differs from the one it replaces, so no code accepted before is accepted after; submissions and session id are unchanged |
| Attendance.Here | chibi/cogs/attendance.py:174-190 | the typed code is upper-cased and stripped before submission; accepted exactly when that normalised code is the current code of an active session, otherwise an error and no change |
| Chunking.ChunkId | chibi/services/chunking.py:19-22 | the id starts with the source id followed by `_chunk_` and something after it |
| Chunking.ChunkIdInjective | chibi/services/chunking.py:19-22 | two chunks of one source with non-negative indices have the same id exactly when they have the same index |
| Chunking.CollapseSpaces | chibi/services/chunking.py:119 | collapsing runs of spaces and tabs never lengthens the text |
| Chunking.CollapseNewlines | chibi/services/chunking.py:121 | collapsing runs of three or more newlines never lengthens the text |
| Chunking.CollapseSpacesFacts | chibi/services/chunking.py:119 | after the substitution there is no tab and no two spaces in a row; the last character is the input's, a tab turned into a space |
| Chunking.CollapseSpacesFixed | chibi/services/chunking.py:119 | a text without tabs or double spaces is left unchanged |
| Chunking.CollapseNewlinesEnd | chibi/services/chunking.py:121 | the last character is kept, and the result ends in two newlines only when the input does |
| Chunking.CollapseNewlinesRuns | chibi/services/chunking.py:121 | after the substitution there are no three newlines in a row, and it creates no tab or double space |
| Chunking.CollapseNewlinesFixed | chibi/services/chunking.py:121 | a text without three newlines in a row is left unchanged |
| Chunking.CleanTextFacts | chibi/services/chunking.py:116-123 | the cleaned text has no tab, no double space, no triple newline and no surrounding whitespace, and cleaning is idempotent |
| Chunking.CleanIsFixed | chibi/services/chunking.py:116-123 | a text that is already clean is its own cleaning |
| Chunking.Slice | chibi/services/chunking.py:173 | Python slicing `text[i : i + chunk_size]`, with a negative end counted from the end and an empty result when the end is before the start |
| Chunking.WindowsFromSound | chibi/services/chunking.py:172-175 | every piece kept from a given window on is a non-blank window starting inside the text |
| Chunking.WindowsFromComplete | chibi/services/chunking.py:172-175 | every non-blank window starting inside the text is kept |
| Chunking.WindowLength | chibi/services/chunking.py:173 | with a non-negative `chunk_size` a window is at most `chunk_size` long |
| Chunking.SizePiecesFacts | chibi/services/chunking.py:169-176 | `_split_by_size` keeps exactly the non-blank windows `text[i : i + chunk_size]` at the stride multiples inside the text, each at most `chunk_size` long |
| Chunking.SplitBySize | chibi/services/chunking.py:169-176 | a zero stride raises the `range` error; any other stride returns `SizePieces`, whose contents `SizePiecesFacts` describes |
| Chunking.IndexOf | chibi/services/chunking.py:161 | `separators.index(sep)` is the first position holding `sep` |
| Chunking.NonBlank | chibi/services/chunking.py:150 | the filter keeps exactly the pieces that are not blank |
| Chunking.RecursiveSplitGood | chibi/services/chunking.py:125-167 | when `_recursive_split` of a non-blank text returns, its pieces are non-blank and each at most `chunk_size` long |
| Chunking.TrySeparatorsGood | chibi/services/chunking.py:142-167 | when the loop over the separators returns, it gives non-blank pieces within `chunk_size` |
| Chunking.SplitAllGood | chibi/services/chunking.py:154-164 | keeping the short pieces and splitting the long ones again gives, when nothing raises, non-blank pieces within `chunk_size` |
| Chunking.SizePiecesGood | chibi/services/chunking.py:169-176 | the size split gives non-blank pieces within `chunk_size`, whatever the sign of the stride |
| Chunking.RecursiveSplitShort | chibi/services/chunking.py:134-139 | whatever the stride, an empty text gives no pieces and a text within `chunk_size` is returned whole |
| Chunking.RecursiveSplitReturns | chibi/services/chunking.py:125-176 | the only error `_recursive_split` can raise is the zero-stride `range` error |
| Chunking.TrySeparatorsReturns | chibi/services/chunking.py:142-167 | the separator loop raises only the zero-stride `range` error |
| Chunking.SplitAllReturns | chibi/services/chunking.py:154-164 | the loop over the pieces raises only the zero-stride `range` error |
| Chunking.ZeroStrideRaises | chibi/services/chunking.py:142-176 | with a zero stride, a text longer than `chunk_size` that contains none of the non-empty separators raises |
| Chunking.TrySeparatorsRaise | chibi/services/chunking.py:142-167 | with a zero stride and no remaining separator in the text, the loop falls through to `_split_by_size` and raises |
| Chunking.LongEnough | chibi/services/chunking.py:213 | the filter keeps exactly the chunks at least `min_chunk_size` long |
| Chunking.MergeAllSaved | chibi/services/chunking.py:186-206 | throughout the merge loop every saved chunk is stripped and not blank |
| Chunking.MergedFacts | chibi/services/chunking.py:178-215 | every chunk returned is stripped, not blank and at least `min_chunk_size` long, and every saved chunk of that length is returned |
| Chunking.MergeAndOverlap | chibi/services/chunking.py:178-215 | the method computes `Merged`, whose contents `MergedFacts` describes |
| Chunking.MergeLoop | chibi/services/chunking.py:183-206 | the loop's final state is the fold of one step per piece |
| Chunking.Absorb | chibi/services/chunking.py:187-206 | one piece through the loop: skipped when blank, saving the current chunk and restarting with the overlap when it would exceed `chunk_size`, appended with a space otherwise |
| Chunking.FirstFromIsFind | chibi/services/chunking.py:96-98 | the search from a position is Python's `find` with -1 read as the fallback |
| Chunking.PlaceAtIsFind | chibi/services/chunking.py:95-98 | a chunk is placed at `text.find(chunk[:50], pos)`, or at `pos` when that is -1; so at `pos` or at an occurrence of its first 50 characters at or after it |
| Chunking.ChunksFromFields | chibi/services/chunking.py:94-109 | one chunk per merged text, in order, numbered on, with the given source, and the end `len(text)` after the start |
| Chunking.ChunksFromPlaced | chibi/services/chunking.py:94-112 | the first chunk is placed from the running position and each later one from the previous chunk's end less the overlap |
| Chunking.ChunksFacts | chibi/services/chunking.py:62-114 | a blank text gives no chunks; otherwise `chunk_text` raises exactly when `_recursive_split` of the cleaned text raises, and else returns one chunk per merged chunk, numbered from 0, stripped, non-blank, at least `min_chunk_size` long, ending `len(text)` after its start, with id `source_id + "_chunk_" + index` |
| Chunking.ChunksRaiseOnlyForZeroStride | chibi/services/chunking.py:62-114 | `chunk_text` never raises with a non-zero stride, and any error it raises is the `range` error |
| Chunking.ShortTextChunksAtAnyStride | chibi/services/chunking.py:78-85 | whatever the stride, a non-blank text that cleans to at most `chunk_size` characters is chunked without raising |
| Chunking.ChunkText | chibi/services/chunking.py:62-114 | the method returns or raises as `Chunks` does, which `ChunksFacts` and `ChunksRaiseOnlyForZeroStride` describe |
| Chunking.PlaceChunks | chibi/services/chunking.py:91-114 | the numbering and placing loop computes `ChunksFrom` from position 0 |
| CodeGenerator.CharSetChars | chibi/utils/code_generator.py:6-7 | the alphabet has 32 characters, each an upper-case letter other than I and O or a digit other than 0 and 1 |
| CodeGenerator.CharSetUnambiguous | chibi/utils/code_generator.py:6-7 | the look-alikes I, O, 0 and 1 are not in the alphabet |
| CodeGenerator.CodeFrom | chibi/utils/code_generator.py:24 | a candidate built from `length` draws has exactly `length` characters |
| CodeGenerator.CodeFromAt | chibi/utils/code_generator.py:24 | the `i`-th character of a candidate is the alphabet's character at the `i`-th draw |
| CodeGenerator.RoundCode | chibi/utils/code_generator.py:23-24 | each pass of the retry loop draws a candidate of exactly `length` characters |
| CodeGenerator.GenerateCode | chibi/utils/code_generator.py:10-26 | the code has `length` characters, all from the alphabet, differs from the previous code, and is the first candidate that does (every earlier candidate equalled the previous code) |
| CodeGenerator.CodeFromInCharSet | chibi/utils/code_generator.py:24 | every character of a candidate comes from the alphabet |
| CodeGenerator.DrawCode | chibi/utils/code_generator.py:24 | the join over `range(length)` makes one draw per character, in order |
| CodeGenerator.FirstRoundWhenNothingToAvoid | chibi/utils/code_generator.py:23-26 | without a previous code, or with one of another length, the loop ends after the first candidate |
| CogUtils.PiecesFromFacts | chibi/cogs/utils.py:94 | the slices `content[i:i + 1990]` over `range(start, len(content), 1990)` put back together give the content from `start` on, each 1 to 1990 characters long |
| CogUtils.ChunkedMessagesFacts | chibi/cogs/utils.py:80-96 | content within 2000 characters is sent as one message; longer content as at least two messages of 1 to 1990 characters; in both cases the messages concatenate to the content |
| CogUtils.MatchingChoices | chibi/cogs/utils.py:115-121 | there are never more matching choices than modules |
| CogUtils.MatchingChoicesExact | chibi/cogs/utils.py:115-121 | every choice comes from a module whose "id: name" contains the typed text ignoring case, shows that name cut to 100 characters and stands for the module id; every such module has its choice |
| CogUtils.ModuleAutocompleteChoices | chibi/cogs/utils.py:99-123 | no choices without a course; otherwise the first 25 matching choices in course order, each name at most 100 characters |
| Course.GetConcept | chibi/content/course.py:34-39 | None exactly when no concept has the id; otherwise the first concept with that id |
| Course.GetAllContent | chibi/content/course.py:45-51 | the fetched texts joined with "\n\n": empty without contents, the text itself for one, and otherwise as long as the texts plus two characters per separator |
| Course.GetModule | chibi/content/course.py:73-78 | None exactly when no module has the id; otherwise the first module with that id |
| Course.FirstRuleMatch | chibi/content/course.py:94-125 | one matching pass: -1 exactly when no module satisfies the rule, otherwise the first module that does |
| Course.FindFromRule | chibi/content/course.py:94-127 | None exactly when no module satisfies any remaining rule; otherwise the first module under the earliest rule some module satisfies |
| Course.FindModule | chibi/content/course.py:80-127 | None for an empty query; for the lower-cased, stripped query, None exactly when no module satisfies any of the six rules, otherwise the first module under the earliest rule (exact id, exact name, query in name, name in query, concept name, shared word) that some module satisfies |
| Course.ExactIdWins | chibi/content/course.py:94-97 | a case-insensitive exact id match beats every name and concept match, and the first module with that id is returned |
| Course.BlankQueryFindsAModule | chibi/content/course.py:89-106 | a non-empty all-whitespace query is not rejected: it normalises to "", which lies inside every name, so a course with modules always answers it |
| Course.BlankNormalizesToEmpty | chibi/content/course.py:92 | a blank query lower-cases and strips to "" |
| Course.GetModuleChoices | chibi/content/course.py:129-135 | one ("id: name", id) pair per module, in course order |
| Course.InsertAllKeys | chibi/content/course.py:143-146 | inserting concepts in order keeps the old keys and adds exactly the inserted ids |
| Course.InsertAllLastWins | chibi/content/course.py:146 | the last concept inserted under an id is the one kept |
| Course.InsertAllUntouched | chibi/content/course.py:146 | an id no inserted concept carries keeps its old entry |
| Course.GetAllConcepts | chibi/content/course.py:137-147 | the nested loop builds the dictionary of inserting every concept of the course in order |
| Course.GetAllConceptsSpec | chibi/content/course.py:137-147 | the dictionary holds exactly the course's concept ids, each mapped to the last concept carrying it |
| Formatters.Repeat | chibi/ui/formatters.py:34-37 | `c * n` is `n` copies of `c` |
| Formatters.FloorShare | chibi/ui/formatters.py:27-29 | `count * 20 / total` rounded down brackets the exact share of the bar |
| Formatters.SegmentsFillBar | chibi/ui/formatters.py:23-30 | each of the mastered, proficient and learning segments is its count's share of 20 rounded down; no segment is negative and the four fill exactly 20 cells |
| Formatters.ProgressBarLayout | chibi/ui/formatters.py:6-39 | with no concepts the bar is "[ No data yet ]"; otherwise 20 cells between brackets, mastered cells first, then proficient, learning and novice |
| Formatters.GetMasteryEmoji | chibi/ui/formatters.py:42-51 | a known level gets its emoji from the table, any other string the white square |
| Formatters.TruncateText | chibi/ui/formatters.py:54-67 | a missing or empty text gives ""; a text within the limit is returned unchanged; a longer one is a prefix of the text (`text[:max_length - len(suffix)]`, negative lengths counted from the end) followed by the suffix |
| Formatters.TruncateToLimit | chibi/ui/formatters.py:65-67 | when the suffix fits within the limit, an overlong text becomes exactly `max_length` characters: its beginning, then the suffix |
| Grades.ByConcept | chibi/services/grade_service.py:51 | the dictionary comprehension has an entry for every record's concept id and no other key |
| Grades.ByConceptLastWins | chibi/services/grade_service.py:51 | when a concept has several records, the last one is kept |
| Grades.CompletedCount | chibi/services/grade_service.py:57-63 | the completed count never exceeds the number of concepts |
| Grades.CompletedCountExtremes | chibi/services/grade_service.py:57-63 | the count equals the number of concepts exactly when every concept has a proficient or mastered record, and is 0 exactly when none has |
| Grades.CompletionPct | chibi/services/grade_service.py:66-70 | the percentage lies in [0, 100], is exactly completed / len * 100 for a module with concepts, is 100 exactly when every concept of a non-empty module is completed and 0 exactly when none is (including a module without concepts) |
| Grades.ShareFacts | chibi/services/grade_service.py:67 | `n / len * 100` for `0 <= n <= len` is in [0, 100], 100 only for `n == len` and 0 only for `n == 0` |
| Grades.UserRows | chibi/services/grade_service.py:53-79 | one row per reported module, in order, each the student's completion for that module |
| Grades.GradeRowsCount | chibi/services/grade_service.py:49-79 | there is one row per (student, module) pair |
| Grades.GradeRowAt | chibi/services/grade_service.py:49-79 | students are outermost and modules innermost: row `i * modules + j` is student `i`'s row for module `j` |
| Grades.GenerateGradeCsv | chibi/services/grade_service.py:27-81 | the header is `discord_id, username, module, completion_pct`, and the rows cover the target module alone or every module, student by student |
| Grades.UserRowsOf | chibi/services/grade_service.py:53-79 | the inner loop builds one row per module from the student's records |
| Grades.ReportedModules | chibi/services/grade_service.py:40-43 | only the target module when one is given, every course module otherwise |
| Grouping.AddTo | chibi/services/rag_service.py:137-140 | one step of the grouping loop: the element joins the group of its name, which is opened at the end when new; other groups are unchanged and names stay distinct |
| Grouping.GroupBy | chibi/services/rag_service.py:135-140 | the dictionary built by the loop has distinct names |
| Grouping.GroupInOrder | chibi/services/rag_service.py:135-140 | the loop computes `GroupBy` |
| Grouping.GroupByCovers | chibi/services/rag_service.py:135-140 | every name that occurs has a group |
| Grouping.GroupByMembers | chibi/services/rag_service.py:135-140 | each group holds exactly the elements of its name, in their original order, and its name occurs |
| Grouping.GroupByOrder | chibi/services/rag_service.py:135-142 | the groups iterate in order of each name's first appearance |
| Rag.ChunkTexts | chibi/services/rag_service.py:150 | the stripped text of every chunk, position by position |
| Rag.FillFromStep | chibi/services/rag_service.py:149-158 | a chunk whose cost (stripped length + 2) keeps `current + header + cost` within the limit is appended with two newlines and its cost added |
| Rag.FillFromTotal | chibi/services/rag_service.py:149-158 | the running total only grows, and it grows only while it stays within the limit less the header |
| Rag.FillFromLength | chibi/services/rag_service.py:149-158 | a source's block grows by exactly what the running total grows by |
| Rag.FillFromPrefix | chibi/services/rag_service.py:149-158 | the inner loop only appends to the source's text |
| Rag.FillSourceFacts | chibi/services/rag_service.py:146-158 | the inner loop over one source's chunks: the total grows only within the limit less the header, and the block, beginning with the header, grows by exactly that much |
| Rag.FillSources | chibi/services/rag_service.py:142-163 | the outer loop yields at most one block per source |
| Rag.FillSourcesStep | chibi/services/rag_service.py:142-163 | the first source's block is always added, and the rest follow only while the total is below the limit |
| Rag.FillSourcesFacts | chibi/services/rag_service.py:142-163 | every visited source yields one block opening with its header, in group order; the total ends within the limit unless nothing was added; the blocks' length is their headers plus the counted chunk costs |
| Rag.BuildContextBudget | chibi/services/rag_service.py:122-165 | the chunk texts added cost at most `max_context_length`, and the context is at most that plus the headers of the sources shown |
| Rag.FillOne | chibi/services/rag_service.py:149-158 | the inner loop computes `FillSource` |
| Rag.FillTexts | chibi/services/rag_service.py:149-158 | the loop over the stripped texts computes `FillFrom`, stopping at the first chunk that does not fit |
| Rag.BuildContext | chibi/services/rag_service.py:122-165 | the method computes `BuiltContext`: group by source in first-appearance order, sort each group by `chunk_index`, fill the sources in turn, strip the joined blocks |
| Rag.FillAll | chibi/services/rag_service.py:142-163 | the loop over the sources computes `FillSources` from a zero total |
| Rag.AboveThreshold | chibi/services/rag_service.py:95-97 | the similarity filter never adds chunks |
| Rag.AboveThresholdExact | chibi/services/rag_service.py:95-97 | exactly the chunks scoring at least `min_similarity` are kept |
| Rag.AboveThresholdAppend | chibi/services/rag_service.py:95-97 | the filter distributes over concatenation, so it keeps the search order |
| Rag.Retrieve | chibi/services/rag_service.py:54-120 | no embedding, or no chunk above the threshold, gives the empty result; otherwise the filtered chunks, their built context and their count |
| Rag.FirstById | chibi/services/rag_service.py:192-195 | de-duplication never adds chunks |
| Rag.FirstByIdFacts | chibi/services/rag_service.py:183-195 | the kept chunks have distinct ids, come from the input, and cover every id of the input |
| Rag.FirstByIdDistinct | chibi/services/rag_service.py:192-195 | no two kept chunks share an id |
| Rag.FirstByIdFrom | chibi/services/rag_service.py:192-195 | every kept chunk is an input chunk |
| Rag.FirstByIdCovers | chibi/services/rag_service.py:192-195 | every input id is the id of some kept chunk |
| Rag.ConceptChunksFacts | chibi/services/rag_service.py:183-199 | the chunks of `retrieve_for_concepts` have distinct ids, descending similarity, number at most `2 * top_k`, and were each retrieved for some concept |
| Rag.ConceptChunksOrdered | chibi/services/rag_service.py:192-199 | the kept chunks have distinct ids and descending similarity |
| Rag.ConceptChunksRetrieved | chibi/services/rag_service.py:186-199 | each kept chunk was retrieved for some concept |
| Rag.IdsOfSnoc | chibi/services/rag_service.py:195 | adding a chunk adds its id to `seen_chunk_ids` |
| Rag.FirstByIdSnoc | chibi/services/rag_service.py:193-195 | one more chunk is kept exactly when its id is new |
| Rag.AddUnseen | chibi/services/rag_service.py:192-195 | one concept's chunks pass through the de-duplication loop, and `seen_chunk_ids` stays the ids of the kept chunks |
| Rag.RetrieveForConcepts | chibi/services/rag_service.py:167-208 | the chunks are the de-duplicated, similarity-sorted first `2 * top_k`; the context is built from them, the query is the concepts joined by ", ", the count is theirs |
| Rag.IsReady | chibi/services/rag_service.py:210-231 | ready exactly when the index is connected, not empty and the embedding service is available |
| ContextManager.ChunkIds | chibi/agent/context_manager.py:56-59 | at most one id per source, and no empty id |
| ContextManager.ChunkIdsExact | chibi/agent/context_manager.py:56-59 | an id is listed exactly when some source carries it and it is not empty; with no empty ids the list is the sources' ids in order |
| ContextManager.SourceNamesAreGroups | chibi/agent/context_manager.py:51-54 | the unique source names are exactly the names of the blocks `_format_context` writes |
| ContextManager.TopKOrder | chibi/agent/context_manager.py:289-296 | every type has a positive entry in the table (so `default_top_k` is never used): evaluation 3 is the fewest, the LLM quiz 7 the most, quiz generation and the assistant share 5 |
| ContextManager.EnhanceQueryPrefix | chibi/agent/context_manager.py:298-319 | quiz generation adds "quiz question about ", evaluation "facts and definitions: ", the other types nothing; the concept's name is put in front only when the query does not contain it |
| ContextManager.EnhanceQuerySuffix | chibi/agent/context_manager.py:298-319 | the enhanced query always ends with the original query |
| ContextManager.EnhanceQueryNamesConcept | chibi/agent/context_manager.py:307-310 | with a concept, its name always occurs in the enhanced query |
| ContextManager.StrippedContents | chibi/agent/context_manager.py:355-356 | each source's content, stripped, in order |
| ContextManager.FormattedContextEmpty | chibi/agent/context_manager.py:321-359 | the formatted context is empty exactly when there are no sources |
| ContextManager.FormatPartsLead | chibi/agent/context_manager.py:331-343 | the lines open with the concept lines exactly for quiz-generation and evaluation contexts that have a concept, and with nothing otherwise |
| ContextManager.FormatPartsLayout | chibi/agent/context_manager.py:345-359 | after the lead lines come the source blocks in group order, each a header, the stripped contents and a blank line, the last one ending the lines |
| ContextManager.FormatContext | chibi/agent/context_manager.py:321-359 | the method computes `FormattedContext` |
| ContextManager.BlocksOf | chibi/agent/context_manager.py:353-357 | the loop over the groups appends every block in order |
| ContextManager.BlockOf | chibi/agent/context_manager.py:354-357 | one source's block: the header line, each stripped content, a blank line |
| ContextManager.SourcesOf | chibi/agent/context_manager.py:149-158 | one context source per retrieved chunk, in order, carrying its id, name, text, score and chunk id |
| ContextManager.Preview | chibi/agent/context_manager.py:388-394 | content within 2000 characters is shown whole; longer content as its first 2000 characters followed by "..." |
| ContextManager.ModuleLines | chibi/agent/context_manager.py:413-414 | one "- name: description" line per module, "No description" for an empty description |
| ContextManager.FallbackSources | chibi/agent/context_manager.py:382-403 | at most one source, present exactly when a non-empty module id names an existing module |
| ContextManager.Fallback | chibi/agent/context_manager.py:361-425 | the fallback result counts its sources, has relevant content exactly when a non-empty module id names an existing module, and keeps the query and type |
| ContextManager.FallbackSourceIsModule | chibi/agent/context_manager.py:396-403 | the fallback's one source is the requested module, with its whole content at relevance 0.5 |
| ContextManager.FallbackShowsPreview | chibi/agent/context_manager.py:388-394 | the fallback text shows the module's content only as the preview, at most 2003 characters |
| ContextManager.FallbackOverview | chibi/agent/context_manager.py:405-414 | without a module id the lines show, after any concept lines, the course title and end with one line for each of the first five modules |
| ContextManager.BuildFallbackContext | chibi/agent/context_manager.py:361-425 | the method computes `Fallback` |
| ContextManager.OverviewLines | chibi/agent/context_manager.py:406-414 | the overview branch builds the course title, its description when present, the heading and the first five module lines |
| ContextManager.GetContext | chibi/agent/context_manager.py:93-181 | retrieval is asked (with the enhanced query, the module, the given or type's top_k and the exclusions) exactly when a service exists and reports ready; a non-empty answer gives its sources, their formatted non-empty context and relevant content; a missing service, not ready, an exception or no chunks give the fallback |
| ContextManager.AskRag | chibi/agent/context_manager.py:121-146 | `is_ready` first, `retrieve` only after a true answer; chunks come back exactly when retrieval answered with some |
| ContextManager.ForQuiz | chibi/agent/context_manager.py:183-214 | quiz generation for the module with the concept and the table's top_k 5; the query begins with the concept name |
| ContextManager.ForQuizEnhancedOnce | chibi/agent/context_manager.py:199-214 | the quiz query already names the concept, so enhancement only adds the quiz prefix |
| ContextManager.ForEvaluation | chibi/agent/context_manager.py:216-242 | evaluation with top_k 3 and no concept; the query is the concept name, then the question |
| ContextManager.ForLLMQuiz | chibi/agent/context_manager.py:244-263 | the LLM-quiz type for the module with top_k 7; the query is the question |
| ContextManager.ForAssistant | chibi/agent/context_manager.py:265-287 | the assistant type with top_k 5, passing the module and exclusions through |
| ContextManager.HelperQueriesEnhanced | chibi/agent/context_manager.py:216-287 | the evaluation query gains only the evaluation prefix; the LLM-quiz and assistant queries are searched as given |
| Guidance.Ceil | chibi/services/guidance_service.py:306 | the result is the least integer not below its argument, as `math.ceil` promises |
| Guidance.AtLeastZero | chibi/services/guidance_service.py:307 | `max(0, n)`: never negative, and equal to `n` when `n` is positive |
| Guidance.CalculateRequirements | chibi/services/guidance_service.py:290-355 | every branch asks for at least one more attempt and a non-negative number of correct answers |
| Guidance.BelowMinimumRequirements | chibi/services/guidance_service.py:303-321 | below the minimum: exactly the missing attempts, and the correct answers still missing from ⌈0.6·min⌉ (zero once reached) |
| Guidance.BelowMinimumAdviceSuffices | chibi/services/guidance_service.py:303-321 | when the advised correct answers fit in the missing attempts, following the advice reaches a 60% ratio at the minimum |
| Guidance.LowAccuracyRequirements | chibi/services/guidance_service.py:324-338 | with enough attempts and a positive deficit, the advice is n answers in a row with n = ⌈(0.6·T − C)/0.4⌉ |
| Guidance.AnswerInARowReachesProficient | chibi/services/guidance_service.py:326-333 | n more correct answers lift C of T to at least 60%, and n − 1 would not |
| Guidance.LowAccuracyAdviceIsTight | chibi/services/guidance_service.py:324-338 | the advised count, as a ratio, reaches 0.6 and one fewer stays below it |
| Guidance.LowAccuracyAdviceCompletes | chibi/services/guidance_service.py:324-338 | following the low-accuracy advice makes the concept proficient or mastered under the mastery calculator, whatever the later quality |
| Guidance.OtherCasesNeedOne | chibi/services/guidance_service.py:340-355 | every remaining case asks for one attempt and one correct answer; the quality advice appears exactly when accuracy ≥ 0.85 and 0 < quality < 4.0 |
| Guidance.ConceptGuidanceOf | chibi/services/guidance_service.py:215-288 | identity copied from the concept; an unstarted concept needs the minimum attempts and ⌈0.6·min⌉ correct; a complete one needs nothing; otherwise the requirements calculator decides |
| Guidance.IncompleteNeedsAnAttempt | chibi/services/guidance_service.py:215-288 | a concept is incomplete exactly when its guidance asks for at least one attempt |
| Guidance.QuizGuidanceOf | chibi/services/guidance_service.py:357-394 | wins and target come from the progress map or default to 0 and the configured target; complete iff wins ≥ target iff wins needed is 0 |
| Guidance.WinsNeededIsExact | chibi/services/guidance_service.py:370-371 | k more wins complete the challenge exactly when k is at least `wins_needed` |
| Guidance.ConceptGuidances | chibi/services/guidance_service.py:178-182 | one guidance per concept of the module |
| Guidance.ConceptGuidancesAt | chibi/services/guidance_service.py:178-180 | the i-th guidance is the guidance of the i-th concept |
| Guidance.GuidancesStep | chibi/services/guidance_service.py:178-180 | one more concept through the loop appends exactly its guidance |
| Guidance.CountComplete | chibi/services/guidance_service.py:181-182 | the completed count is at most the number of concepts, and equals it exactly when every concept is complete |
| Guidance.Percentage | chibi/services/guidance_service.py:154-156 | `complete / total * 100` when there are concepts, the given fallback otherwise; between 0 and 100, and 100 when all are complete |
| Guidance.SummarySentences | chibi/services/guidance_service.py:405-429 | one sentence per summary part |
| Guidance.IncompleteConcepts | chibi/services/guidance_service.py:414 | keeps exactly the guidances that are not complete |
| Guidance.ClosestIndex | chibi/services/guidance_service.py:416-418 | the first guidance with the least `needs_correct`, as a stable sort's head |
| Guidance.SummaryParts | chibi/services/guidance_service.py:396-429 | "all mastered" exactly when complete = total, otherwise the incomplete count, then the focus on an incomplete concept with the fewest missing correct answers, then the challenge sentence |
| Guidance.SummaryNamesAFocus | chibi/services/guidance_service.py:407-422 | whenever a concept is incomplete the summary has the focus sentence |
| Guidance.ModuleGuidanceOf | chibi/services/guidance_service.py:168-213 | the completed count never exceeds the concept count |
| Guidance.ModuleGuidanceFacts | chibi/services/guidance_service.py:168-213 | identity from the module, one guidance per concept in order, complete count = total iff all complete, percentage with 100 for an empty module, and the module's challenge guidance |
| Guidance.GenerateModuleGuidance | chibi/services/guidance_service.py:168-213 | the loop's result is the module guidance the specification function gives |
| Guidance.GuideConcepts | chibi/services/guidance_service.py:175-182 | the loop collects the concepts' guidances in order and counts the complete ones |
| Guidance.ByConcept | chibi/services/guidance_service.py:110-112 | each key maps to a record of that concept taken from the list, every record's concept is a key, and the last record wins |
| Guidance.ModulesToAnalyze | chibi/services/guidance_service.py:118-122 | no module id means all modules; otherwise at most the one module with that id, from the course |
| Guidance.ModuleGuidances | chibi/services/guidance_service.py:130-136 | one module guidance per analysed module |
| Guidance.ConceptActions | chibi/services/guidance_service.py:139-143 | one concept action, tagged with the module's name, per incomplete concept |
| Guidance.ModuleActions | chibi/services/guidance_service.py:138-152 | concept actions first; the last action is the challenge one exactly when the challenge is incomplete; all carry the module's name |
| Guidance.TotalCompleteBounded | chibi/services/guidance_service.py:135-136 | the total completed never exceeds the total concept count |
| Guidance.GetGuidance | chibi/services/guidance_service.py:94-166 | the guidance of every analysed module, overall completion between 0 and 100 (0 with no concepts), and the first five priority actions |
| Guidance.GuideModules | chibi/services/guidance_service.py:125-152 | the loop collects the modules' guidances, their totals (complete ≤ concepts) and all priority actions in order |
| Guidance.TotalsStep | chibi/services/guidance_service.py:130-152 | one more module adds its counts to the totals and appends its actions |
| Guidance.ModuleGuidancesStep | chibi/services/guidance_service.py:130-134 | one more module through the loop appends exactly its guidance |
| Guidance.UnknownModuleReportsNothing | chibi/services/guidance_service.py:118-120 | a module id the course does not know yields no modules, 0% and no actions |
| LLMManagement.FallbackAnswer | chibi/llm/manager.py:68-85 | the fallback yields an answer exactly when it reports itself available and its `generate` returns; otherwise nothing |
| LLMManagement.LLMManager.constructor | chibi/llm/manager.py:14-23 | a fresh manager has no recorded primary failures and the given skip threshold |
| LLMManagement.LLMManager.Generate | chibi/llm/manager.py:25-85 | a tried primary that answers gives its answer and resets the count; one that raises adds a failure and falls back; a skipped or unavailable primary leaves the count and falls back; the count stays within 0..max |
| LLMManagement.LLMManager.TryFallback | chibi/llm/manager.py:68-85 | the fallback path's answer, with the failure count untouched |
| LLMManagement.LLMManager.ResetPrimaryFailures | chibi/llm/manager.py:87-94 | the failure count is zero afterwards and nothing else changes |
| LLMManagement.PrimaryOutcomesPartition | chibi/llm/manager.py:49-62 | a tried primary answers, raises or reports itself down, and never both answers and raises |
| Mastery.DisplayName | chibi/learning/mastery.py:28-31 | the stored value with its first letter upper-cased and the rest unchanged |
| Mastery.Rank | chibi/learning/mastery.py:10-16 | the level's position in declaration order, at most 3 |
| Mastery.LevelAt | chibi/learning/mastery.py:172-175 | the level at a declared position has that position as its rank |
| Mastery.Ratio | chibi/learning/mastery.py:132 | correct / total when there are attempts, 0 otherwise; in [0, 1] when 0 ≤ correct ≤ total |
| Mastery.CorrectRatio | chibi/learning/mastery.py:58-61 | the stats' correct / total, 0 without attempts, in [0, 1] for consistent counts |
| Mastery.AccuracyPercentage | chibi/learning/mastery.py:63-66 | the ratio as a percentage, in [0, 100] and exactly 100 when every attempt is correct |
| Mastery.CalculateLevel | chibi/learning/mastery.py:107-147 | novice below the minimum attempts; mastered iff ratio ≥ mastered ratio and quality ≥ mastered quality or exactly 0; proficient iff not mastered and ratio ≥ proficient ratio; learning iff below that but ≥ learning ratio; novice otherwise |
| Mastery.LevelMonotoneInCorrect | chibi/learning/mastery.py:132-147 | with ordered thresholds, more correct answers among the same attempts never lower the level |
| Mastery.RatioAtLeast | chibi/learning/mastery.py:132-144 | comparing the ratio with n/d is the same as comparing d·correct with n·total |
| Mastery.DefaultLevelsByCrossMultiplying | chibi/learning/mastery.py:43-46 | under the default thresholds the level cascade is the integer tests 20c ≥ 17t, 5c ≥ 3t, 10c ≥ 3t |
| Mastery.DefaultLevelVectors | chibi/learning/mastery.py:107-147 | four concrete scenarios give novice, learning, proficient and mastered |
| Mastery.CountCorrect | chibi/learning/mastery.py:88 | the number of correct attempts, all of them exactly when every attempt is correct and none exactly when none is |
| Mastery.QualityScores | chibi/learning/mastery.py:91-95 | only present, positive scores are kept, and the list is empty exactly when no attempt has one |
| Mastery.SumBounds | chibi/learning/mastery.py:96 | a sum of values in [lo, hi] lies between lo·n and hi·n |
| Mastery.MeanBounds | chibi/learning/mastery.py:96 | the mean of values in [lo, hi] lies in [lo, hi] |
| Mastery.CalculateFromAttempts | chibi/learning/mastery.py:75-105 | no attempts give zero counts, 0.0 and novice; otherwise the count, the correct count (≤ count), the mean of the positive scores and the calculator's level for them |
| Mastery.AverageQualityFacts | chibi/learning/mastery.py:90-96 | the average is 0.0 exactly when no attempt has a positive score, and otherwise lies in [1, 5] for scores at most 5 |
| Mastery.QualityScoresAtMost | chibi/learning/mastery.py:91-95 | kept scores respect any upper bound the attempts' scores respect |
| Mastery.LevelFromString | chibi/learning/mastery.py:149-161 | the level whose value is the lower-cased string, or novice when there is none |
| Mastery.LevelFromStringRoundTrip | chibi/learning/mastery.py:158-159 | every level's value parses back to that level |
| Mastery.LevelFromStringCaseInsensitive | chibi/learning/mastery.py:159 | upper-casing the input does not change the parsed level |
| Mastery.NextLevel | chibi/learning/mastery.py:163-176 | the next level in declaration order, and mastered stays mastered |
| Mastery.NextLevelReachesMastered | chibi/learning/mastery.py:172-176 | three steps reach mastered from any level, and mastered is a fixed point |
| Memory.Trim | chibi/agent/memory.py:63-65 | a positive bound keeps exactly the newest min(n, bound) entries; a bound of 0 keeps everything; the result is always a suffix of the list |
| Memory.Messages | chibi/agent/memory.py:89 | one role/content message per entry, in order |
| Memory.Clip | chibi/agent/memory.py:119 | content of at most 200 characters is unchanged; longer content becomes its first 200 characters followed by "..." |
| Memory.SummaryLineShape | chibi/agent/memory.py:117-120 | a line is "User: " for the user's messages and "Assistant: " for any other role, followed by the clipped content |
| Memory.SummaryLines | chibi/agent/memory.py:115-120 | one summary line per message, in order |
| Memory.ChunkIdsExact | chibi/agent/memory.py:148-156 | an id is collected exactly when some assistant entry's "chunk_ids" list holds it |
| Memory.SummaryLinesNonEmpty | chibi/agent/memory.py:117-120 | no summary line is empty |
| Memory.JoinEmpty | chibi/agent/memory.py:112-122 | joining non-empty lines gives the empty string only when there are no lines |
| Memory.ConversationMemory.constructor | chibi/agent/memory.py:24-32 | a new memory has the given bound and no stored conversations |
| Memory.ConversationMemory.AddMessage | chibi/agent/memory.py:38-65 | only the key's list changes: the entry (with empty metadata when none is given) is appended and the list trimmed; with a positive bound the list fits it and ends with the new entry |
| Memory.ConversationMemory.GetHistory | chibi/agent/memory.py:67-89 | the messages of a suffix of the stored list: all of it when the limit is None or 0, the newest `limit` entries for a positive limit |
| Memory.ConversationMemory.GetContextSummary | chibi/agent/memory.py:91-122 | the newline join of the summary lines of the newest messages, empty exactly when there is no history |
| Memory.ConversationMemory.SummaryParts | chibi/agent/memory.py:115-120 | the loop builds exactly the summary lines of the messages |
| Memory.ConversationMemory.GetRecentChunkIds | chibi/agent/memory.py:124-156 | the chunk ids of the assistant entries among the newest `max_messages` entries |
| Memory.ConversationMemory.ClearHistory | chibi/agent/memory.py:158-167 | only the given key's list is removed |
| Memory.ConversationMemory.ClearAll | chibi/agent/memory.py:169-171 | no conversation is left |
| Memory.TrimKeepsNewest | chibi/agent/memory.py:61-65 | after appending and trimming, the newest entry is last and the kept entries are the newest ones in order |
| Models.NewConceptMastery | chibi/database/models.py:37-47 | a record built from its keys alone has no id, 0 attempts, 0 correct, a 0.0 average and level "novice" |
| Models.StatusSetsDisjoint | chibi/database/models.py:53-68 | no status is both approved and rejected, pending is neither, and each set has three members |
| Models.NewLLMQuizAttempt | chibi/database/models.py:71-88 | an attempt built without a review status is "auto_approved", which counts as approved, and keeps the given fields |
| PendingQuizzes.Live | chibi/services/pending_quiz_manager.py:77-92 | the entries whose age does not exceed the timeout, with their quizzes unchanged |
| PendingQuizzes.ExpiredUsers | chibi/services/pending_quiz_manager.py:81-85 | the expired users among the keys walked, never more than the keys |
| PendingQuizzes.ExpiredUsersExact | chibi/services/pending_quiz_manager.py:81-85 | walking the table's keys lists each expired user exactly once and no one else |
| PendingQuizzes.PendingQuizManager.constructor | chibi/services/pending_quiz_manager.py:35-38 | an empty table whose timeout is the given number of minutes |
| PendingQuizzes.PendingQuizManager.Add | chibi/services/pending_quiz_manager.py:40-47 | the quiz becomes its user's pending quiz, replacing any earlier one, and no other entry changes |
| PendingQuizzes.PendingQuizManager.Get | chibi/services/pending_quiz_manager.py:49-65 | nothing and no change for an unknown user; the quiz and no change when it is live; nothing, and the entry deleted, when its age exceeds the timeout |
| PendingQuizzes.PendingQuizManager.Remove | chibi/services/pending_quiz_manager.py:67-70 | returns the user's quiz if there is one and deletes exactly that entry |
| PendingQuizzes.PendingQuizManager.HasPending | chibi/services/pending_quiz_manager.py:72-75 | true exactly when the user has a live quiz, with `get`'s deletion of an expired one |
| PendingQuizzes.PendingQuizManager.CleanupExpired | chibi/services/pending_quiz_manager.py:77-92 | exactly the live entries remain, and the count returned is the number of entries removed |
| PendingQuizzes.PendingQuizManager.DeleteUsers | chibi/services/pending_quiz_manager.py:86-87 | the loop deletes every listed user and nothing else |
| PendingQuizzes.PendingQuizManager.CollectExpired | chibi/services/pending_quiz_manager.py:81-85 | the comprehension collects the expired users in the table's iteration order |
| PendingQuizzes.DeleteAll | chibi/services/pending_quiz_manager.py:86-87 | the keys left are those not listed, with their quizzes unchanged |
| PendingQuizzes.DeleteAllCount | chibi/services/pending_quiz_manager.py:86-92 | deleting distinct present keys shrinks the table by their number |
| PendingQuizzes.CleanupCount | chibi/services/pending_quiz_manager.py:77-92 | deleting the expired users leaves exactly the live entries, and their number is the number removed |
| Profiles.Lookup | chibi/learning/profile.py:28 | a key's value when the dictionary holds the key, nothing exactly when it does not |
| Profiles.Put | chibi/learning/profile.py:118 | an existing key keeps its place and takes the new value; a new key is appended; nothing else moves |
| Profiles.PutLookup | chibi/learning/profile.py:118 | after storing, the keys stay distinct, the stored key looks up to the new value and every other key to its old one |
| Profiles.PutDistinct | chibi/learning/profile.py:118 | storing keeps the keys distinct |
| Profiles.LookupIndex | chibi/learning/profile.py:28 | in a dictionary with distinct keys, each item is what its key looks up to |
| Profiles.LookupAt | chibi/learning/profile.py:28 | a present key looks up to the value of an item with that key |
| Profiles.MasteryItems | chibi/learning/profile.py:116-125 | the dictionary the loop builds has distinct keys |
| Profiles.LastWith | chibi/learning/profile.py:117-118 | the last record with a concept id, from the records, or none when no record has it |
| Profiles.MasteryItemsLookup | chibi/learning/profile.py:116-125 | a concept's statistics are those of its last record, level parsed from the stored string; a concept without a record is absent |
| Profiles.MasteryItemsStep | chibi/learning/profile.py:117-125 | one record more through the loop stores exactly that record's statistics under its concept |
| Profiles.ConceptMasteryOf | chibi/learning/profile.py:115-125 | the loop builds exactly the specified dictionary |
| Profiles.Recent | chibi/learning/profile.py:134-140 | `dict.fromkeys` keeps every id, adds none, and lists each once |
| Profiles.OverallAccuracy | chibi/learning/profile.py:34-39 | 0 without attempts, otherwise correct / attempts · 100, in [0, 100] for consistent counts |
| Profiles.LevelCount | chibi/learning/profile.py:41-71 | the number of concepts at a level never exceeds the number of concepts |
| Profiles.LevelCountsPartition | chibi/learning/profile.py:41-71 | the four level counts add up to the number of concepts |
| Profiles.MasterySummary | chibi/learning/profile.py:73-83 | "No concepts started yet" exactly when no concept has statistics; otherwise the counts line, opening with the trophy |
| Profiles.RecentTopics | chibi/learning/profile.py:85-89 | "None" without recent concepts, otherwise the ", " join of the first `limit` of them |
| Profiles.RecentTopicsShape | chibi/learning/profile.py:85-89 | with a positive limit the string starts with the most recent concept and has the length of the shown ids plus the separators; a limit of 0 gives "" |
| Profiles.WeakIds | chibi/learning/profile.py:202-207 | no more ids than records |
| Profiles.WeakIdsAppend | chibi/learning/profile.py:202-207 | the comprehension distributes over concatenation of the records |
| Profiles.WeakIdsExact | chibi/learning/profile.py:202-207 | every weak id comes from a novice or learning record with attempts, and every such record's id is listed |
| Profiles.GetWeakConcepts | chibi/learning/profile.py:183-209 | nothing for an unknown user; otherwise the first `limit` weak ids in record order |
| Profiles.SuggestNextConcept | chibi/learning/profile.py:211-232 | a suggestion exactly when the user is known and some record is weak, and then the id of the first weak record |
| Profiles.FirstWeak | chibi/learning/profile.py:228-230 | the weak ids are non-empty exactly when a weak record exists, and open with the first weak record's id |
| Profiles.FirstWeakAt | chibi/learning/profile.py:228-230 | the weak ids are non-empty exactly when a first weak index exists, and open with that record's id |
| QuizMarkers.HeadAtIsLowerSlice | chibi/services/quiz_service.py:358 | matching a marker's literal head ignoring case is comparing the lower-cased slice with it |
| QuizMarkers.SpacesFromIsLeadingSpaces | chibi/services/quiz_service.py:350-353 | the greedy `\s*` consumes exactly the leading whitespace of the rest |
| QuizMarkers.LazyClose | chibi/services/quiz_service.py:351-353 | the lazy group ends at a `]` found after its first character |
| QuizMarkers.LazyCloseIsFirst | chibi/services/quiz_service.py:351-353 | the lazy `(.+?)\]` stops at the first `]` and never runs over a newline |
| QuizMarkers.LazyFrom | chibi/services/quiz_service.py:351-353 | `\s*(.+?)\]` gives a non-empty group followed directly by `]` |
| QuizMarkers.ChoiceAt | chibi/services/quiz_service.py:350 | `[A-D]\]` matches one choice letter, in either case, then `]` |
| QuizMarkers.BoolAt | chibi/services/quiz_service.py:352 | the True-or-False alternative, in any case, matches a group followed by `]` |
| QuizMarkers.MatchAt | chibi/services/quiz_service.py:349-358 | a marker match starts at a `[` and ends with `]`, its group strictly inside |
| QuizMarkers.Search | chibi/services/quiz_service.py:358 | a found match lies at or after the start position and is a real match of the marker there |
| QuizMarkers.SearchLeftmost | chibi/services/quiz_service.py:358 | `re.search` returns the leftmost match: nothing matches before it, and nothing at all when it finds none |
| QuizMarkers.SearchFindsFirst | chibi/services/quiz_service.py:358 | a match with no match before it is the one the search returns |
| QuizMarkers.NoMatchWithoutBracket | chibi/services/quiz_service.py:349-358 | no marker starts at a position without `[` |
| QuizMarkers.SearchWithoutBracket | chibi/services/quiz_service.py:349-358 | a text without `[` holds no marker |
| QuizMarkers.ExtractCorrectAnswer | chibi/services/quiz_service.py:347-362 | None for a format without a pattern (including "free-form"); otherwise the first match's group, stripped |
| QuizMarkers.ExtractAtFirstBracket | chibi/services/quiz_service.py:356-360 | a match at the first `[` is what extraction returns, stripped |
| QuizMarkers.ChoiceAnswerIsOneLetter | chibi/services/quiz_service.py:350 | a multiple-choice answer is one letter A-D in either case |
| QuizMarkers.ExtractWithoutBracket | chibi/services/quiz_service.py:347-362 | a text without `[` yields no answer for any format |
| QuizMarkers.ExtractExpectedRoundTrip | chibi/services/quiz_service.py:351 | the question followed by `[EXPECTED: answer]`, head in any case, extracts back to the answer |
| QuizMarkers.ExpectedMarkerAfterQuestion | chibi/services/quiz_service.py:351-358 | the search finds that marker right after the question, with the answer as its group |
| QuizMarkers.ExpectedFoundAt | chibi/services/quiz_service.py:351-358 | an `[EXPECTED: answer]` marker at the first `[` is the one found, with the answer as group |
| QuizMarkers.ExtractAnswerRoundTrip | chibi/services/quiz_service.py:353 | the question followed by `[ANSWER: term]` extracts back to the term |
| QuizMarkers.ExtractChoiceRoundTrip | chibi/services/quiz_service.py:350 | the question followed by `[CORRECT: X]` extracts back to the letter |
| QuizMarkers.NoMarkerInQuestion | chibi/services/quiz_service.py:358 | no marker starts inside a question without `[` that opens the text |
| QuizMarkers.ExtractAfterQuestion | chibi/services/quiz_service.py:356-360 | a marker right after such a question is the one read, and an already stripped group comes back unchanged |
| QuizMarkers.ChoiceMatchesAt | chibi/services/quiz_service.py:350 | `[CORRECT: X]` matches with the letter as its group |
| QuizMarkers.LazyCloseAtFirstBracket | chibi/services/quiz_service.py:351-353 | the lazy group closes at the first `]` when no newline comes before it |
| QuizMarkers.LazyBodyMatches | chibi/services/quiz_service.py:351-353 | after one space, a group of non-`]`, non-newline characters up to `]` is captured whole |
| QuizMarkers.ExpectedMatchesAt | chibi/services/quiz_service.py:351 | `[EXPECTED: answer]` matches with the answer as its group |
| QuizMarkers.AnswerMatchesAt | chibi/services/quiz_service.py:353 | `[ANSWER: term]` matches with the term as its group |
| QuizMarkers.RemoveFrom | chibi/services/quiz_service.py:373 | `re.sub` with an empty replacement never lengthens the text |
| QuizMarkers.RemoveAll | chibi/services/quiz_service.py:373 | removing every match never lengthens the text |
| QuizMarkers.RemoveAllWithoutMatch | chibi/services/quiz_service.py:373 | removing a marker that does not occur changes nothing |
| QuizMarkers.DropQuestionLabel | chibi/services/quiz_service.py:376 | the text is unchanged unless it opens with "question:" in any case, and never longer |
| QuizMarkers.RemoveKinds | chibi/services/quiz_service.py:366-373 | removing markers never lengthens the text |
| QuizMarkers.RemoveKindsInCleanOrder | chibi/services/quiz_service.py:366-373 | cleaning is four `re.sub` passes in the listed order |
| QuizMarkers.CleanQuestion | chibi/services/quiz_service.py:364-378 | the loop removes the four kinds of marker in order, then the label, and returns a stripped text no longer than the input |
| QuizMarkers.CleanQuestionDropsExpectedMarker | chibi/services/quiz_service.py:364-378 | a question followed by its `[EXPECTED: answer]` marker cleans back to the stripped question |
| QuizMarkers.RemoveMarkersLeavesQuestion | chibi/services/quiz_service.py:366-373 | the four removal passes leave exactly the question |
| QuizMarkers.NoCorrectMarker | chibi/services/quiz_service.py:367-368 | a text whose only `[` opens an `[E` holds no `[CORRECT:` marker |
| QuizMarkers.RemoveTrailingMarker | chibi/services/quiz_service.py:369-373 | a trailing `[EXPECTED: ...]` marker is removed and the question kept |
| QuizService.NonBlankLines | chibi/services/quiz_service.py:202 | keeps only non-empty stripped lines, never more than given |
| QuizService.Lines | chibi/services/quiz_service.py:202 | every line of the reply is stripped and non-empty |
| QuizService.NonBlankLinesAppend | chibi/services/quiz_service.py:202 | the comprehension distributes over concatenation of the parts, so the kept lines come in the order of their parts |
| QuizService.NonBlankLinesMembers | chibi/services/quiz_service.py:202 | a line is kept exactly when it is the non-empty strip of some part: no non-blank part is dropped and nothing else is added |
| QuizService.NonBlankLinesFirst | chibi/services/quiz_service.py:202 | the first kept line is the strip of the first part that is not blank |
| QuizService.LinesFirstIsFirstLine | chibi/services/quiz_service.py:202-220 | for a reply that is not blank, `lines[0]` is the first line (up to the first newline) of the stripped reply, stripped |
| QuizService.VerdictReadsFirstLine | chibi/services/quiz_service.py:202-224 | for a reply that is not blank, correct iff the upper-cased first line of the stripped reply contains "PASS", partial iff it does not but contains "PARTIAL" |
| QuizService.LinesEmptyIffBlank | chibi/services/quiz_service.py:202-217 | a reply has no lines exactly when it is empty or all whitespace |
| QuizService.FirstScoreFrom | chibi/services/quiz_service.py:227 | the leftmost digit 1-5 with no word character on either side, or none when there is no such digit |
| QuizService.QualityScoreOf | chibi/services/quiz_service.py:226-229 | the score is always 1-5, and 1 when the first 100 characters hold no standalone digit 1-5 |
| QuizService.ScoreReadsFirstHundred | chibi/services/quiz_service.py:227 | nothing after the first 100 characters changes the score |
| QuizService.ScoreOnSecondLine | chibi/services/quiz_service.py:193-229 | in the documented format, a verdict line without digits 1-5 followed by a digit line yields that digit |
| QuizService.Verdict | chibi/services/quiz_service.py:219-224 | correct iff the upper-cased first line contains "PASS"; partial iff it does not but contains "PARTIAL"; never both |
| QuizService.DefaultFeedback | chibi/services/quiz_service.py:257-265 | the verdict-specific fallback feedback is never empty |
| QuizService.Feedback | chibi/services/quiz_service.py:231-265 | a non-blank pattern capture is the feedback, stripped; with no capture and at most one line, the verdict's default; never empty |
| QuizService.Assemble | chibi/services/quiz_service.py:269-275 | the verdict flags, the score read from the reply, non-empty feedback, and "counts as correct" = correct or partial |
| QuizService.ParseEvaluation | chibi/services/quiz_service.py:190-275 | a blank reply is unevaluable; otherwise the verdict of the first line, the score of the first 100 characters (1-5), non-empty feedback, never both correct and partial, and counts as correct iff correct or partial |
| QuizService.BlankReplyIsUnevaluable | chibi/services/quiz_service.py:209-217 | an empty or whitespace reply is wrong, not partial, not counted, scored 1, with the "unable to evaluate" feedback |
| QuizService.IntendedVerdict | chibi/prompts/templates.py:118-126 | the verdict for the prompt's vocabulary is never both correct and partial |
| QuizService.VerdictOfCorrect | chibi/services/quiz_service.py:219-224 | "CORRECT" is neither correct nor partial as written, and correct under the intended test |
| QuizService.VerdictOfIncorrect | chibi/services/quiz_service.py:219-224 | "INCORRECT" is wrong under both tests |
| QuizService.VerdictOfPartial | chibi/services/quiz_service.py:219-224 | "PARTIAL" is partial under both tests |
| QuizService.VerdictOfPass | chibi/services/quiz_service.py:219-224 | "PASS" is correct under both tests |
| QuizService.VerdictOfFail | chibi/services/quiz_service.py:219-224 | "FAIL" is wrong under both tests |
| QuizService.CorrectVerdictNotCounted | chibi/services/quiz_service.py:219-224 | as written, a reply whose first line is "CORRECT" is not counted as correct |
| QuizService.ParseEvaluationIntended | chibi/services/quiz_service.py:190-275 | the corrected parser keeps every guarantee of the written one: unevaluable blank replies, exclusive flags, score 1-5 |
| QuizService.IntendedHonoursPrompt | chibi/prompts/templates.py:118-126 | with the corrected test, "CORRECT" is correct, "INCORRECT" is not counted and "PARTIAL" is partial |
| QuizService.IntendedAgreesOnPassPartialFail | chibi/services/quiz_service.py:219-224 | replies in the PASS/PARTIAL/FAIL vocabulary are parsed identically by both parsers |
| QuizService.RunningAverage | chibi/services/quiz_service.py:321-330 | a positive score is folded into a positive average weighted by the attempt count, starts the average when there is none, and a score of 0 or less leaves it unchanged |
| QuizService.NextMastery | chibi/services/quiz_service.py:307-345 | same record identity, one more attempt, one more correct answer exactly when correct (so correct ≤ total is kept), the running average, and the level recomputed by the calculator |
| QuizService.Current | chibi/services/quiz_service.py:315 | a key without a record reads as a fresh record with 0 attempts at "novice" |
| QuizService.AttemptsFor | chibi/services/quiz_service.py:289-305 | the logged attempts of one (user, concept) key, from the log |
| QuizService.InsertMatching | chibi/services/quiz_service.py:337-345 | storing a record that matches its attempts keeps every record matching |
| QuizService.AttemptsForAbsent | chibi/services/quiz_service.py:289-305 | a key no logged attempt has has no attempts |
| QuizService.QualityScoresAll | chibi/services/quiz_service.py:299 | when every attempt is scored there is one score per attempt |
| QuizService.SumPositive | chibi/services/quiz_service.py:321-330 | a non-empty sum of positive scores is positive |
| QuizService.CurrentMatches | chibi/services/quiz_service.py:315 | under a consistent store, the record a lookup yields matches the key's logged attempts |
| QuizService.GetOrCreateKeepsConsistent | chibi/services/quiz_service.py:315 | storing the looked-up record keeps the store consistent with the log |
| QuizService.StatsOfExtended | chibi/services/quiz_service.py:318-330 | one more scored attempt adds one attempt, one correct answer if correct, and its score |
| QuizService.MeanExtended | chibi/services/quiz_service.py:321-330 | the mean after one more positive score is the running average |
| QuizService.NextMasteryExtends | chibi/services/quiz_service.py:307-345 | with a positive score, the running update equals `calculate_from_attempts` on the extended list of attempts |
| QuizService.LogKeepsConsistent | chibi/services/quiz_service.py:277-345 | logging a scored attempt and applying the update keeps every record equal to a recomputation from its logged attempts |
| QuizService.CoveredAfterLog | chibi/services/quiz_service.py:289-305 | after logging, every attempt is scored and its key has a record |
| QuizService.OtherRecordsUnaffected | chibi/services/quiz_service.py:289-345 | logging an attempt leaves every other key's record matching |
| QuizService.UpdatedRecordMatches | chibi/services/quiz_service.py:307-345 | the attempt's key's updated record matches the extended log |
| QuizService.AttemptsForScored | chibi/services/quiz_service.py:299 | the attempts of a key in a scored log are scored |
| QuizService.PriorityScore | chibi/services/quiz_service.py:71-86 | priorities run 0-4, and 0 exactly for a never-attempted concept |
| QuizService.QuizService.constructor | chibi/services/quiz_service.py:35-47 | empty stores and the given calculator configuration, consistent |
| QuizService.QuizService.GetOrCreate | chibi/services/quiz_service.py:315 | returns the stored record or a fresh default one, stores it, and changes no lookup |
| QuizService.QuizService.UpdateMastery | chibi/services/quiz_service.py:307-345 | only the key's record changes, to the running update of its current record; the log is untouched |
| QuizService.QuizService.LogAttemptAndUpdateMastery | chibi/services/quiz_service.py:277-305 | appends the logged attempt, updates mastery exactly once, and keeps the store consistent when the score is positive |
| QuizService.QuizService.SelectConceptByMastery | chibi/services/quiz_service.py:49-99 | nothing for a module without concepts; otherwise some concept of lowest priority with that priority's reason; lookups and the log unchanged |
| QuizService.LowestScore | chibi/services/quiz_service.py:90-94 | the minimum of the scores, which is one of them |
| QuizService.WithScore | chibi/services/quiz_service.py:95 | exactly the positions holding the lowest score |
| QuizService.LoggedAttempt | chibi/services/quiz_service.py:289-300 | a free-form attempt with `is_correct` = counts as correct, the feedback, and a quality only when the score is positive |
| QuizService.ParsedResultKeepsConsistent | chibi/services/quiz_service.py:277-305 | a parsed result (from the parser as written or the corrected one) always has a positive score, so logging it keeps the store consistent |
| Similarity.MaxScore | chibi/services/similarity_service.py:87 | a score of one of the questions that no question's score exceeds |
| Similarity.CheckSimilarity | chibi/services/similarity_service.py:46-110 | disabled: allowed without error; embedding raised or missing, or search raised: allowed with the error; otherwise the questions found, the highest score (0.0 when none) and "similar" iff that score reaches the threshold |
| Similarity.RejectedExactlyWhenCloseMatch | chibi/services/similarity_service.py:85-110 | with a positive threshold a rejection always names a found question at or above it; an error never rejects; a found question at or above the threshold always rejects |
| Similarity.AddQuestion | chibi/services/similarity_service.py:112-152 | disabled: true and nothing stored; enabled: true exactly when an embedding was produced and the store did not raise, and what is stored is the question with that embedding |
| Similarity.IsAvailable | chibi/services/similarity_service.py:154-159 | always available when disabled, otherwise as available as the embedding service |
| Sorting.SortBy | chibi/services/rag_service.py:144 | `list.sort(key=...)`: a permutation of the input, sorted by the key |
| Sorting.InsertSorted | chibi/services/rag_service.py:144 | inserting at the key's place keeps a sorted list sorted |
| Sorting.SortByMembers | chibi/services/rag_service.py:198 | sorting keeps exactly the given elements |
| Sorting.SortByDistinct | chibi/services/rag_service.py:198 | sorting never makes two elements share an id |
| Seqs.Dedup | chibi/learning/profile.py:134 | `list(dict.fromkeys(xs))`: every element kept, none added, each listed once |
| Seqs.DedupKeepsFirstOrder | chibi/learning/profile.py:134 | an element first seen before another comes out before it |
| Text.Strip | chibi/services/quiz_service.py:202 | `str.strip`: no longer than the input, no whitespace at either end, and empty exactly for a blank text |
| Text.StripSlice | chibi/services/quiz_service.py:202 | stripping cuts only whitespace, from both ends |
| Text.Split | chibi/services/quiz_service.py:202 | `str.split(sep)`: the pieces joined by the separator give back the text, no piece contains the separator, there is at least one piece, and the whole text comes back alone when the separator does not occur |
| Text.PyIndex | chibi/agent/memory.py:65 | Python's slice bound: negative counts from the end, then clamped to the length |

## Left out

- **Discord surface.** Cogs, embeds, views and the agent graph are not part of this model. The exceptions are the two helpers of chibi/cogs/utils.py, the `/here` normalisation and the code-rotation step of chibi/cogs/attendance.py.
- **Concurrency.** The asyncio rotation task and the `asyncio.Lock`s are left out. Each method is one atomic sequential step.
- **External services.**
  - These are LLM providers, the embedding service, the vector store and the SQL repositories.
  - Their results are parameters of type `Call` (returned or raised), or plain values.
  - Prompt building, logging and YAML/environment loading are left out.
- **Clocks.** The clock is a `now` parameter.
- **Randomness.**
  - `secrets.choice` is an oracle of draws.
  - `random.choice` in concept selection is a nondeterministic choice among the tied concepts.
- **Floats.** Ratios and averages are exact reals. Python's float rounding in `int(x / total * 20)`, in `math.ceil` and in `:.1f`/`:.0f` formatting is not modelled. Percentages appear as their exact values, not as formatted text.
- **CSV.** The serialisation of the grade rows is left out; the rows themselves are modelled.
- **Text.** Case conversion is ASCII-only. Unicode case folding and normalisation are not modelled.
- **Tests that disagree with the code.** Where a scenario test disagrees with the code, the code is modelled.
- **`generate_question` and `evaluate_answer`.** Both are a prompt plus one LLM call. Only the parts that work on the reply are modelled:
  - `_extract_correct_answer`
  - `_clean_question`
  - `_parse_evaluation_response`
- **`_parse_evaluation_response` feedback text.** The regular expressions that pull the feedback text out of the judge's reply are not modelled. Their match is the `patternGroup` parameter.
- **`get_profile`.** Only its loop over the mastery records and the de-duplication of recent concepts are modelled. The repository calls it makes are outside services. One of them, `get_recent_interactions` (chibi/learning/profile.py:131), has no counterpart in `Repository`. Also left out: the `summary` dict, `recent_modules` (taken from those interactions) and the assembly of the `StudentProfile`.
- **`get_concept_progress`.** It only reads the repository.
- **`suggest_next_concept`'s `module_id` argument.** The argument is accepted and ignored, as in the source.
- **Display text.** `MasteryLevel.emoji`, `get_requirements_for_level`, `get_error_message` and the provider-name properties are left out.
- **`PendingQuizManager.count`.** It is the size of the table, which the class states directly.
- **Course helpers and loading.** `Module.get_concept_names`, `Course.get_quiz_format`, `get_quiz_format_choices`, `load_course` and `create_context_manager` are construction and lookup glue.
- **ContextManager configuration.** The unused `default_top_k`/`min_similarity` settings and the `concept_description` argument are left out, and so is logging.
- **LLM challenge services.** The DSPy-based `LLMQuizChallengeService`, `ContentLoader`, `ContextualChunkingService`, `ContentIndexer` and `SearchAgentService` are external services.
- CodeGenerator.GenerateCode: the source retries forever until the code differs. The model requires a draw sequence that eventually yields a different code, and returns the first such candidate. An endless run (for example `length` 0 with a previous code of "") is not modelled.
- QuizService.FirstScoreFrom: reads `\b` in `\b([1-5])\b` with the ASCII word characters (letters, digits, underscore). Python 3 uses Unicode word characters on `str` patterns. So for a reply such as "é3" the model finds a score where Python finds none.
- QuizService.Feedback: reads `\d` in `^\d$` as an ASCII digit. Python 3 also counts other Unicode decimal digits. So a line holding only "٣" is kept as feedback by the model, but skipped as a score line by Python.
- Rag.BuildContextBudget: bounds the chunk texts by `max_context_length`. The per-source headers are not counted against the budget, as in the source.
- Rag.FillOne: works on the stripped texts computed up front.
- Sorting.SortBy: states sorted and a permutation, but not stability.
- Profiles.MasterySummary: states the empty case and that the text opens with the trophy line. The exact digits of each count are not stated.
- QuizService.QuizService.GetOrCreate: counts are `nat`, so the model cannot hold a record with a negative count.

## Findings

| source | as written | input that shows it | evidently intended | confidence | as-written member | corrected member |
|---|---|---|---|---|---|---|
| chibi/services/quiz_service.py:219-224 | the verdict line counts as correct only if it contains "PASS", and as partial if it contains "PARTIAL" | a judge reply whose first line is "CORRECT", the first verdict the evaluation prompt (chibi/prompts/templates.py:118-126) asks for: it is counted as wrong | "CORRECT" counts as correct, "INCORRECT" as wrong, "PARTIAL" as partial | not executed | QuizService.CorrectVerdictNotCounted | QuizService.IntendedHonoursPrompt |
