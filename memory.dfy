/** The agent's conversation memory (chibi/agent/memory.py): one list of
    entries per (user, channel) pair, cut to the most recent `max_history`
    entries after every append. */
module Memory {
  import opened Wrappers
  import opened Text

  /** An entry's metadata. Only the list under "chunk_ids" is ever read,
      so every value is a list of chunk ids. */
  type Metadata = map<string, seq<string>>

  datatype ConversationEntry = ConversationEntry(role: string, content: string, metadata: Metadata)

  /** What `get_history` returns for one entry. */
  datatype Message = Message(role: string, content: string)

  /** The storage key `(user_id, channel_id)`. */
  type Key = (string, string)

  const SummaryContentLimit := 200

  /** `h[-max_history:]` when the list is longer than `max_history`. A
      positive bound keeps exactly the newest entries; a bound of 0 keeps
      everything, since `h[-0:]` is the whole list. */
  function Trim(h: seq<ConversationEntry>, maxHistory: int): (r: seq<ConversationEntry>)
    ensures maxHistory >= 1 ==> |r| == if |h| > maxHistory then maxHistory else |h|
    ensures maxHistory == 0 ==> r == h
    ensures |r| <= |h| && r == h[|h| - |r|..]
  {
    if |h| > maxHistory then PyDrop(h, -maxHistory) else h
  }

  /** Python truthiness of the optional `limit`: neither None nor 0. */
  predicate Truthy(limit: Option<int>) {
    limit.Some? && limit.value != 0
  }

  function MessageOf(e: ConversationEntry): Message {
    Message(e.role, e.content)
  }

  /** The list comprehension of `get_history`. */
  function Messages(h: seq<ConversationEntry>): (r: seq<Message>)
    ensures |r| == |h|
    ensures forall i :: 0 <= i < |h| ==> r[i] == MessageOf(h[i])
  {
    if h == [] then [] else Messages(h[..|h| - 1]) + [MessageOf(h[|h| - 1])]
  }

  /** `content[:200] + "..."` for content over 200 characters. */
  function Clip(content: string): (r: string)
    ensures |content| <= SummaryContentLimit ==> r == content
    ensures |content| > SummaryContentLimit ==>
      |r| == SummaryContentLimit + 3 && r[..SummaryContentLimit] == content[..SummaryContentLimit]
      && r[SummaryContentLimit..] == "..."
  {
    if |content| > SummaryContentLimit then content[..SummaryContentLimit] + "..." else content
  }

  /** One line of the context summary. */
  function SummaryLine(m: Message): string {
    (if m.role == "user" then "User" else "Assistant") + ": " + Clip(m.content)
  }

  /** A line is "User: " for the user's messages, "Assistant: " for any
      other role, followed by the clipped content. */
  lemma SummaryLineShape(m: Message)
    ensures var line := SummaryLine(m);
      if m.role == "user" then |line| >= 6 && line[..6] == "User: " && line[6..] == Clip(m.content)
      else |line| >= 11 && line[..11] == "Assistant: " && line[11..] == Clip(m.content)
  {
  }

  /** The lines of the summary, one per message. */
  function SummaryLines(ms: seq<Message>): (r: seq<string>)
    ensures |r| == |ms|
    ensures forall i :: 0 <= i < |ms| ==> r[i] == SummaryLine(ms[i])
  {
    if ms == [] then [] else SummaryLines(ms[..|ms| - 1]) + [SummaryLine(ms[|ms| - 1])]
  }

  /** The chunk ids stored on the assistant entries of `h`. */
  function ChunkIds(h: seq<ConversationEntry>): (ids: set<string>)
  {
    if h == [] then {}
    else
      var e := h[|h| - 1];
      ChunkIds(h[..|h| - 1])
        + (if e.role == "assistant" && "chunk_ids" in e.metadata then set c | c in e.metadata["chunk_ids"] else {})
  }

  /** An id is collected exactly when some assistant entry lists it. */
  lemma {:induction false} ChunkIdsExact(h: seq<ConversationEntry>, c: string)
    ensures c in ChunkIds(h) <==>
      exists i :: 0 <= i < |h| && h[i].role == "assistant" && "chunk_ids" in h[i].metadata
        && c in h[i].metadata["chunk_ids"]
  {
    if h != [] {
      var init := h[..|h| - 1];
      ChunkIdsExact(init, c);
      if c in ChunkIds(init) {
        var i :| 0 <= i < |init| && init[i].role == "assistant" && "chunk_ids" in init[i].metadata
          && c in init[i].metadata["chunk_ids"];
        assert h[i] == init[i];
      }
      if exists i :: (0 <= i < |h| && h[i].role == "assistant" && "chunk_ids" in h[i].metadata
        && c in h[i].metadata["chunk_ids"])
      {
        var i :| 0 <= i < |h| && h[i].role == "assistant" && "chunk_ids" in h[i].metadata
          && c in h[i].metadata["chunk_ids"];
        if i < |init| {
          assert init[i] == h[i];
        }
      }
    }
  }

  /** Every summary line holds at least its role label. */
  lemma SummaryLinesNonEmpty(ms: seq<Message>)
    ensures forall i :: 0 <= i < |ms| ==> SummaryLines(ms)[i] != []
  {
    forall i | 0 <= i < |ms|
      ensures SummaryLines(ms)[i] != []
    {
      SummaryLineShape(ms[i]);
    }
  }

  /** A join of non-empty parts is empty only when there are no parts. */
  lemma {:induction false} JoinEmpty(sep: string, parts: seq<string>)
    requires forall i :: 0 <= i < |parts| ==> parts[i] != []
    ensures Join(sep, parts) == [] <==> parts == []
  {
    if |parts| > 1 {
      assert Join(sep, parts) == parts[0] + sep + Join(sep, parts[1..]);
      assert |Join(sep, parts)| >= |parts[0]|;
    }
  }

  class ConversationMemory {
    const maxHistory: int
    var history: map<Key, seq<ConversationEntry>>

    constructor(maxHistory: int)
      ensures this.maxHistory == maxHistory && history == map[]
    {
      this.maxHistory := maxHistory;
      history := map[];
    }

    /** The stored list for a key; a missing key reads as an empty list. */
    function Stored(key: Key): seq<ConversationEntry>
      reads this
    {
      if key in history then history[key] else []
    }

    /** `add_message`: the entry is appended to its key's list, which is
        then trimmed; every other key's list is left alone. */
    method AddMessage(userId: string, channelId: string, role: string, content: string, metadata: Option<Metadata>)
      modifies this
      ensures history == old(history)[(userId, channelId) :=
        Trim(old(Stored((userId, channelId))) + [ConversationEntry(role, content, metadata.GetOr(map[]))], maxHistory)]
      ensures maxHistory >= 1 ==> (
        |Stored((userId, channelId))| <= maxHistory
        && Stored((userId, channelId))[|Stored((userId, channelId))| - 1]
           == ConversationEntry(role, content, metadata.GetOr(map[])))
    {
      var key := (userId, channelId);
      var entry := ConversationEntry(role, content, metadata.GetOr(map[]));
      var h := Stored(key) + [entry];
      if |h| > maxHistory {
        h := PyDrop(h, -maxHistory);
      }
      history := history[key := h];
    }

    /** `get_history`: the messages of the newest `limit` entries when
        `limit` is truthy, of all entries otherwise. */
    function GetHistory(userId: string, channelId: string, limit: Option<int>): (r: seq<Message>)
      reads this
      ensures var h := Stored((userId, channelId));
        |r| <= |h| && r == Messages(h[|h| - |r|..])
      ensures !Truthy(limit) ==> |r| == |Stored((userId, channelId))|
      ensures Truthy(limit) && limit.value > 0 ==>
        |r| == if |Stored((userId, channelId))| > limit.value then limit.value else |Stored((userId, channelId))|
    {
      var h := Stored((userId, channelId));
      Messages(if Truthy(limit) then PyDrop(h, -limit.value) else h)
    }

    /** `get_context_summary`: the summary lines of the newest messages
        joined by newlines, "" when there are none. */
    method GetContextSummary(userId: string, channelId: string, maxMessages: int) returns (summary: string)
      ensures summary == Join("\n", SummaryLines(GetHistory(userId, channelId, Some(maxMessages))))
      ensures summary == [] <==> GetHistory(userId, channelId, Some(maxMessages)) == []
    {
      var ms := GetHistory(userId, channelId, Some(maxMessages));
      if ms == [] {
        return "";
      }
      var parts := SummaryParts(ms);
      SummaryLinesNonEmpty(ms);
      JoinEmpty("\n", parts);
      summary := Join("\n", parts);
    }

    /** The loop of `get_context_summary` that builds `summary_parts`. */
    method SummaryParts(ms: seq<Message>) returns (parts: seq<string>)
      ensures parts == SummaryLines(ms)
    {
      parts := [];
      for i := 0 to |ms|
        invariant parts == SummaryLines(ms[..i])
      {
        assert ms[..i + 1][..i] == ms[..i];
        parts := parts + [SummaryLine(ms[i])];
      }
      assert ms[..|ms|] == ms;
    }

    /** `get_recent_chunk_ids`: the chunk ids of the assistant entries among
        the newest `max_messages`. */
    method GetRecentChunkIds(userId: string, channelId: string, maxMessages: int) returns (ids: set<string>)
      ensures ids == ChunkIds(PyDrop(Stored((userId, channelId)), -maxMessages))
    {
      var h := Stored((userId, channelId));
      if h == [] {
        return {};
      }
      var recent := PyDrop(h, -maxMessages);
      ids := {};
      for i := 0 to |recent|
        invariant ids == ChunkIds(recent[..i])
      {
        assert recent[..i + 1][..i] == recent[..i];
        var e := recent[i];
        if e.role == "assistant" && e.metadata != map[] {
          var found := if "chunk_ids" in e.metadata then e.metadata["chunk_ids"] else [];
          ids := ids + set c | c in found;
        }
      }
      assert recent[..|recent|] == recent;
    }

    /** `clear_history`: only the given key's list goes. */
    method ClearHistory(userId: string, channelId: string)
      modifies this
      ensures history == old(history) - {(userId, channelId)}
    {
      var key := (userId, channelId);
      if key in history {
        history := history - {key};
      }
    }

    /** `clear_all`. */
    method ClearAll()
      modifies this
      ensures history == map[]
    {
      history := map[];
    }
  }

  /** The newest entry is never trimmed away, and trimming keeps the
      newest entries in order. */
  lemma TrimKeepsNewest(h: seq<ConversationEntry>, e: ConversationEntry, maxHistory: int)
    requires maxHistory >= 1
    ensures var r := Trim(h + [e], maxHistory);
      r != [] && r[|r| - 1] == e && r == (h + [e])[|h| + 1 - |r|..]
  {
  }
}
