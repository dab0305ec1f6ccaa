/** Two helpers shared by the Discord commands (chibi/cogs/utils.py): how a
    long reply is cut into messages, and which modules the module-name
    autocomplete offers. Sending the messages is not modelled; the model
    says what is sent. */
module CogUtils {
  import opened Wrappers
  import opened Text
  import opened Course

  const DiscordMessageLimit := 2000
  const DiscordChunkSize := 1990
  const DiscordAutocompleteLimit := 25
  const ChoiceNameLimit := 100

  /** `[content[i:i + 1990] for i in range(start, len(content), 1990)]`. */
  function PiecesFrom(content: string, start: nat): (pieces: seq<string>)
    decreases |content| - start
  {
    if start >= |content| then []
    else
      var end := if start + DiscordChunkSize <= |content| then start + DiscordChunkSize else |content|;
      [content[start..end]] + PiecesFrom(content, end)
  }

  /** The pieces put back together give the content from `start` on, and
      each is 1 to 1990 characters long. */
  lemma {:induction false} PiecesFromFacts(content: string, start: nat)
    requires start <= |content|
    ensures Concat(PiecesFrom(content, start)) == content[start..]
    ensures forall k :: 0 <= k < |PiecesFrom(content, start)| ==>
      0 < |PiecesFrom(content, start)[k]| <= DiscordChunkSize
    decreases |content| - start
  {
    if start < |content| {
      var end := if start + DiscordChunkSize <= |content| then start + DiscordChunkSize else |content|;
      PiecesFromFacts(content, end);
      var pieces := PiecesFrom(content, start);
      assert pieces[1..] == PiecesFrom(content, end);
      assert content[start..] == content[start..end] + content[end..];
    }
  }

  /** The messages `send_chunked_response` sends, in order. */
  function ChunkedMessages(content: string): (messages: seq<string>)
  {
    if |content| <= DiscordMessageLimit then [content] else PiecesFrom(content, 0)
  }

  /** Content within 2000 characters goes out as one message; longer
      content as pieces of at most 1990 characters that put back together
      give the content. */
  lemma ChunkedMessagesFacts(content: string)
    ensures |content| <= DiscordMessageLimit ==> ChunkedMessages(content) == [content]
    ensures Concat(ChunkedMessages(content)) == content
    ensures |content| > DiscordMessageLimit ==>
      |ChunkedMessages(content)| >= 2
      && forall k :: 0 <= k < |ChunkedMessages(content)| ==> 0 < |ChunkedMessages(content)[k]| <= DiscordChunkSize
  {
    if |content| > DiscordMessageLimit {
      PiecesFromFacts(content, 0);
      assert content[0..] == content;
      var pieces := PiecesFrom(content, 0);
      assert pieces[1..] == PiecesFrom(content, DiscordChunkSize);
      assert |pieces| >= 2;
    } else {
      assert Concat([content]) == content + Concat([]);
    }
  }

  /** An autocomplete choice: what is shown and the module id it stands for. */
  datatype Choice = Choice(name: string, value: string)

  function DisplayName(m: Module): string {
    m.id + ": " + m.name
  }

  /** The module's "id: name" contains the typed text, ignoring case. */
  predicate Offered(m: Module, current: string) {
    Contains(Lower(DisplayName(m)), Lower(current))
  }

  function ChoiceOf(m: Module): Choice {
    Choice(PyTake(DisplayName(m), ChoiceNameLimit), m.id)
  }

  /** The choices for the modules that match, in course order, before the
      cut to 25. */
  function MatchingChoices(modules: seq<Module>, current: string): (r: seq<Choice>)
    ensures |r| <= |modules|
  {
    if modules == [] then []
    else
      var m := modules[|modules| - 1];
      MatchingChoices(modules[..|modules| - 1], current) + (if Offered(m, current) then [ChoiceOf(m)] else [])
  }

  /** Every choice comes from a matching module, shows its display name cut
      to 100 characters and stands for its id; every matching module is
      among the choices. */
  lemma {:induction false} MatchingChoicesExact(modules: seq<Module>, current: string)
    ensures forall k :: 0 <= k < |MatchingChoices(modules, current)| ==>
      exists j :: (0 <= j < |modules| && Offered(modules[j], current)
        && MatchingChoices(modules, current)[k] == ChoiceOf(modules[j]))
    ensures forall j :: 0 <= j < |modules| && Offered(modules[j], current) ==>
      ChoiceOf(modules[j]) in MatchingChoices(modules, current)
  {
    if modules != [] {
      var init := modules[..|modules| - 1];
      MatchingChoicesExact(init, current);
      var r := MatchingChoices(modules, current);
      var ri := MatchingChoices(init, current);
      var last := |modules| - 1;
      assert r == ri + (if Offered(modules[last], current) then [ChoiceOf(modules[last])] else []);
      forall k | 0 <= k < |r|
        ensures exists j :: (0 <= j < |modules| && Offered(modules[j], current)
          && MatchingChoices(modules, current)[k] == ChoiceOf(modules[j]))
      {
        if k < |ri| {
          assert r[k] == ri[k];
          var j :| 0 <= j < |init| && Offered(init[j], current) && ri[k] == ChoiceOf(init[j]);
          assert modules[j] == init[j];
        } else {
          assert Offered(modules[last], current) && r[k] == ChoiceOf(modules[last]);
        }
      }
      forall j | 0 <= j < |modules| && Offered(modules[j], current)
        ensures ChoiceOf(modules[j]) in r
      {
        if j < |init| {
          assert modules[j] == init[j];
        }
      }
    } else {
      assert MatchingChoices(modules, current) == [];
    }
  }

  /** `module_autocomplete_choices`: nothing without a course; otherwise
      the matching modules' choices in course order, at most 25. */
  method ModuleAutocompleteChoices(course: Option<CourseInfo>, current: string) returns (choices: seq<Choice>)
    ensures course.None? ==> choices == []
    ensures course.Some? ==> choices == PyTake(MatchingChoices(course.value.modules, current), DiscordAutocompleteLimit)
    ensures |choices| <= DiscordAutocompleteLimit
    ensures forall k :: 0 <= k < |choices| ==> |choices[k].name| <= ChoiceNameLimit
  {
    if course.None? {
      return [];
    }
    var modules := course.value.modules;
    var all: seq<Choice> := [];
    for i := 0 to |modules|
      invariant all == MatchingChoices(modules[..i], current)
      invariant forall k :: 0 <= k < |all| ==> |all[k].name| <= ChoiceNameLimit
    {
      assert modules[..i + 1][..i] == modules[..i];
      var m := modules[i];
      var displayName := m.id + ": " + m.name;
      if Contains(Lower(displayName), Lower(current)) {
        all := all + [Choice(PyTake(displayName, ChoiceNameLimit), m.id)];
      }
    }
    assert modules[..|modules|] == modules;
    choices := PyTake(all, DiscordAutocompleteLimit);
  }
}
