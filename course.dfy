/** The course structure: modules, their concepts and their fetched contents
    (chibi/content/course.py). Loading from YAML is not modelled. */
module Course {
  import opened Wrappers
  import opened Text
  import opened Seqs

  datatype Concept = Concept(
    id: string,
    name: string,
    kind: string,
    difficulty: int,
    description: string,
    quizFocus: string,
    prerequisites: seq<string>)

  /** A module. `contents` lists the URL-to-text dictionary's items in
      insertion order. */
  datatype Module = Module(
    id: string,
    name: string,
    description: string,
    contentUrls: seq<string>,
    concepts: seq<Concept>,
    contents: seq<(string, string)>)

  datatype CourseInfo = CourseInfo(
    name: string,
    code: string,
    description: string,
    modules: seq<Module>)

  /** `Module.get_concept`: the first concept with that id. */
  function GetConcept(m: Module, conceptId: string): (r: Option<Concept>)
    ensures r.None? <==> forall i :: 0 <= i < |m.concepts| ==> m.concepts[i].id != conceptId
    ensures r.Some? ==> exists i :: (0 <= i < |m.concepts| && m.concepts[i] == r.value
      && r.value.id == conceptId && forall j :: 0 <= j < i ==> m.concepts[j].id != conceptId)
  {
    var i := FirstIndex(m.concepts, (c: Concept) => c.id == conceptId);
    if i < 0 then None else Some(m.concepts[i])
  }

  function Values(items: seq<(string, string)>): (r: seq<string>)
    ensures |r| == |items|
    ensures forall i :: 0 <= i < |items| ==> r[i] == items[i].1
  {
    if items == [] then [] else [items[0].1] + Values(items[1..])
  }

  /** `Module.get_all_content`: the fetched texts separated by blank lines. */
  function GetAllContent(m: Module): (r: string)
    ensures m.contents == [] ==> r == ""
    ensures |m.contents| == 1 ==> r == m.contents[0].1
    ensures m.contents != [] ==> |r| == TotalLength(Values(m.contents)) + 2 * (|m.contents| - 1)
  {
    var parts := Values(m.contents);
    if parts == [] then "" else JoinLength("\n\n", parts); Join("\n\n", parts)
  }

  /** `Course.get_module`: the first module with that id. */
  function GetModule(c: CourseInfo, moduleId: string): (r: Option<Module>)
    ensures r.None? <==> forall i :: 0 <= i < |c.modules| ==> c.modules[i].id != moduleId
    ensures r.Some? ==> exists i :: (0 <= i < |c.modules| && c.modules[i] == r.value
      && r.value.id == moduleId && forall j :: 0 <= j < i ==> c.modules[j].id != moduleId)
  {
    var i := FirstIndex(c.modules, (m: Module) => m.id == moduleId);
    if i < 0 then None else Some(c.modules[i])
  }

  /** The query as `find_module` compares it: lower-cased, then stripped. */
  function NormalizeQuery(query: string): string {
    Strip(Lower(query))
  }

  /** Some concept name of `m` and the query contain one another. */
  predicate ConceptNameMatches(q: string, m: Module) {
    exists i :: 0 <= i < |m.concepts| &&
      (Contains(Lower(m.concepts[i].name), q) || Contains(q, Lower(m.concepts[i].name)))
  }

  /** The query and the module name share a whitespace-separated word. */
  predicate SharesWord(q: string, m: Module) {
    exists w :: w in Words(q) && w in Words(Lower(m.name))
  }

  /** The six matching rules of `find_module`, tried in this order:
      1 exact id, 2 exact name, 3 query inside the name, 4 name inside the
      query, 5 concept-name match, 6 a shared word; all case-insensitive. */
  predicate MatchesRule(rule: nat, q: string, m: Module) {
    if rule == 1 then Lower(m.id) == q
    else if rule == 2 then Lower(m.name) == q
    else if rule == 3 then Contains(Lower(m.name), q)
    else if rule == 4 then Contains(q, Lower(m.name))
    else if rule == 5 then ConceptNameMatches(q, m)
    else if rule == 6 then SharesWord(q, m)
    else false
  }

  /** Module `i` is the first module that satisfies `rule`. */
  predicate FirstMatchAt(modules: seq<Module>, q: string, rule: nat, i: nat) {
    i < |modules| && MatchesRule(rule, q, modules[i])
    && forall j :: 0 <= j < i ==> !MatchesRule(rule, q, modules[j])
  }

  /** No module satisfies any rule numbered from `lo` up to, not including, `hi`. */
  predicate NoMatchBetween(modules: seq<Module>, q: string, lo: nat, hi: nat) {
    forall k, j :: lo <= k < hi && 0 <= j < |modules| ==> !MatchesRule(k, q, modules[j])
  }

  /** Index of the first module satisfying `rule`, or -1. */
  function FirstRuleMatch(modules: seq<Module>, q: string, rule: nat): (r: int)
    ensures -1 <= r < |modules|
    ensures r == -1 <==> forall j :: 0 <= j < |modules| ==> !MatchesRule(rule, q, modules[j])
    ensures r >= 0 ==> FirstMatchAt(modules, q, rule, r)
  {
    FirstIndex(modules, (m: Module) => MatchesRule(rule, q, m))
  }

  /** First module satisfying a rule from `rule` onwards, earlier rules first. */
  function FindFromRule(modules: seq<Module>, q: string, rule: nat): (r: Option<Module>)
    requires 1 <= rule
    ensures r.None? <==> NoMatchBetween(modules, q, rule, 7)
    ensures r.Some? ==> exists k: nat, i: nat :: (rule <= k <= 6 && FirstMatchAt(modules, q, k, i)
      && r.value == modules[i] && NoMatchBetween(modules, q, rule, k))
    decreases 7 - rule
  {
    if rule > 6 then None
    else
      var i := FirstRuleMatch(modules, q, rule);
      if i >= 0 then
        assert NoMatchBetween(modules, q, rule, rule);
        Some(modules[i])
      else
        var r := FindFromRule(modules, q, rule + 1);
        NoMatchExtends(modules, q, rule, r);
        r
  }

  /** A rule no module satisfies can be added in front of the rules the
      rest of the search skipped. */
  lemma NoMatchExtends(modules: seq<Module>, q: string, rule: nat, r: Option<Module>)
    requires forall j :: 0 <= j < |modules| ==> !MatchesRule(rule, q, modules[j])
    requires r.None? <==> NoMatchBetween(modules, q, rule + 1, 7)
    requires r.Some? ==> exists k: nat, i: nat :: (rule + 1 <= k <= 6 && FirstMatchAt(modules, q, k, i)
      && r.value == modules[i] && NoMatchBetween(modules, q, rule + 1, k))
    ensures r.None? <==> NoMatchBetween(modules, q, rule, 7)
    ensures r.Some? ==> exists k: nat, i: nat :: (rule <= k <= 6 && FirstMatchAt(modules, q, k, i)
      && r.value == modules[i] && NoMatchBetween(modules, q, rule, k))
  {
    if r.Some? {
      var k: nat, i: nat :| rule + 1 <= k <= 6 && FirstMatchAt(modules, q, k, i)
        && r.value == modules[i] && NoMatchBetween(modules, q, rule + 1, k);
      assert NoMatchBetween(modules, q, rule, k);
    }
  }

  /** `Course.find_module`: None for an empty query, otherwise the first
      module under the earliest rule that any module satisfies. */
  function FindModule(c: CourseInfo, query: string): (r: Option<Module>)
    ensures query == [] ==> r == None
    ensures query != [] ==> (r.None? <==> NoMatchBetween(c.modules, NormalizeQuery(query), 1, 7))
    ensures r.Some? ==> exists k: nat, i: nat :: (1 <= k <= 6 && FirstMatchAt(c.modules, NormalizeQuery(query), k, i)
      && r.value == c.modules[i] && NoMatchBetween(c.modules, NormalizeQuery(query), 1, k))
  {
    if query == [] then None else FindFromRule(c.modules, NormalizeQuery(query), 1)
  }

  /** An exact, case-insensitive id match wins over every other rule, and the
      first module with that id is the one found. */
  lemma ExactIdWins(c: CourseInfo, query: string, i: nat)
    requires query != [] && i < |c.modules|
    requires Lower(c.modules[i].id) == NormalizeQuery(query)
    requires forall j :: 0 <= j < i ==> Lower(c.modules[j].id) != NormalizeQuery(query)
    ensures FindModule(c, query) == Some(c.modules[i])
  {
    var q := NormalizeQuery(query);
    assert MatchesRule(1, q, c.modules[i]);
    var i0 := FirstRuleMatch(c.modules, q, 1);
    assert i0 == i;
  }

  /** A query of only whitespace is not empty, normalises to "", and ""
      lies inside every name, so a course with modules always answers it. */
  lemma BlankQueryFindsAModule(c: CourseInfo, query: string)
    requires query != [] && IsBlank(query) && c.modules != []
    ensures FindModule(c, query).Some?
  {
    var q := NormalizeQuery(query);
    assert q == [] by {
      BlankNormalizesToEmpty(query);
    }
    assert MatchesRule(3, q, c.modules[0]) by {
      assert OccursAt(Lower(c.modules[0].name), q, 0);
      assert FindFrom(Lower(c.modules[0].name), q, 0) == 0;
    }
    assert !NoMatchBetween(c.modules, q, 1, 7);
  }

  /** A blank query normalises to the empty string. */
  lemma BlankNormalizesToEmpty(query: string)
    requires IsBlank(query)
    ensures NormalizeQuery(query) == []
  {
    forall i | 0 <= i < |query| ensures IsSpace(Lower(query)[i]) {
      assert LowerChar(query[i]) == query[i];
    }
  }

  /** `Course.get_module_choices`: one (label, id) pair per module, in
      course order. */
  function GetModuleChoices(c: CourseInfo): (r: seq<(string, string)>)
    ensures |r| == |c.modules|
    ensures forall i :: 0 <= i < |r| ==>
      r[i].1 == c.modules[i].id && r[i].0 == c.modules[i].id + ": " + c.modules[i].name
  {
    seq(|c.modules|, i requires 0 <= i < |c.modules| => (c.modules[i].id + ": " + c.modules[i].name, c.modules[i].id))
  }

  /** Every concept of every module, in course order. */
  function AllConceptList(modules: seq<Module>): seq<Concept> {
    if modules == [] then [] else AllConceptList(modules[..|modules| - 1]) + modules[|modules| - 1].concepts
  }

  /** The dictionary built by inserting `cs` in order under their ids. */
  function InsertAll(m: map<string, Concept>, cs: seq<Concept>): map<string, Concept>
    decreases |cs|
  {
    if cs == [] then m else InsertAll(m[cs[0].id := cs[0]], cs[1..])
  }

  /** Inserting in order keeps the old keys and adds exactly the new ids. */
  lemma {:induction false} InsertAllKeys(m: map<string, Concept>, cs: seq<Concept>, id: string)
    ensures id in InsertAll(m, cs) <==> id in m || exists i :: 0 <= i < |cs| && cs[i].id == id
    decreases |cs|
  {
    if cs != [] {
      InsertAllKeys(m[cs[0].id := cs[0]], cs[1..], id);
      if exists i :: 0 <= i < |cs[1..]| && cs[1..][i].id == id {
        var i :| 0 <= i < |cs[1..]| && cs[1..][i].id == id;
        assert cs[i + 1].id == id;
      }
      if exists i :: 0 <= i < |cs| && cs[i].id == id {
        var i :| 0 <= i < |cs| && cs[i].id == id;
        if i > 0 { assert cs[1..][i - 1].id == id; }
      }
    }
  }

  /** The last concept inserted under an id is the one kept. */
  lemma {:induction false} InsertAllLastWins(m: map<string, Concept>, cs: seq<Concept>, i: nat)
    requires i < |cs|
    requires forall j :: i < j < |cs| ==> cs[j].id != cs[i].id
    ensures cs[i].id in InsertAll(m, cs) && InsertAll(m, cs)[cs[i].id] == cs[i]
    decreases |cs|
  {
    var m' := m[cs[0].id := cs[0]];
    if i > 0 {
      assert cs[1..][i - 1] == cs[i];
      forall j | i - 1 < j < |cs| - 1 ensures cs[1..][j].id != cs[1..][i - 1].id {
        assert cs[1..][j] == cs[j + 1];
      }
      InsertAllLastWins(m', cs[1..], i - 1);
    } else {
      InsertAllUntouched(m', cs[1..], cs[0].id);
    }
  }

  /** An id that no inserted concept carries keeps its old entry. */
  lemma {:induction false} InsertAllUntouched(m: map<string, Concept>, cs: seq<Concept>, id: string)
    requires id in m
    requires forall j :: 0 <= j < |cs| ==> cs[j].id != id
    ensures id in InsertAll(m, cs) && InsertAll(m, cs)[id] == m[id]
    decreases |cs|
  {
    if cs != [] {
      forall j | 0 <= j < |cs| - 1 ensures cs[1..][j].id != id {
        assert cs[1..][j] == cs[j + 1];
      }
      InsertAllUntouched(m[cs[0].id := cs[0]], cs[1..], id);
    }
  }

  lemma {:induction false} InsertAllAppend(m: map<string, Concept>, a: seq<Concept>, b: seq<Concept>)
    ensures InsertAll(m, a + b) == InsertAll(InsertAll(m, a), b)
    decreases |a|
  {
    if a == [] {
      assert a + b == b;
    } else {
      assert (a + b)[1..] == a[1..] + b;
      assert (a + b)[0] == a[0];
      InsertAllAppend(m[a[0].id := a[0]], a[1..], b);
    }
  }

  /** `Course.get_all_concepts`: every concept id of the course, each mapped
      to the last concept carrying it. */
  method GetAllConcepts(c: CourseInfo) returns (concepts: map<string, Concept>)
    ensures concepts == InsertAll(map[], AllConceptList(c.modules))
  {
    concepts := map[];
    var i := 0;
    while i < |c.modules|
      invariant 0 <= i <= |c.modules|
      invariant concepts == InsertAll(map[], AllConceptList(c.modules[..i]))
    {
      var cs := c.modules[i].concepts;
      var j := 0;
      assert AllConceptList(c.modules[..i]) + cs[..0] == AllConceptList(c.modules[..i]);
      while j < |cs|
        invariant 0 <= j <= |cs|
        invariant concepts == InsertAll(map[], AllConceptList(c.modules[..i]) + cs[..j])
      {
        InsertAllAppend(map[], AllConceptList(c.modules[..i]) + cs[..j], [cs[j]]);
        assert cs[..j + 1] == cs[..j] + [cs[j]];
        assert AllConceptList(c.modules[..i]) + cs[..j + 1] == AllConceptList(c.modules[..i]) + cs[..j] + [cs[j]];
        concepts := concepts[cs[j].id := cs[j]];
        j := j + 1;
      }
      assert cs[..j] == cs;
      assert c.modules[..i + 1][..i] == c.modules[..i];
      i := i + 1;
    }
    assert c.modules[..i] == c.modules;
  }

  /** The concept map holds exactly the course's concept ids, and each maps
      to the last concept with that id. */
  lemma GetAllConceptsSpec(c: CourseInfo)
    ensures var all := AllConceptList(c.modules);
      var r := InsertAll(map[], all);
      (forall id :: id in r <==> exists i :: 0 <= i < |all| && all[i].id == id)
      && (forall i :: 0 <= i < |all| && (forall j :: i < j < |all| ==> all[j].id != all[i].id) ==> r[all[i].id] == all[i])
  {
    var all := AllConceptList(c.modules);
    forall id ensures id in InsertAll(map[], all) <==> exists i :: 0 <= i < |all| && all[i].id == id {
      InsertAllKeys(map[], all, id);
    }
    forall i | 0 <= i < |all| && (forall j :: i < j < |all| ==> all[j].id != all[i].id)
      ensures InsertAll(map[], all)[all[i].id] == all[i]
    {
      InsertAllLastWins(map[], all, i);
    }
  }
}
