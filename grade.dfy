/** The grade report (chibi/services/grade_service.py): one row per student
    and module giving the share of the module's concepts the student has
    completed, that is, reached proficient or mastered. The repositories
    are outside the model: the users and each user's mastery records are
    parameters. */
module Grades {
  import opened Wrappers
  import opened Course
  import opened Models

  const Header: seq<string> := ["discord_id", "username", "module", "completion_pct"]

  /** One data row of the report. The percentage is exact; its rendering
      with one decimal is not modelled. */
  datatype GradeRow = GradeRow(discordId: string, username: string, moduleId: string, completionPct: real)

  /** `{m.concept_id: m for m in records}`: one entry per concept id. */
  function ByConcept(records: seq<ConceptMastery>): (m: map<string, ConceptMastery>)
    ensures forall i :: 0 <= i < |records| ==> records[i].conceptId in m
    ensures forall k :: k in m ==> exists i :: 0 <= i < |records| && records[i].conceptId == k
  {
    if records == [] then map[]
    else
      var last := records[|records| - 1];
      ByConcept(records[..|records| - 1])[last.conceptId := last]
  }

  /** When a concept has several records, the last one wins. */
  lemma {:induction false} ByConceptLastWins(records: seq<ConceptMastery>, i: nat)
    requires i < |records|
    requires forall j :: i < j < |records| ==> records[j].conceptId != records[i].conceptId
    ensures ByConcept(records)[records[i].conceptId] == records[i]
  {
    if i < |records| - 1 {
      var init := records[..|records| - 1];
      ByConceptLastWins(init, i);
    }
  }

  /** A concept counts as completed when it has a record at proficient or
      mastered; a concept without a record does not count. */
  predicate Completed(c: Concept, byConcept: map<string, ConceptMastery>) {
    c.id in byConcept && byConcept[c.id].masteryLevel in {LevelProficient, LevelMastered}
  }

  /** `completed_count`. */
  function CompletedCount(concepts: seq<Concept>, byConcept: map<string, ConceptMastery>): (n: nat)
    ensures n <= |concepts|
  {
    if concepts == [] then 0
    else
      CompletedCount(concepts[..|concepts| - 1], byConcept)
        + (if Completed(concepts[|concepts| - 1], byConcept) then 1 else 0)
  }

  /** Every concept is completed exactly when the count reaches the number
      of concepts, and none is exactly when it is 0. */
  lemma {:induction false} CompletedCountExtremes(concepts: seq<Concept>, byConcept: map<string, ConceptMastery>)
    ensures CompletedCount(concepts, byConcept) == |concepts| <==>
      forall i :: 0 <= i < |concepts| ==> Completed(concepts[i], byConcept)
    ensures CompletedCount(concepts, byConcept) == 0 <==>
      forall i :: 0 <= i < |concepts| ==> !Completed(concepts[i], byConcept)
  {
    if concepts != [] {
      var init := concepts[..|concepts| - 1];
      CompletedCountExtremes(init, byConcept);
      assert forall i :: 0 <= i < |init| ==> init[i] == concepts[i];
    }
  }

  /** `completion_pct`: completed / len * 100, or 0 for a module without
      concepts. It lies between 0 and 100, is 100 exactly when every
      concept of a non-empty module is completed and 0 exactly when none
      is. */
  function CompletionPct(concepts: seq<Concept>, byConcept: map<string, ConceptMastery>): (pct: real)
    ensures 0.0 <= pct <= 100.0
    ensures concepts != [] ==> pct * |concepts| as real == CompletedCount(concepts, byConcept) as real * 100.0
    ensures pct == 100.0 <==> concepts != [] && forall i :: 0 <= i < |concepts| ==> Completed(concepts[i], byConcept)
    ensures pct == 0.0 <==> forall i :: 0 <= i < |concepts| ==> !Completed(concepts[i], byConcept)
  {
    CompletedCountExtremes(concepts, byConcept);
    if concepts == [] then 0.0
    else
      ShareFacts(CompletedCount(concepts, byConcept), |concepts|);
      CompletedCount(concepts, byConcept) as real / |concepts| as real * 100.0
  }

  /** `n / len * 100` for `0 <= n <= len`: a percentage that is 100 only
      for `n == len` and 0 only for `n == 0`. */
  lemma ShareFacts(n: nat, len: nat)
    requires 0 < len && n <= len
    ensures var p := n as real / len as real * 100.0;
      0.0 <= p <= 100.0 && p * len as real == n as real * 100.0
      && (p == 100.0 <==> n == len) && (p == 0.0 <==> n == 0)
  {
    var q := n as real / len as real;
    assert q * len as real == n as real;
    assert q <= 1.0;
    if q * 100.0 == 100.0 {
      assert q == 1.0;
    }
    if q * 100.0 == 0.0 {
      assert q == 0.0;
    }
  }

  /** The modules reported on: the target module alone, or every module. */
  function ReportedModules(course: CourseInfo, target: Option<Module>): (ms: seq<Module>)
    ensures target.Some? ==> ms == [target.value]
    ensures target.None? ==> ms == course.modules
  {
    if target.Some? then [target.value] else course.modules
  }

  /** The row of one student for one module. */
  function RowFor(u: User, m: Module, records: seq<ConceptMastery>): GradeRow {
    GradeRow(u.discordId, u.username, m.id, CompletionPct(m.concepts, ByConcept(records)))
  }

  /** One student's rows, module by module. */
  function UserRows(u: User, modules: seq<Module>, records: seq<ConceptMastery>): (rows: seq<GradeRow>)
    ensures |rows| == |modules|
    ensures forall j :: 0 <= j < |modules| ==> rows[j] == RowFor(u, modules[j], records)
  {
    if modules == [] then []
    else UserRows(u, modules[..|modules| - 1], records) + [RowFor(u, modules[|modules| - 1], records)]
  }

  /** All rows, student by student. `recordsOf[i]` are the mastery records
      of `users[i]`. */
  function GradeRows(users: seq<User>, recordsOf: seq<seq<ConceptMastery>>, modules: seq<Module>): (rows: seq<GradeRow>)
    requires |recordsOf| == |users|
  {
    if users == [] then []
    else
      var n := |users| - 1;
      GradeRows(users[..n], recordsOf[..n], modules) + UserRows(users[n], modules, recordsOf[n])
  }

  /** There is one row per (student, module) pair. */
  lemma {:induction false} GradeRowsCount(users: seq<User>, recordsOf: seq<seq<ConceptMastery>>, modules: seq<Module>)
    requires |recordsOf| == |users|
    ensures |GradeRows(users, recordsOf, modules)| == |users| * |modules|
  {
    if users != [] {
      var n := |users| - 1;
      GradeRowsCount(users[..n], recordsOf[..n], modules);
      MulSucc(n, |modules|);
    }
  }

  /** Students come outermost and modules innermost: row `i * |modules| + j`
      is student `i`'s row for module `j`. */
  lemma {:induction false} GradeRowAt(users: seq<User>, recordsOf: seq<seq<ConceptMastery>>, modules: seq<Module>,
                                      i: nat, j: nat)
    requires |recordsOf| == |users|
    requires i < |users| && j < |modules|
    ensures i * |modules| + j < |GradeRows(users, recordsOf, modules)|
    ensures GradeRows(users, recordsOf, modules)[i * |modules| + j] == RowFor(users[i], modules[j], recordsOf[i])
  {
    var n := |users| - 1;
    var M := |modules|;
    GradeRowsCount(users[..n], recordsOf[..n], modules);
    GradeRowsCount(users, recordsOf, modules);
    var init := GradeRows(users[..n], recordsOf[..n], modules);
    assert GradeRows(users, recordsOf, modules) == init + UserRows(users[n], modules, recordsOf[n]);
    if i < n {
      RowBeforeEnd(i, j, n, M);
      GradeRowAt(users[..n], recordsOf[..n], modules, i, j);
      assert users[..n][i] == users[i] && recordsOf[..n][i] == recordsOf[i];
    } else {
      assert i == n;
      assert i * M == n * M;
      var tail := UserRows(users[n], modules, recordsOf[n]);
      assert |init| == n * M;
      assert (init + tail)[|init| + j] == tail[j];
    }
  }

  lemma MulSucc(n: nat, M: nat)
    ensures (n + 1) * M == n * M + M
  {
  }

  /** Row `i * M + j` of a student before the `n`-th lies among the first
      `n * M` rows. */
  lemma {:induction false} RowBeforeEnd(i: nat, j: nat, n: nat, M: nat)
    requires i < n && j < M
    ensures i * M + j < n * M
    decreases n
  {
    MulSucc(n - 1, M);
    if n - 1 > i {
      RowBeforeEnd(i, j, n - 1, M);
    }
  }

  /** `generate_grade_csv`: the header and the rows, built student by
      student and module by module. */
  method GenerateGradeCsv(course: CourseInfo, target: Option<Module>, users: seq<User>,
                          recordsOf: seq<seq<ConceptMastery>>)
    returns (header: seq<string>, rows: seq<GradeRow>)
    requires |recordsOf| == |users|
    ensures header == Header
    ensures rows == GradeRows(users, recordsOf, ReportedModules(course, target))
  {
    var modules := if target.Some? then [target.value] else course.modules;
    header := Header;
    rows := [];
    for i := 0 to |users|
      invariant rows == GradeRows(users[..i], recordsOf[..i], modules)
    {
      assert users[..i + 1][..i] == users[..i] && recordsOf[..i + 1][..i] == recordsOf[..i];
      var byConcept := ByConcept(recordsOf[i]);
      var userRows := UserRowsOf(users[i], modules, byConcept, recordsOf[i]);
      rows := rows + userRows;
    }
    assert users[..|users|] == users && recordsOf[..|recordsOf|] == recordsOf;
  }

  /** The inner loop of `generate_grade_csv`: one row per module. */
  method UserRowsOf(u: User, modules: seq<Module>, byConcept: map<string, ConceptMastery>,
                    ghost records: seq<ConceptMastery>)
    returns (rows: seq<GradeRow>)
    requires byConcept == ByConcept(records)
    ensures rows == UserRows(u, modules, records)
  {
    rows := [];
    for j := 0 to |modules|
      invariant rows == UserRows(u, modules[..j], records)
    {
      assert modules[..j + 1][..j] == modules[..j];
      var concepts := modules[j].concepts;
      var completed := CompletedCount(concepts, byConcept);
      var pct := if concepts != [] then completed as real / |concepts| as real * 100.0 else 0.0;
      assert pct == CompletionPct(concepts, byConcept);
      rows := rows + [GradeRow(u.discordId, u.username, modules[j].id, pct)];
    }
    assert modules[..|modules|] == modules;
  }
}
