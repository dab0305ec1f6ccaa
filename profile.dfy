/** Student profiles (chibi/learning/profile.py): per-concept statistics,
    counts per mastery level, overall accuracy and the short summaries the
    status commands show. The repository calls are outside the model: what
    they return is a parameter. */
module Profiles {
  import opened Wrappers
  import opened Text
  import opened Seqs
  import opened Models
  import opened Mastery

  /** The `concept_mastery` dictionary as its items in insertion order. */
  type Items = seq<(string, MasteryStats)>

  /** Dictionary keys are distinct. */
  predicate DistinctKeys(items: Items) {
    forall i, j :: 0 <= i < j < |items| ==> items[i].0 != items[j].0
  }

  predicate HasKey(items: Items, k: string) {
    exists i :: 0 <= i < |items| && items[i].0 == k
  }

  /** `d[k]` if present. */
  function Lookup(items: Items, k: string): (r: Option<MasteryStats>)
    ensures r.None? <==> !HasKey(items, k)
  {
    if items == [] then None
    else if items[0].0 == k then Some(items[0].1)
    else
      var rest := Lookup(items[1..], k);
      assert forall i :: 1 <= i < |items| ==> items[i] == items[1..][i - 1];
      assert HasKey(items[1..], k) ==> HasKey(items, k);
      rest
  }

  /** `d[k] = v`: an existing key keeps its place and takes the new value;
      a new key goes to the end. */
  function Put(items: Items, k: string, v: MasteryStats): (r: Items)
    requires DistinctKeys(items)
    ensures |r| == if HasKey(items, k) then |items| else |items| + 1
    ensures forall i :: 0 <= i < |items| ==> r[i] == if items[i].0 == k then (k, v) else items[i]
    ensures !HasKey(items, k) ==> r[|items|] == (k, v)
  {
    if items == [] then [(k, v)]
    else if items[0].0 == k then [(k, v)] + items[1..]
    else
      assert forall i :: 1 <= i < |items| ==> items[i] == items[1..][i - 1];
      assert HasKey(items[1..], k) ==> HasKey(items, k);
      [items[0]] + Put(items[1..], k, v)
  }

  /** Storing keeps the keys distinct, makes `k` look up to `v` and leaves
      every other key's value alone. */
  lemma {:induction false} PutLookup(items: Items, k: string, v: MasteryStats, k': string)
    requires DistinctKeys(items)
    ensures DistinctKeys(Put(items, k, v))
    ensures Lookup(Put(items, k, v), k') == if k' == k then Some(v) else Lookup(items, k')
  {
    PutDistinct(items, k, v);
    if items != [] {
      var rest := items[1..];
      var r := Put(items, k, v);
      if items[0].0 == k {
        assert r[1..] == rest;
      } else {
        PutLookup(rest, k, v, k');
        assert r[1..] == Put(rest, k, v);
      }
    }
  }

  /** Storing keeps the keys distinct. */
  lemma PutDistinct(items: Items, k: string, v: MasteryStats)
    requires DistinctKeys(items)
    ensures DistinctKeys(Put(items, k, v))
  {
    var r := Put(items, k, v);
    forall i, j | 0 <= i < j < |r| ensures r[i].0 != r[j].0 {
      if j < |items| {
        assert r[i] == if items[i].0 == k then (k, v) else items[i];
        assert r[j] == if items[j].0 == k then (k, v) else items[j];
      } else {
        assert !HasKey(items, k) && r[j] == (k, v);
        assert r[i] == items[i];
      }
    }
  }

  /** In a dictionary with distinct keys, the item at `i` is what its key
      looks up to. */
  lemma {:induction false} LookupIndex(items: Items, i: nat)
    requires DistinctKeys(items) && i < |items|
    ensures Lookup(items, items[i].0) == Some(items[i].1)
  {
    if i > 0 {
      assert items[1..][i - 1] == items[i];
      LookupIndex(items[1..], i - 1);
    }
  }

  /** After `d[k] = v`, `k` looks up to `v`. */
  lemma LookupAt(items: Items, k: string)
    requires DistinctKeys(items) && HasKey(items, k)
    ensures exists i :: 0 <= i < |items| && items[i].0 == k && Lookup(items, k) == Some(items[i].1)
  {
    var i :| 0 <= i < |items| && items[i].0 == k;
    LookupIndex(items, i);
  }

  /** A record turned into statistics, its level parsed from the stored
      string. */
  function StatsOf(r: ConceptMastery): MasteryStats {
    MasteryStats(r.totalAttempts, r.correctAttempts, r.avgQualityScore, LevelFromString(r.masteryLevel))
  }

  /** The dictionary the loop of `get_profile` builds. */
  function MasteryItems(records: seq<ConceptMastery>): (items: Items)
    ensures DistinctKeys(items)
  {
    if records == [] then []
    else
      var last := records[|records| - 1];
      var init := MasteryItems(records[..|records| - 1]);
      PutLookup(init, last.conceptId, StatsOf(last), last.conceptId);
      Put(init, last.conceptId, StatsOf(last))
  }

  /** The last record with a concept id, if any. */
  function LastWith(records: seq<ConceptMastery>, k: string): (r: Option<ConceptMastery>)
    ensures r.Some? ==> r.value in records && r.value.conceptId == k
    ensures r.None? ==> forall i :: 0 <= i < |records| ==> records[i].conceptId != k
  {
    if records == [] then None
    else if records[|records| - 1].conceptId == k then Some(records[|records| - 1])
    else LastWith(records[..|records| - 1], k)
  }

  /** A concept's statistics are those of its last record; a concept
      without a record is absent. */
  lemma {:induction false} MasteryItemsLookup(records: seq<ConceptMastery>, k: string)
    ensures Lookup(MasteryItems(records), k) ==
      if LastWith(records, k).Some? then Some(StatsOf(LastWith(records, k).value)) else None
  {
    if records != [] {
      var last := records[|records| - 1];
      var init := records[..|records| - 1];
      MasteryItemsLookup(init, k);
      PutLookup(MasteryItems(init), last.conceptId, StatsOf(last), k);
    }
  }

  /** One record more through the loop of `get_profile`. */
  lemma MasteryItemsStep(records: seq<ConceptMastery>, i: nat)
    requires i < |records|
    ensures MasteryItems(records[..i + 1]) == Put(MasteryItems(records[..i]), records[i].conceptId, StatsOf(records[i]))
  {
    assert records[..i + 1][..i] == records[..i];
  }

  /** The concept-mastery loop of `get_profile`. */
  method ConceptMasteryOf(records: seq<ConceptMastery>) returns (items: Items)
    ensures items == MasteryItems(records)
  {
    items := [];
    for i := 0 to |records|
      invariant items == MasteryItems(records[..i])
    {
      MasteryItemsStep(records, i);
      var r := records[i];
      items := Put(items, r.conceptId, StatsOf(r));
    }
    assert records[..|records|] == records;
  }

  /** `recent_modules` and `recent_concepts`: `list(dict.fromkeys(ids))`. */
  function Recent(ids: seq<string>): (r: seq<string>)
    ensures forall i :: 0 <= i < |r| ==> r[i] in ids
    ensures forall i :: 0 <= i < |ids| ==> ids[i] in r
    ensures forall i, j :: 0 <= i < j < |r| ==> r[i] != r[j]
  {
    Dedup(ids)
  }

  datatype StudentProfile = StudentProfile(
    userId: int,
    discordId: string,
    username: string,
    totalInteractions: int,
    totalQuizAttempts: int,
    totalCorrect: int,
    conceptMastery: Items,
    recentModules: seq<string>,
    recentConcepts: seq<string>)

  /** `overall_accuracy`: 0 without attempts, otherwise the percentage of
      correct attempts. */
  function OverallAccuracy(p: StudentProfile): (r: real)
    ensures p.totalQuizAttempts == 0 ==> r == 0.0
    ensures p.totalQuizAttempts != 0 ==> r * p.totalQuizAttempts as real == p.totalCorrect as real * 100.0
    ensures 0 <= p.totalCorrect <= p.totalQuizAttempts ==> 0.0 <= r <= 100.0
  {
    if p.totalQuizAttempts == 0 then 0.0
    else
      var q := p.totalCorrect as real / p.totalQuizAttempts as real;
      assert q * p.totalQuizAttempts as real == p.totalCorrect as real;
      assert 0 <= p.totalCorrect <= p.totalQuizAttempts ==> 0.0 <= q <= 1.0;
      q * 100.0
  }

  /** How many concepts sit at `level` (`mastered_count` and its three
      siblings). */
  function LevelCount(items: Items, level: MasteryLevel): (n: nat)
    ensures n <= |items|
  {
    if items == [] then 0
    else LevelCount(items[..|items| - 1], level) + (if items[|items| - 1].1.masteryLevel == level then 1 else 0)
  }

  /** Every concept is counted at exactly one level: the four counts add up
      to the number of concepts. */
  lemma {:induction false} LevelCountsPartition(items: Items)
    ensures LevelCount(items, Mastered) + LevelCount(items, Proficient) + LevelCount(items, Learning)
      + LevelCount(items, Novice) == |items|
  {
    if items != [] {
      LevelCountsPartition(items[..|items| - 1]);
    }
  }

  const NoConceptsYet := "No concepts started yet"

  /** `get_mastery_summary`. */
  function MasterySummary(p: StudentProfile): (r: string)
    ensures r == NoConceptsYet <==> p.conceptMastery == []
    ensures p.conceptMastery != [] ==> |r| > 0 && r[0] == '🏆'
  {
    var items := p.conceptMastery;
    if items == [] then NoConceptsYet
    else
      assert NoConceptsYet[0] != '🏆';
      "🏆 " + NatToString(LevelCount(items, Mastered)) + " | ⭐ " + NatToString(LevelCount(items, Proficient))
        + " | 📖 " + NatToString(LevelCount(items, Learning)) + " | 🌱 " + NatToString(LevelCount(items, Novice))
  }

  /** `get_recent_topics_string`. */
  function RecentTopics(p: StudentProfile, limit: int): (r: string)
    ensures p.recentConcepts == [] ==> r == "None"
    ensures p.recentConcepts != [] ==> r == Join(", ", PyTake(p.recentConcepts, limit))
  {
    if p.recentConcepts == [] then "None" else Join(", ", PyTake(p.recentConcepts, limit))
  }

  /** With a positive limit the topics string starts with the most recent
      topic and has one ", " between each of the first `limit` topics; a
      limit of 0 gives the empty string. */
  lemma RecentTopicsShape(p: StudentProfile, limit: int)
    requires p.recentConcepts != []
    ensures limit == 0 ==> RecentTopics(p, limit) == ""
    ensures limit >= 1 ==>
      var shown := PyTake(p.recentConcepts, limit);
      |shown| == (if limit < |p.recentConcepts| then limit else |p.recentConcepts|)
      && |RecentTopics(p, limit)| == TotalLength(shown) + 2 * (|shown| - 1)
      && RecentTopics(p, limit)[..|p.recentConcepts[0]|] == p.recentConcepts[0]
  {
    if limit >= 1 {
      var shown := PyTake(p.recentConcepts, limit);
      assert shown[0] == p.recentConcepts[0];
      JoinLength(", ", shown);
      if |shown| > 1 {
        assert Join(", ", shown) == shown[0] + ", " + Join(", ", shown[1..]);
      }
    }
  }

  /** A record that shows a concept needing work: novice or learning, with
      at least one attempt. */
  predicate Weak(m: ConceptMastery) {
    m.masteryLevel in {LevelNovice, LevelLearning} && m.totalAttempts > 0
  }

  /** The comprehension of `get_weak_concepts`. */
  function WeakIds(records: seq<ConceptMastery>): (ids: seq<string>)
    ensures |ids| <= |records|
  {
    if records == [] then []
    else
      var last := records[|records| - 1];
      WeakIds(records[..|records| - 1]) + (if Weak(last) then [last.conceptId] else [])
  }

  /** The weak ids of two runs of records one after the other are those of
      the first then those of the second: the filter keeps record order. */
  lemma {:induction false} WeakIdsAppend(a: seq<ConceptMastery>, b: seq<ConceptMastery>)
    ensures WeakIds(a + b) == WeakIds(a) + WeakIds(b)
    decreases |b|
  {
    if b != [] {
      var b' := b[..|b| - 1];
      assert (a + b)[..|a + b| - 1] == a + b';
      WeakIdsAppend(a, b');
    } else {
      assert a + b == a;
    }
  }

  /** Every weak id belongs to a weak record and every weak record's id is
      listed. */
  lemma {:induction false} WeakIdsExact(records: seq<ConceptMastery>)
    ensures forall k :: 0 <= k < |WeakIds(records)| ==>
      exists i :: (0 <= i < |records| && Weak(records[i]) && records[i].conceptId == WeakIds(records)[k])
    ensures forall i :: 0 <= i < |records| && Weak(records[i]) ==> records[i].conceptId in WeakIds(records)
  {
    if records != [] {
      var n := |records| - 1;
      var init := records[..n];
      WeakIdsExact(init);
      var r := WeakIds(records);
      var ri := WeakIds(init);
      assert r == ri + (if Weak(records[n]) then [records[n].conceptId] else []);
      forall k | 0 <= k < |r|
        ensures exists i :: (0 <= i < |records| && Weak(records[i]) && records[i].conceptId == r[k])
      {
        if k < |ri| {
          assert r[k] == ri[k];
          var i :| 0 <= i < |init| && Weak(init[i]) && init[i].conceptId == ri[k];
          assert records[i] == init[i];
        } else {
          assert Weak(records[n]) && records[n].conceptId == r[k];
        }
      }
      forall i | 0 <= i < |records| && Weak(records[i])
        ensures records[i].conceptId in r
      {
        if i < n {
          assert records[i] == init[i];
        }
      }
    } else {
      assert WeakIds(records) == [];
    }
  }

  /** `get_weak_concepts`: nothing for an unknown user; otherwise the weak
      concepts in record order, at most `limit` of them. */
  function GetWeakConcepts(user: Option<User>, records: seq<ConceptMastery>, limit: int): (r: seq<string>)
    ensures user.None? ==> r == []
    ensures user.Some? ==> r == PyTake(WeakIds(records), limit)
    ensures limit >= 0 ==> |r| <= limit
  {
    if user.None? then [] else PyTake(WeakIds(records), limit)
  }

  /** The default limit of `get_weak_concepts`. */
  const WeakConceptsLimit := 5

  /** `suggest_next_concept`: the first weak concept, if any. The module
      argument is ignored. */
  function SuggestNextConcept(user: Option<User>, records: seq<ConceptMastery>, moduleId: Option<string>)
    : (r: Option<string>)
    ensures r.Some? <==> user.Some? && exists i :: 0 <= i < |records| && Weak(records[i])
    ensures r.Some? ==> r.value == records[FirstIndex(records, Weak)].conceptId
  {
    var weak := GetWeakConcepts(user, records, WeakConceptsLimit);
    FirstWeak(records);
    if weak != [] then Some(weak[0]) else None
  }

  /** The first weak id is the id of the first weak record. */
  lemma FirstWeak(records: seq<ConceptMastery>)
    ensures WeakIds(records) != [] <==> exists i :: 0 <= i < |records| && Weak(records[i])
    ensures WeakIds(records) != [] ==> WeakIds(records)[0] == records[FirstIndex(records, Weak)].conceptId
  {
    FirstWeakAt(records);
  }

  /** The weak ids open with the first weak record's id, and are empty
      exactly when no record is weak. */
  lemma {:induction false} FirstWeakAt(records: seq<ConceptMastery>)
    ensures WeakIds(records) != [] <==> FirstIndex(records, Weak) != -1
    ensures WeakIds(records) != [] ==> WeakIds(records)[0] == records[FirstIndex(records, Weak)].conceptId
  {
    if records != [] {
      var head := records[..1];
      var tail := records[1..];
      assert records == head + tail;
      WeakIdsAppend(head, tail);
      assert head[..0] == [];
      FirstWeakAt(tail);
      if !Weak(records[0]) {
        assert WeakIds(records) == WeakIds(tail);
        var k := FirstIndex(tail, Weak);
        assert FirstIndex(records, Weak) == (if k == -1 then -1 else k + 1);
        if k != -1 {
          assert records[k + 1] == tail[k];
        }
      }
    }
  }
}
