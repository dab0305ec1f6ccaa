/** Python's stable `list.sort(key=...)` on the keys the modelled code
    sorts by, as an insertion sort: each element goes after every earlier
    element whose key is not larger, so equal keys keep their order. */
module Sorting {
  predicate SortedBy<T>(s: seq<T>, key: T -> real) {
    forall i, j :: 0 <= i < j < |s| ==> key(s[i]) <= key(s[j])
  }

  /** Where `x` goes in `s`: after the last element whose key is at most
      its own, looking from the end. */
  function InsertPos<T>(x: T, s: seq<T>, key: T -> real): (p: nat)
    ensures p <= |s|
    ensures forall i :: p <= i < |s| ==> key(x) < key(s[i])
    ensures p > 0 ==> key(s[p - 1]) <= key(x)
  {
    if s == [] || key(s[|s| - 1]) <= key(x) then |s|
    else InsertPos(x, s[..|s| - 1], key)
  }

  /** `x` inserted at its place. */
  function Insert<T>(x: T, s: seq<T>, key: T -> real): (r: seq<T>)
    ensures |r| == |s| + 1
    ensures multiset(r) == multiset(s) + multiset{x}
    ensures SortedBy(s, key) ==> SortedBy(r, key)
  {
    var p := InsertPos(x, s, key);
    SplicePerm(x, s, p);
    InsertSorted(x, s, key);
    s[..p] + [x] + s[p..]
  }

  /** Splicing `x` in anywhere adds exactly `x`. */
  lemma SplicePerm<T>(x: T, s: seq<T>, p: nat)
    requires p <= |s|
    ensures multiset(s[..p] + [x] + s[p..]) == multiset(s) + multiset{x}
  {
    assert s == s[..p] + s[p..];
  }

  /** Where each element of `s[..p] + [x] + s[p..]` comes from. */
  lemma SpliceIndex<T>(x: T, s: seq<T>, p: nat)
    requires p <= |s|
    ensures var r := s[..p] + [x] + s[p..];
      |r| == |s| + 1 && r[p] == x
      && (forall i :: 0 <= i < p ==> r[i] == s[i])
      && (forall i :: p < i < |r| ==> r[i] == s[i - 1])
  {
  }

  /** Inserting at the place keeps a sorted list sorted. */
  lemma InsertSorted<T>(x: T, s: seq<T>, key: T -> real)
    ensures SortedBy(s, key) ==> SortedBy(s[..InsertPos(x, s, key)] + [x] + s[InsertPos(x, s, key)..], key)
  {
    var p := InsertPos(x, s, key);
    var r := s[..p] + [x] + s[p..];
    SpliceIndex(x, s, p);
    forall i, j | SortedBy(s, key) && 0 <= i < j < |r| ensures key(r[i]) <= key(r[j]) {
      if j == p {
        assert key(s[i]) <= key(s[p - 1]);
      }
    }
  }

  /** `sorted(s, key=key)`: sorted by key and a permutation of `s`. */
  function SortBy<T>(s: seq<T>, key: T -> real): (r: seq<T>)
    ensures |r| == |s|
    ensures multiset(r) == multiset(s)
    ensures SortedBy(r, key)
  {
    if s == [] then []
    else
      var init := s[..|s| - 1];
      assert s == init + [s[|s| - 1]];
      Insert(s[|s| - 1], SortBy(init, key), key)
  }

  /** Sorting keeps exactly the elements it was given. */
  lemma SortByMembers<T>(s: seq<T>, key: T -> real)
    ensures forall x :: x in SortBy(s, key) <==> x in s
  {
    var r := SortBy(s, key);
    forall x ensures x in r <==> x in s {
      assert x in r <==> x in multiset(r);
      assert x in s <==> x in multiset(s);
    }
  }

  /** Every element of the sorted list is one of the given elements. */
  lemma {:induction false} SortByFrom<T>(s: seq<T>, key: T -> real)
    ensures forall i :: 0 <= i < |SortBy(s, key)| ==> exists k :: 0 <= k < |s| && SortBy(s, key)[i] == s[k]
  {
    if s != [] {
      var init := s[..|s| - 1];
      var x := s[|s| - 1];
      SortByFrom(init, key);
      var sorted := SortBy(init, key);
      var p := InsertPos(x, sorted, key);
      SpliceIndex(x, sorted, p);
      var r := SortBy(s, key);
      assert r == sorted[..p] + [x] + sorted[p..];
      forall i | 0 <= i < |r| ensures exists k :: 0 <= k < |s| && r[i] == s[k] {
        if i == p {
          assert r[i] == s[|s| - 1];
        } else {
          var j := if i < p then i else i - 1;
          assert r[i] == sorted[j];
          var k :| 0 <= k < |init| && sorted[j] == init[k];
          assert r[i] == s[k];
        }
      }
    } else {
      assert SortBy(s, key) == [];
    }
  }

  /** No two elements share an id. */
  predicate DistinctBy<T>(s: seq<T>, id: T -> string) {
    forall i, j :: 0 <= i < j < |s| ==> id(s[i]) != id(s[j])
  }

  /** Inserting an element with a new id keeps the ids distinct. */
  lemma InsertDistinct<T>(x: T, s: seq<T>, key: T -> real, id: T -> string)
    requires DistinctBy(s, id)
    requires forall i :: 0 <= i < |s| ==> id(s[i]) != id(x)
    ensures DistinctBy(Insert(x, s, key), id)
  {
    var p := InsertPos(x, s, key);
    var r := Insert(x, s, key);
    assert r == s[..p] + [x] + s[p..];
    SpliceIndex(x, s, p);
  }

  /** Sorting never makes two elements share an id. */
  lemma {:induction false} SortByDistinct<T>(s: seq<T>, key: T -> real, id: T -> string)
    requires DistinctBy(s, id)
    ensures DistinctBy(SortBy(s, key), id)
  {
    if s != [] {
      var init := s[..|s| - 1];
      var x := s[|s| - 1];
      SortByDistinct(init, key, id);
      var sorted := SortBy(init, key);
      assert forall k :: 0 <= k < |init| ==> init[k] == s[k] && id(init[k]) != id(x);
      SortByFrom(init, key);
      InsertDistinct(x, sorted, key, id);
    }
  }
}
