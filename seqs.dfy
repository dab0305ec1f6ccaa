/** List idioms the modelled code relies on: a first-match search (a `for`
    loop with an early `return`) and order-preserving de-duplication
    (`list(dict.fromkeys(xs))`). */
module Seqs {
  import opened Wrappers

  /** Index of the first element satisfying `p`, or -1. */
  function FirstIndex<T>(s: seq<T>, p: T -> bool): (r: int)
    ensures -1 <= r < |s|
    ensures r == -1 <==> forall i :: 0 <= i < |s| ==> !p(s[i])
    ensures r >= 0 ==> p(s[r]) && forall j :: 0 <= j < r ==> !p(s[j])
  {
    if s == [] then -1
    else if p(s[0]) then 0
    else
      var k := FirstIndex(s[1..], p);
      if k == -1 then -1 else k + 1
  }

  /** The elements of `s` in order of first appearance, each once. */
  function Dedup<T(==)>(s: seq<T>): (r: seq<T>)
    ensures forall i :: 0 <= i < |r| ==> r[i] in s
    ensures forall i :: 0 <= i < |s| ==> s[i] in r
    ensures forall i, j :: 0 <= i < j < |r| ==> r[i] != r[j]
    ensures |r| <= |s|
  {
    DedupFrom(s, [])
  }

  /** Keeps the elements of `s` not yet in `seen`, in order; `seen` are the
      keys already in the dictionary. */
  function DedupFrom<T(==)>(s: seq<T>, seen: seq<T>): (r: seq<T>)
    requires forall i, j :: 0 <= i < j < |seen| ==> seen[i] != seen[j]
    ensures forall i :: 0 <= i < |r| ==> r[i] in s && r[i] !in seen
    ensures forall i :: 0 <= i < |s| && s[i] !in seen ==> s[i] in r
    ensures forall i, j :: 0 <= i < j < |r| ==> r[i] != r[j]
    ensures |r| <= |s|
    decreases |s|
  {
    if s == [] then []
    else if s[0] in seen then DedupFrom(s[1..], seen)
    else [s[0]] + DedupFrom(s[1..], seen + [s[0]])
  }

  /** De-duplication keeps the order of first appearances: an element that
      first appears before another comes out before it. */
  lemma {:induction false} DedupKeepsFirstOrder<T>(s: seq<T>, seen: seq<T>, i: nat, j: nat)
    requires forall a, b :: 0 <= a < b < |seen| ==> seen[a] != seen[b]
    requires i < j < |s|
    requires s[i] !in seen && s[j] !in seen && s[i] != s[j]
    requires forall k :: 0 <= k < i ==> s[k] != s[i]
    requires forall k :: 0 <= k < j ==> s[k] != s[j]
    ensures Before(DedupFrom(s, seen), s[i], s[j])
    decreases |s|
  {
    var t := s[1..];
    assert forall k :: 0 <= k < |t| ==> t[k] == s[k + 1];
    if s[0] in seen {
      assert DedupFrom(s, seen) == DedupFrom(t, seen);
      ShiftFirstOccurrences(s, i, j);
      DedupKeepsFirstOrder(t, seen, i - 1, j - 1);
    } else {
      var seen' := seen + [s[0]];
      DistinctSnoc(seen, s[0]);
      var rest := DedupFrom(t, seen');
      assert DedupFrom(s, seen) == [s[0]] + rest;
      if i == 0 {
        assert s[j] == t[j - 1] && s[j] !in seen';
        PrependBefore(s[0], rest, s[j]);
      } else {
        ShiftFirstOccurrences(s, i, j);
        assert s[i] != s[0] && s[j] != s[0];
        assert s[i] !in seen' && s[j] !in seen';
        DedupKeepsFirstOrder(t, seen', i - 1, j - 1);
        PrependKeepsOrder(s[0], rest, s[i], s[j]);
      }
    }
  }

  /** A new element keeps a list of distinct elements distinct. */
  lemma DistinctSnoc<T>(seen: seq<T>, x: T)
    requires forall a, b :: 0 <= a < b < |seen| ==> seen[a] != seen[b]
    requires x !in seen
    ensures forall a, b :: 0 <= a < b < |seen + [x]| ==> (seen + [x])[a] != (seen + [x])[b]
  {
  }

  /** First occurrences after the head stay first occurrences in the tail. */
  lemma ShiftFirstOccurrences<T>(s: seq<T>, i: nat, j: nat)
    requires 0 < i < j < |s|
    requires forall k :: 0 <= k < i ==> s[k] != s[i]
    requires forall k :: 0 <= k < j ==> s[k] != s[j]
    ensures s[1..][i - 1] == s[i] && s[1..][j - 1] == s[j]
    ensures forall k :: 0 <= k < i - 1 ==> s[1..][k] != s[1..][i - 1]
    ensures forall k :: 0 <= k < j - 1 ==> s[1..][k] != s[1..][j - 1]
  {
  }

  /** `u` occurs in `r` at some position before an occurrence of `v`. */
  ghost predicate Before<T>(r: seq<T>, u: T, v: T) {
    exists a, b :: 0 <= a < b < |r| && r[a] == u && r[b] == v
  }

  /** `x` comes before every element of `rest` in `[x] + rest`. */
  lemma PrependBefore<T>(x: T, rest: seq<T>, v: T)
    requires v in rest
    ensures Before([x] + rest, x, v)
  {
    var b :| 0 <= b < |rest| && rest[b] == v;
    assert ([x] + rest)[0] == x && ([x] + rest)[b + 1] == v;
  }

  /** Prepending keeps the relative order of two elements. */
  lemma PrependKeepsOrder<T>(x: T, rest: seq<T>, u: T, v: T)
    requires Before(rest, u, v)
    ensures Before([x] + rest, u, v)
  {
    var a, b :| 0 <= a < b < |rest| && rest[a] == u && rest[b] == v;
    assert ([x] + rest)[a + 1] == u && ([x] + rest)[b + 1] == v;
  }

  /** Elements satisfying `p`, in order. */
  function Filter<T>(s: seq<T>, p: T -> bool): (r: seq<T>)
    ensures |r| <= |s|
    ensures forall i :: 0 <= i < |r| ==> r[i] in s && p(r[i])
    ensures forall i :: 0 <= i < |s| && p(s[i]) ==> s[i] in r
  {
    if s == [] then [] else (if p(s[0]) then [s[0]] else []) + Filter(s[1..], p)
  }

  /** The first `Some` at or after `from`, with its index: a left-to-right
      scan that stops at the first hit. */
  function FirstSome<T>(xs: seq<Option<T>>, from: nat): (r: Option<(nat, T)>)
    ensures r.Some? ==> from <= r.value.0 < |xs| && xs[r.value.0] == Some(r.value.1)
    decreases |xs| - from
  {
    if from >= |xs| then None
    else if xs[from].Some? then Some((from, xs[from].value))
    else FirstSome(xs, from + 1)
  }

  /** Nothing before the hit is a `Some`, and a miss means no `Some` at all. */
  lemma {:induction false} FirstSomeLeftmost<T>(xs: seq<Option<T>>, from: nat)
    ensures var r := FirstSome(xs, from);
      (r.Some? ==> forall j :: from <= j < r.value.0 ==> xs[j].None?)
      && (r.None? ==> forall j :: from <= j < |xs| ==> xs[j].None?)
    decreases |xs| - from
  {
    if from < |xs| && xs[from].None? {
      FirstSomeLeftmost(xs, from + 1);
    }
  }

  /** A `Some` at `i` with only `None` between `from` and `i` is the hit. */
  lemma {:induction false} FirstSomeAt<T>(xs: seq<Option<T>>, from: nat, i: nat)
    requires from <= i < |xs| && xs[i].Some?
    requires forall j :: from <= j < i ==> xs[j].None?
    ensures FirstSome(xs, from) == Some((i, xs[i].value))
    decreases i - from
  {
    if from < i {
      FirstSomeAt(xs, from + 1, i);
    }
  }

  /** Only `None` from `from` on: no hit. */
  lemma {:induction false} FirstSomeNone<T>(xs: seq<Option<T>>, from: nat)
    requires forall j :: from <= j < |xs| ==> xs[j].None?
    ensures FirstSome(xs, from).None?
    decreases |xs| - from
  {
    if from < |xs| {
      FirstSomeNone(xs, from + 1);
    }
  }

  /** The pieces `f(x)` of the elements, one after another (a loop that
      extends one list with each element's lines). */
  function ConcatMap<A, B>(xs: seq<A>, f: A -> seq<B>): seq<B> {
    if xs == [] then [] else ConcatMap(xs[..|xs| - 1], f) + f(xs[|xs| - 1])
  }

  /** One more element adds its piece at the end. */
  lemma ConcatMapSnoc<A, B>(xs: seq<A>, f: A -> seq<B>, g: nat)
    requires g < |xs|
    ensures ConcatMap(xs[..g + 1], f) == ConcatMap(xs[..g], f) + f(xs[g])
  {
    assert xs[..g + 1][..g] == xs[..g];
  }

  /** Where the piece of element `p` starts. */
  function PieceStart<A, B>(xs: seq<A>, f: A -> seq<B>, p: nat): nat
    requires p <= |xs|
  {
    |ConcatMap(xs[..p], f)|
  }

  /** The pieces of the first `q` elements start the pieces of all. */
  lemma {:induction false} ConcatMapPrefix<A, B>(xs: seq<A>, f: A -> seq<B>, q: nat)
    requires q <= |xs|
    ensures PieceStart(xs, f, q) <= |ConcatMap(xs, f)|
    ensures ConcatMap(xs, f)[..PieceStart(xs, f, q)] == ConcatMap(xs[..q], f)
    decreases |xs|
  {
    if q < |xs| {
      var n := |xs| - 1;
      var init := xs[..n];
      assert xs[..n + 1] == xs;
      assert ConcatMap(xs, f) == ConcatMap(init, f) + f(xs[n]);
      assert init[..q] == xs[..q];
      ConcatMapPrefix(init, f, q);
    } else {
      assert xs[..q] == xs;
    }
  }

  /** The piece of element `p` sits at `PieceStart(xs, f, p)`, and nothing
      follows the last piece. */
  lemma ConcatMapAt<A, B>(xs: seq<A>, f: A -> seq<B>, p: nat)
    requires p < |xs|
    ensures var s := PieceStart(xs, f, p);
      s + |f(xs[p])| <= |ConcatMap(xs, f)|
      && ConcatMap(xs, f)[s..s + |f(xs[p])|] == f(xs[p])
      && (p == |xs| - 1 ==> s + |f(xs[p])| == |ConcatMap(xs, f)|)
  {
    var all, before, piece := ConcatMap(xs, f), ConcatMap(xs[..p], f), f(xs[p]);
    ConcatMapPrefix(xs, f, p + 1);
    ConcatMapSnoc(xs, f, p);
    assert all[..|before + piece|] == before + piece;
    assert all[|before|..|before| + |piece|] == all[..|before + piece|][|before|..];
    if p == |xs| - 1 {
      assert xs[..p + 1] == xs;
    }
  }
}
