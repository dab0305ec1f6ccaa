/** Grouping a list by a name into a dictionary of lists: the loop
    `if name not in groups: groups[name] = []; groups[name].append(x)`
    that both context builders run. The dictionary is kept as its items in
    insertion order. */
module Grouping {
  /** The groups: (name, members) pairs in insertion order. */
  type Groups<T> = seq<(string, seq<T>)>

  /** The names of a dictionary are its distinct keys. */
  predicate DistinctNames<T>(gs: Groups<T>) {
    forall p, q :: 0 <= p < q < |gs| ==> gs[p].0 != gs[q].0
  }

  predicate HasName<T>(gs: Groups<T>, k: string) {
    exists p :: 0 <= p < |gs| && gs[p].0 == k
  }

  /** One step of the loop: `x` joins the group `k`, which is opened at
      the end when it does not exist yet. */
  function AddTo<T>(gs: Groups<T>, k: string, x: T): (r: Groups<T>)
    requires DistinctNames(gs)
    ensures DistinctNames(r)
    ensures |r| == if HasName(gs, k) then |gs| else |gs| + 1
    ensures forall p :: 0 <= p < |gs| ==> r[p] == if gs[p].0 == k then (k, gs[p].1 + [x]) else gs[p]
    ensures !HasName(gs, k) ==> r[|gs|] == (k, [x])
  {
    if gs == [] then [(k, [x])]
    else if gs[0].0 == k then [(k, gs[0].1 + [x])] + gs[1..]
    else
      assert forall p :: 1 <= p < |gs| ==> gs[p] == gs[1..][p - 1];
      assert HasName(gs[1..], k) ==> HasName(gs, k);
      [gs[0]] + AddTo(gs[1..], k, x)
  }

  /** The dictionary after the whole loop. */
  function GroupBy<T>(xs: seq<T>, name: T -> string): (gs: Groups<T>)
    ensures DistinctNames(gs)
  {
    if xs == [] then []
    else AddTo(GroupBy(xs[..|xs| - 1], name), name(xs[|xs| - 1]), xs[|xs| - 1])
  }

  /** The loop itself. */
  method GroupInOrder<T>(xs: seq<T>, name: T -> string) returns (groups: Groups<T>)
    ensures groups == GroupBy(xs, name)
  {
    groups := [];
    for i := 0 to |xs|
      invariant groups == GroupBy(xs[..i], name)
    {
      assert xs[..i + 1][..i] == xs[..i];
      groups := AddTo(groups, name(xs[i]), xs[i]);
    }
    assert xs[..|xs|] == xs;
  }

  /** The elements named `k`, in order. */
  function Members<T>(xs: seq<T>, name: T -> string, k: string): (r: seq<T>)
    ensures |r| <= |xs|
  {
    if xs == [] then []
    else Members(xs[..|xs| - 1], name, k) + (if name(xs[|xs| - 1]) == k then [xs[|xs| - 1]] else [])
  }

  /** The index of the first element named `k`, or -1. */
  function FirstOf<T>(xs: seq<T>, name: T -> string, k: string): (i: int)
    ensures -1 <= i < |xs|
    ensures i >= 0 ==> name(xs[i]) == k
  {
    if xs == [] then -1
    else
      var f := FirstOf(xs[..|xs| - 1], name, k);
      if f >= 0 then f else if name(xs[|xs| - 1]) == k then |xs| - 1 else -1
  }

  /** Every name that occurs has a group. */
  lemma {:induction false} GroupByCovers<T>(xs: seq<T>, name: T -> string)
    ensures forall i :: 0 <= i < |xs| ==> HasName(GroupBy(xs, name), name(xs[i]))
  {
    if xs != [] {
      var n := |xs| - 1;
      var init := xs[..n];
      GroupByCovers(init, name);
      var g := GroupBy(init, name);
      var r := GroupBy(xs, name);
      var k := name(xs[n]);
      forall i | 0 <= i < |xs| ensures HasName(r, name(xs[i])) {
        if i < n {
          assert init[i] == xs[i];
          var p :| 0 <= p < |g| && g[p].0 == name(init[i]);
          assert r[p].0 == g[p].0;
        } else if HasName(g, k) {
          var p :| 0 <= p < |g| && g[p].0 == k;
          assert r[p].0 == k;
        } else {
          assert r[|g|].0 == k;
        }
      }
    }
  }

  /** Each group holds exactly the elements of its name, in their original
      order, and its name occurs. */
  lemma GroupByMembers<T>(xs: seq<T>, name: T -> string)
    ensures forall p :: 0 <= p < |GroupBy(xs, name)| ==>
      GroupBy(xs, name)[p].1 == Members(xs, name, GroupBy(xs, name)[p].0)
      && 0 <= FirstOf(xs, name, GroupBy(xs, name)[p].0)
  {
    forall p | 0 <= p < |GroupBy(xs, name)|
      ensures GroupBy(xs, name)[p].1 == Members(xs, name, GroupBy(xs, name)[p].0)
      ensures 0 <= FirstOf(xs, name, GroupBy(xs, name)[p].0)
    {
      GroupMembers(xs, name, p);
    }
  }

  /** Group `p` holds exactly the elements of its name. */
  lemma {:induction false} GroupMembers<T>(xs: seq<T>, name: T -> string, p: nat)
    requires p < |GroupBy(xs, name)|
    ensures GroupBy(xs, name)[p].1 == Members(xs, name, GroupBy(xs, name)[p].0)
    ensures 0 <= FirstOf(xs, name, GroupBy(xs, name)[p].0)
  {
    var n := |xs| - 1;
    var init := xs[..n];
    var k := name(xs[n]);
    var g := GroupBy(init, name);
    var r := GroupBy(xs, name);
    if p < |g| {
      GroupMembers(init, name, p);
      assert Members(xs, name, g[p].0) == Members(init, name, g[p].0) + (if k == g[p].0 then [xs[n]] else []);
    } else {
      assert |r| == |g| + 1 && p == |g| && !HasName(g, k);
      GroupByCovers(init, name);
      MembersAbsent(init, name, k);
      assert r[p] == (k, [xs[n]]);
    }
  }

  /** The groups come in order of each name's first appearance. */
  lemma GroupByOrder<T>(xs: seq<T>, name: T -> string)
    ensures forall p, q :: 0 <= p < q < |GroupBy(xs, name)| ==>
      FirstOf(xs, name, GroupBy(xs, name)[p].0) < FirstOf(xs, name, GroupBy(xs, name)[q].0)
  {
    forall p, q | 0 <= p < q < |GroupBy(xs, name)|
      ensures FirstOf(xs, name, GroupBy(xs, name)[p].0) < FirstOf(xs, name, GroupBy(xs, name)[q].0)
    {
      GroupOrder(xs, name, p, q);
    }
  }

  /** Group `p` opened before group `q` has its first element earlier. */
  lemma {:induction false} GroupOrder<T>(xs: seq<T>, name: T -> string, p: nat, q: nat)
    requires p < q < |GroupBy(xs, name)|
    ensures FirstOf(xs, name, GroupBy(xs, name)[p].0) < FirstOf(xs, name, GroupBy(xs, name)[q].0)
  {
    var n := |xs| - 1;
    var init := xs[..n];
    var k := name(xs[n]);
    var g := GroupBy(init, name);
    var r := GroupBy(xs, name);
    GroupMembers(init, name, p);
    assert r[p].0 == g[p].0;
    var fp := FirstOf(init, name, g[p].0);
    assert FirstOf(xs, name, r[p].0) == fp;
    if q < |g| {
      GroupOrder(init, name, p, q);
      GroupMembers(init, name, q);
      assert r[q].0 == g[q].0;
      assert FirstOf(xs, name, r[q].0) == FirstOf(init, name, g[q].0);
    } else {
      assert |r| == |g| + 1 && q == |g| && !HasName(g, k);
      GroupByCovers(init, name);
      MembersAbsent(init, name, k);
      FirstOfAbsent(init, name, k);
      assert r[q] == (k, [xs[n]]);
      assert FirstOf(xs, name, k) == n;
    }
  }

  /** A name that is not among the groups occurs nowhere. */
  lemma MembersAbsent<T>(xs: seq<T>, name: T -> string, k: string)
    requires forall i :: 0 <= i < |xs| ==> HasName(GroupBy(xs, name), name(xs[i]))
    requires !HasName(GroupBy(xs, name), k)
    ensures Members(xs, name, k) == []
    ensures forall i :: 0 <= i < |xs| ==> name(xs[i]) != k
  {
    NoMembers(xs, name, k);
  }

  lemma {:induction false} NoMembers<T>(xs: seq<T>, name: T -> string, k: string)
    requires forall i :: 0 <= i < |xs| ==> name(xs[i]) != k
    ensures Members(xs, name, k) == []
  {
    if xs != [] {
      NoMembers(xs[..|xs| - 1], name, k);
    }
  }

  /** A name that occurs nowhere has no first occurrence. */
  lemma {:induction false} FirstOfAbsent<T>(xs: seq<T>, name: T -> string, k: string)
    requires forall i :: 0 <= i < |xs| ==> name(xs[i]) != k
    ensures FirstOf(xs, name, k) == -1
  {
    if xs != [] {
      FirstOfAbsent(xs[..|xs| - 1], name, k);
    }
  }
}
