/** Python dictionaries iterate their keys in insertion order. A dictionary
    that the modelled code walks is a `map` together with a sequence of its
    keys in that order; this module keeps the two in step. */
module Dicts {

  /** No key occurs twice in `keys`. */
  predicate Distinct(keys: seq<int>) {
    forall i, j :: 0 <= i < j < |keys| ==> keys[i] != keys[j]
  }

  /** `keys` lists the keys of `m` once each. */
  ghost predicate Ordered<V>(keys: seq<int>, m: map<int, V>) {
    Distinct(keys) && forall k :: k in m <==> k in keys
  }

  /** A list without repetitions has as many elements as its set. */
  lemma {:induction false} DistinctCard(keys: seq<int>)
    requires Distinct(keys)
    ensures |set k | k in keys| == |keys|
  {
    if keys != [] {
      var rest := keys[1..];
      assert Distinct(rest);
      DistinctCard(rest);
      assert (set k | k in keys) == {keys[0]} + (set k | k in rest);
      assert keys[0] !in rest;
    }
  }

  /** A dictionary has as many entries as its key list. */
  lemma OrderedLength<V>(keys: seq<int>, m: map<int, V>)
    requires Ordered(keys, m)
    ensures |keys| == |m|
  {
    DistinctCard(keys);
    var ks := set k | k in keys;
    assert forall k :: k in m.Keys <==> k in ks;
    assert m.Keys == ks;
  }

  /** The key list after `d[k] = v`: a new key goes to the end, an existing
      one keeps its place. */
  function Store(keys: seq<int>, k: int): (r: seq<int>) {
    if k in keys then keys else keys + [k]
  }

  lemma StoreOrdered<V>(keys: seq<int>, m: map<int, V>, k: int, v: V)
    requires Ordered(keys, m)
    ensures Ordered(Store(keys, k), m[k := v])
  {
  }

  /** The key list after `del d[k]`. */
  function Without(keys: seq<int>, k: int): (r: seq<int>)
    ensures forall x :: x in r <==> x in keys && x != k
    ensures |r| <= |keys|
  {
    if keys == [] then []
    else if keys[0] == k then Without(keys[1..], k)
    else [keys[0]] + Without(keys[1..], k)
  }

  lemma {:induction false} WithoutDistinct(keys: seq<int>, k: int)
    requires Distinct(keys)
    ensures Distinct(Without(keys, k))
  {
    if keys != [] {
      assert Distinct(keys[1..]);
      WithoutDistinct(keys[1..], k);
      assert keys[0] !in keys[1..];
    }
  }

  lemma WithoutOrdered<V>(keys: seq<int>, m: map<int, V>, k: int)
    requires Ordered(keys, m)
    ensures Ordered(Without(keys, k), m - {k})
  {
    WithoutDistinct(keys, k);
  }

  /** `del d[k]` on a present key removes one entry. */
  lemma DeleteOne<V>(m: map<int, V>, k: int)
    requires k in m
    ensures |m - {k}| == |m| - 1
  {
    assert (m - {k}).Keys == m.Keys - {k};
  }
}
