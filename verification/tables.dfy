/** The `value_mapping` dictionaries of the entity descriptions, as association lists in
    declaration order (Python dicts keep insertion order), together with the inverse that
    the select and switch entities build with `{value: key for key, value in items}`. */
module Tables {
  import opened Wrappers

  type Table<K, V> = seq<(K, V)>

  /** The dictionary's keys, in declaration order. */
  function Keys<K, V>(t: Table<K, V>): (ks: seq<K>)
    ensures |ks| == |t|
    ensures forall i :: 0 <= i < |t| ==> ks[i] == t[i].0
  {
    if |t| == 0 then [] else [t[0].0] + Keys(t[1..])
  }

  /** The dictionary's values, in declaration order (`list(d.values())`). */
  function Values<K, V>(t: Table<K, V>): (vs: seq<V>)
    ensures |vs| == |t|
    ensures forall i :: 0 <= i < |t| ==> vs[i] == t[i].1
  {
    if |t| == 0 then [] else [t[0].1] + Values(t[1..])
  }

  ghost predicate DistinctKeys<K, V>(t: Table<K, V>) {
    forall i, j :: 0 <= i < j < |t| ==> t[i].0 != t[j].0
  }

  ghost predicate DistinctValues<K, V>(t: Table<K, V>) {
    forall i, j :: 0 <= i < j < |t| ==> t[i].1 != t[j].1
  }

  /** `d.get(k)`: the value of the LAST pair with key `k` (a dict literal that repeats a
      key keeps its last value), or None when `k` is not a key. */
  function Get<K(==), V>(t: Table<K, V>, k: K): (r: Option<V>)
    ensures r.None? <==> k !in Keys(t)
    ensures r.Some? ==> (k, r.value) in t
  {
    if |t| == 0 then None
    else if t[|t| - 1].0 == k then Some(t[|t| - 1].1)
    else
      assert Keys(t) == Keys(t[..|t| - 1]) + [t[|t| - 1].0];
      Get(t[..|t| - 1], k)
  }

  /** `inv_value_mapping[v]`: the key of the LAST pair holding `v` (a later entry of the
      comprehension overwrites an earlier one), or None (a KeyError). */
  function InverseGet<K, V(==)>(t: Table<K, V>, v: V): (r: Option<K>)
    ensures r.None? <==> v !in Values(t)
    ensures r.Some? ==> (r.value, v) in t
  {
    if |t| == 0 then None
    else if t[|t| - 1].1 == v then Some(t[|t| - 1].0)
    else
      assert Values(t) == Values(t[..|t| - 1]) + [t[|t| - 1].1];
      InverseGet(t[..|t| - 1], v)
  }

  /** Last pair wins: `Get` returns the value of the last pair whose key is `k`. */
  lemma {:induction false} GetIsLastPair<K, V>(t: Table<K, V>, k: K)
    requires Get(t, k).Some?
    ensures exists i :: 0 <= i < |t| && t[i] == (k, Get(t, k).value)
                        && forall j :: i < j < |t| ==> t[j].0 != k
  {
    var n := |t| - 1;
    if t[n].0 != k {
      var front := t[..n];
      GetIsLastPair(front, k);
      var i :| 0 <= i < |front| && front[i] == (k, Get(front, k).value)
               && forall j :: i < j < |front| ==> front[j].0 != k;
      assert t[i] == front[i];
      forall j | i < j < |t| ensures t[j].0 != k {
        if j < n { assert t[j] == front[j]; }
      }
    }
  }

  /** Last pair wins: `InverseGet` returns the key of the last pair whose value is `v`, as
      the comprehension overwrites earlier entries. */
  lemma {:induction false} InverseGetIsLastPair<K, V>(t: Table<K, V>, v: V)
    requires InverseGet(t, v).Some?
    ensures exists i :: 0 <= i < |t| && t[i] == (InverseGet(t, v).value, v)
                        && forall j :: i < j < |t| ==> t[j].1 != v
  {
    var n := |t| - 1;
    if t[n].1 != v {
      var front := t[..n];
      InverseGetIsLastPair(front, v);
      var i :| 0 <= i < |front| && front[i] == (InverseGet(front, v).value, v)
               && forall j :: i < j < |front| ==> front[j].1 != v;
      assert t[i] == front[i];
      forall j | i < j < |t| ensures t[j].1 != v {
        if j < n { assert t[j] == front[j]; }
      }
    }
  }

  /** With distinct keys, a listed pair is exactly what `Get` returns for its key. */
  lemma GetListed<K, V>(t: Table<K, V>, i: nat)
    requires DistinctKeys(t) && i < |t|
    ensures Get(t, t[i].0) == Some(t[i].1)
  {
    var r := Get(t, t[i].0);
    assert t[i].0 in Keys(t);
    var j :| 0 <= j < |t| && t[j] == (t[i].0, r.value);
    assert i == j;
  }

  /** With distinct values, a listed pair is exactly what `InverseGet` returns for its
      value. */
  lemma InverseGetListed<K, V>(t: Table<K, V>, i: nat)
    requires DistinctValues(t) && i < |t|
    ensures InverseGet(t, t[i].1) == Some(t[i].0)
  {
    var r := InverseGet(t, t[i].1);
    assert t[i].1 in Values(t);
    var j :| 0 <= j < |t| && t[j] == (r.value, t[i].1);
    assert i == j;
  }

  /** Decode after encode: for a one-to-one table, mapping a key and inverting the result
      gives the key back. */
  lemma {:induction false} DecodeEncode<K, V>(t: Table<K, V>, k: K)
    requires DistinctKeys(t) && DistinctValues(t)
    requires k in Keys(t)
    ensures Get(t, k).Some?
    ensures InverseGet(t, Get(t, k).value) == Some(k)
  {
    var i :| 0 <= i < |t| && Keys(t)[i] == k;
    GetListed(t, i);
    InverseGetListed(t, i);
  }

  /** Encode after decode: for a table with distinct keys, inverting a value and mapping
      the resulting key gives the value back. */
  lemma {:induction false} EncodeDecode<K, V>(t: Table<K, V>, v: V)
    requires DistinctKeys(t)
    requires v in Values(t)
    ensures InverseGet(t, v).Some?
    ensures Get(t, InverseGet(t, v).value) == Some(v)
  {
    var k := InverseGet(t, v).value;
    var i :| 0 <= i < |t| && t[i] == (k, v);
    GetListed(t, i);
  }
}
