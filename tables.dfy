/** Saving a run of entities into one table of the store, one after another. */
module Tables {

  predicate Distinct<K(==)>(keys: seq<K>)
  {
    forall i, j :: 0 <= i < j < |keys| ==> keys[i] != keys[j]
  }

  /** The table after saving `values[0]` under `keys[0]`, then `values[1]`
      under `keys[1]`, and so on. */
  function PutAll<K, V>(m: map<K, V>, keys: seq<K>, values: seq<V>): map<K, V>
    requires |keys| == |values|
  {
    if |keys| == 0 then m
    else
      var n := |keys| - 1;
      PutAll(m, keys[..n], values[..n])[keys[n] := values[n]]
  }

  /** Saving one more entity after a run. */
  lemma PutAllSnoc<K, V>(m: map<K, V>, keys: seq<K>, values: seq<V>, k: K, v: V)
    requires |keys| == |values|
    ensures PutAll(m, keys + [k], values + [v]) == PutAll(m, keys, values)[k := v]
  {
    assert (keys + [k])[..|keys|] == keys;
    assert (values + [v])[..|values|] == values;
  }

  /** Saving one entity before a run. */
  lemma {:induction false} PutAllCons<K, V>(m: map<K, V>, k: K, v: V, keys: seq<K>, values: seq<V>)
    requires |keys| == |values|
    ensures PutAll(m, [k] + keys, [v] + values) == PutAll(m[k := v], keys, values)
  {
    if |keys| > 0 {
      var n := |keys| - 1;
      assert ([k] + keys)[..n + 1] == [k] + keys[..n];
      assert ([v] + values)[..n + 1] == [v] + values[..n];
      PutAllCons(m, k, v, keys[..n], values[..n]);
    }
  }

  /** With distinct keys, each saved entity is found under its own key. */
  lemma {:induction false} PutAllAt<K, V>(m: map<K, V>, keys: seq<K>, values: seq<V>, k: nat)
    requires |keys| == |values| && Distinct(keys) && k < |keys|
    ensures keys[k] in PutAll(m, keys, values) && PutAll(m, keys, values)[keys[k]] == values[k]
  {
    var n := |keys| - 1;
    if k < n {
      PutAllAt(m, keys[..n], values[..n], k);
    }
  }

  /** A key outside the run keeps its entry, or its absence. */
  lemma {:induction false} PutAllOther<K, V>(m: map<K, V>, keys: seq<K>, values: seq<V>, x: K)
    requires |keys| == |values| && x !in keys
    ensures x in PutAll(m, keys, values) <==> x in m
    ensures x in m ==> PutAll(m, keys, values)[x] == m[x]
  {
    if |keys| > 0 {
      var n := |keys| - 1;
      assert x !in keys[..n];
      PutAllOther(m, keys[..n], values[..n], x);
    }
  }
}
