/** MultiMapExt (CXLight/DataStructures/MultiMap/Exts/MultiMapExt.cs): reverse lookup on a MultiMap. */
module MultiMapExt {
  import opened Collections
  import opened MultiMaps

  /** The keys of the pairs whose value is `v`, in enumeration order. */
  function KeysWithValue<K, V(==)>(pairs: seq<(K, V)>, v: V): seq<K>
  {
    if pairs == [] then []
    else
      var last := pairs[|pairs| - 1];
      KeysWithValue(pairs[..|pairs| - 1], v) + (if last.1 == v then [last.0] else [])
  }

  lemma {:induction false} KeysWithValueAppend<K, V>(a: seq<(K, V)>, b: seq<(K, V)>, v: V)
    ensures KeysWithValue(a + b, v) == KeysWithValue(a, v) + KeysWithValue(b, v)
    decreases |b|
  {
    if b == [] {
      assert a + b == a;
    } else {
      assert (a + b)[..|a + b| - 1] == a + b[..|b| - 1];
      KeysWithValueAppend(a, b[..|b| - 1], v);
    }
  }

  /** Within one key's block, that key is listed once per occurrence of `v`. */
  lemma {:induction false} KeysWithValuePairsOf<K, V>(k2: K, l: seq<V>, v: V, k: K)
    ensures multiset(KeysWithValue(PairsOf(k2, l), v))[k] == if k == k2 then multiset(l)[v] else 0
    decreases |l|
  {
    if l != [] {
      var init := l[..|l| - 1];
      assert PairsOf(k2, l)[..|l| - 1] == PairsOf(k2, init);
      assert l == init + [l[|l| - 1]];
      KeysWithValuePairsOf(k2, init, v, k);
    }
  }

  /** Over the whole enumeration, a key is listed once per occurrence of `v` in its list. */
  lemma {:induction false} FlattenKeysWithValue<K, V>(keys: seq<K>, items: map<K, seq<V>>, v: V, k: K)
    requires Distinct(keys) && forall k :: k in keys ==> k in items
    ensures multiset(KeysWithValue(Flatten(keys, items), v))[k] == if k in keys then multiset(items[k])[v] else 0
    decreases |keys|
  {
    if keys != [] {
      var init := keys[..|keys| - 1];
      var last := keys[|keys| - 1];
      assert keys == init + [last];
      DistinctSplit(keys, |keys| - 1);
      FlattenKeysWithValue(init, items, v, k);
      KeysWithValueAppend(Flatten(init, items), PairsOf(last, items[last]), v);
      KeysWithValuePairsOf(last, items[last], v, k);
    }
  }

  /**
   * GetKeysWithValue: the key of every enumerated pair holding `value`, in
   * enumeration order, so a key appears once per copy of the value in its
   * list and not at all when its list lacks the value.
   */
  method GetKeysWithValue<K(==,!new), V(==)>(multimap: MultiMap<K, V>, value: V) returns (result: seq<K>)
    requires multimap.Valid()
    ensures result == KeysWithValue(multimap.Pairs(), value)
    ensures forall k :: multiset(result)[k] == if k in multimap.dict.items then multiset(multimap.dict.items[k])[value] else 0
    ensures forall k :: k in result <==> k in multimap.dict.items && value in multimap.dict.items[k]
  {
    var pairs := multimap.Pairs();
    result := [];
    var i := 0;
    while i < |pairs|
      invariant 0 <= i <= |pairs|
      invariant result == KeysWithValue(pairs[..i], value)
    {
      assert pairs[..i + 1][..i] == pairs[..i];
      if pairs[i].1 == value {
        result := result + [pairs[i].0];
      }
      i := i + 1;
    }
    assert pairs[..i] == pairs;
    forall k {
      FlattenKeysWithValue(multimap.dict.keys, multimap.dict.items, value, k);
    }
    forall k
      ensures k in result <==> k in multimap.dict.items && value in multimap.dict.items[k]
    {
      FlattenKeysWithValue(multimap.dict.keys, multimap.dict.items, value, k);
      assert k in result <==> multiset(result)[k] > 0;
    }
  }
}
