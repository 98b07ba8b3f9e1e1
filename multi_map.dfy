/**
 * MultiMap (CXLight/DataStructures/MultiMap/MultiMap.cs): a dictionary from
 * each key to the list of its values, kept in the order they were added,
 * that enumerates as one flat sequence of (key, value) pairs and keeps a
 * running Count of them.
 */
module MultiMaps {
  import opened Wrappers
  import opened Collections
  import EnumerableExt

  /** The exceptions the multimap's members throw. */
  datatype Exception = ArgumentNullException | ArgumentOutOfRangeException | ArgumentException | KeyNotFoundException

  /** One key's list as pairs, in list order. */
  function PairsOf<K, V>(k: K, vs: seq<V>): (r: seq<(K, V)>)
    ensures |r| == |vs|
    ensures forall i :: 0 <= i < |r| ==> r[i] == (k, vs[i])
  {
    seq(|vs|, i requires 0 <= i < |vs| => (k, vs[i]))
  }

  /** The enumeration: every key in `keys` order, each followed through its list. */
  function Flatten<K, V>(keys: seq<K>, items: map<K, seq<V>>): seq<(K, V)>
    requires forall k :: k in keys ==> k in items
  {
    if keys == [] then []
    else Flatten(keys[..|keys| - 1], items) + PairsOf(keys[|keys| - 1], items[keys[|keys| - 1]])
  }

  lemma {:induction false} FlattenAppend<K, V>(a: seq<K>, b: seq<K>, items: map<K, seq<V>>)
    requires forall k :: k in a + b ==> k in items
    ensures Flatten(a + b, items) == Flatten(a, items) + Flatten(b, items)
    decreases |b|
  {
    if b == [] {
      assert a + b == a;
    } else {
      var init := b[..|b| - 1];
      assert (a + b)[..|a + b| - 1] == a + init;
      FlattenAppend(a, init, items);
    }
  }

  /** The enumeration only depends on the lists of the keys it goes through. */
  lemma {:induction false} FlattenFrame<K, V>(s: seq<K>, items: map<K, seq<V>>, items2: map<K, seq<V>>)
    requires forall k :: k in s ==> k in items && k in items2 && items[k] == items2[k]
    ensures Flatten(s, items) == Flatten(s, items2)
    decreases |s|
  {
    if s != [] {
      FlattenFrame(s[..|s| - 1], items, items2);
    }
  }

  /** A pair is enumerated exactly when its value is in its key's list. */
  lemma {:induction false} FlattenMember<K, V>(keys: seq<K>, items: map<K, seq<V>>, k: K, v: V)
    requires forall k :: k in keys ==> k in items
    ensures (k, v) in Flatten(keys, items) <==> k in keys && v in items[k]
    decreases |keys|
  {
    if keys != [] {
      var init := keys[..|keys| - 1];
      var last := keys[|keys| - 1];
      FlattenMember(init, items, k, v);
      assert keys == init + [last];
      var ps := PairsOf(last, items[last]);
      if (k, v) in ps {
        var i :| 0 <= i < |ps| && ps[i] == (k, v);
        assert items[last][i] == v;
      }
      if k == last && v in items[k] {
        var i :| 0 <= i < |items[k]| && items[k][i] == v;
        assert ps[i] == (k, v);
      }
    }
  }

  /** The enumeration cut at key `i`: the keys before, key i's list, the keys after. */
  lemma {:induction false} FlattenSplit<K, V>(keys: seq<K>, items: map<K, seq<V>>, i: nat)
    requires forall k :: k in keys ==> k in items
    requires i < |keys|
    ensures Flatten(keys, items)
         == Flatten(keys[..i], items) + PairsOf(keys[i], items[keys[i]]) + Flatten(keys[i + 1..], items)
  {
    assert keys == keys[..i] + [keys[i]] + keys[i + 1..];
    FlattenAppend(keys[..i] + [keys[i]], keys[i + 1..], items);
    FlattenAppend(keys[..i], [keys[i]], items);
    assert Flatten([keys[i]], items) == Flatten([], items) + PairsOf(keys[i], items[keys[i]]);
  }

  /** Replacing one key's list replaces that key's block and nothing else. */
  lemma {:induction false} FlattenUpdate<K, V>(keys: seq<K>, items: map<K, seq<V>>, i: nat, l: seq<V>)
    requires Distinct(keys) && forall k :: k in keys ==> k in items
    requires i < |keys|
    ensures Flatten(keys, items[keys[i] := l])
         == Flatten(keys[..i], items) + PairsOf(keys[i], l) + Flatten(keys[i + 1..], items)
  {
    DistinctSplit(keys, i);
    var k := keys[i];
    var items2 := items[k := l];
    FlattenSplit(keys, items2, i);
    FlattenFrame(keys[..i], items, items2);
    FlattenFrame(keys[i + 1..], items, items2);
  }

  /** Dropping a key drops its block and nothing else. */
  lemma {:induction false} FlattenRemove<K, V>(keys: seq<K>, items: map<K, seq<V>>, i: nat)
    requires Distinct(keys) && forall k :: k in keys ==> k in items
    requires i < |keys|
    ensures forall k :: k in keys[..i] + keys[i + 1..] ==> k in items - {keys[i]}
    ensures Flatten(keys[..i] + keys[i + 1..], items - {keys[i]})
         == Flatten(keys[..i], items) + Flatten(keys[i + 1..], items)
  {
    DistinctSplit(keys, i);
    var k := keys[i];
    var items2 := items - {k};
    FlattenFrame(keys[..i], items, items2);
    FlattenFrame(keys[i + 1..], items, items2);
    FlattenAppend(keys[..i], keys[i + 1..], items2);
  }

  /** Growing the middle block of a + p + b by x inserts x at the block's end. */
  lemma {:induction false} SpliceIn<T>(a: seq<T>, p: seq<T>, b: seq<T>, x: T)
    ensures var s := a + p + b;
            a + (p + [x]) + b == s[..|a| + |p|] + [x] + s[|a| + |p|..]
  {
    var s := a + p + b;
    assert s[..|a| + |p|] == a + p;
    assert s[|a| + |p|..] == b;
  }

  /** Taking element m out of the middle block of a + p + b. */
  lemma {:induction false} SpliceOut<T>(a: seq<T>, p: seq<T>, b: seq<T>, m: nat)
    requires m < |p|
    ensures var s := a + p + b;
            && s[|a| + m] == p[m]
            && s[..|a| + m] == a + p[..m]
            && a + (p[..m] + p[m + 1..]) + b == s[..|a| + m] + s[|a| + m + 1..]
  {
    var s := a + p + b;
    assert s[..|a| + m] == a + p[..m];
    assert s[|a| + m + 1..] == p[m + 1..] + b;
  }

  /** Taking the whole middle block out of a + p + b. */
  lemma {:induction false} SpliceOutBlock<T>(a: seq<T>, p: seq<T>, b: seq<T>)
    ensures var s := a + p + b;
            && s[|a|..|a| + |p|] == p
            && a + b == s[..|a|] + s[|a| + |p|..]
  {
    var s := a + p + b;
    assert s[..|a|] == a;
    assert s[|a| + |p|..] == b;
  }

  /** Appending to an existing key's list inserts the pair at the end of that key's block. */
  lemma {:induction false} FlattenAppendValue<K, V>(keys: seq<K>, items: map<K, seq<V>>, i: nat, value: V)
    requires Distinct(keys) && forall k :: k in keys ==> k in items
    requires i < |keys|
    ensures var k := keys[i];
            var s := Flatten(keys, items);
            var j := |Flatten(keys[..i], items)| + |items[k]|;
            && j <= |s|
            && Flatten(keys, items[k := items[k] + [value]]) == s[..j] + [(k, value)] + s[j..]
  {
    DistinctSplit(keys, i);
    var k := keys[i];
    var l := items[k];
    FlattenSplit(keys, items, i);
    FlattenUpdate(keys, items, i, l + [value]);
    assert PairsOf(k, l + [value]) == PairsOf(k, l) + [(k, value)];
    SpliceIn(Flatten(keys[..i], items), PairsOf(k, l), Flatten(keys[i + 1..], items), (k, value));
  }

  /** In a list of distinct keys, key i occurs neither before nor after position i. */
  lemma {:induction false} DistinctSplit<K>(keys: seq<K>, i: nat)
    requires Distinct(keys) && i < |keys|
    ensures keys[i] !in keys[..i] && keys[i] !in keys[i + 1..]
  {
  }

  /** A new key's block goes at the end of the enumeration. */
  lemma {:induction false} FlattenAddKey<K, V>(keys: seq<K>, items: map<K, seq<V>>, k: K, l: seq<V>)
    requires forall k :: k in keys ==> k in items
    requires k !in keys
    ensures Flatten(keys + [k], items[k := l]) == Flatten(keys, items) + PairsOf(k, l)
  {
    assert (keys + [k])[..|keys|] == keys;
    FlattenFrame(keys, items, items[k := l]);
  }

  /** The values enumerated under key `k`, in enumeration order. */
  function ValuesWithKey<K(==), V>(pairs: seq<(K, V)>, k: K): seq<V>
  {
    if pairs == [] then []
    else
      var last := pairs[|pairs| - 1];
      ValuesWithKey(pairs[..|pairs| - 1], k) + (if last.0 == k then [last.1] else [])
  }

  lemma {:induction false} ValuesWithKeyAppend<K, V>(a: seq<(K, V)>, b: seq<(K, V)>, k: K)
    ensures ValuesWithKey(a + b, k) == ValuesWithKey(a, k) + ValuesWithKey(b, k)
    decreases |b|
  {
    if b == [] {
      assert a + b == a;
    } else {
      assert (a + b)[..|a + b| - 1] == a + b[..|b| - 1];
      ValuesWithKeyAppend(a, b[..|b| - 1], k);
    }
  }

  lemma {:induction false} ValuesWithKeyPairsOf<K, V>(k2: K, l: seq<V>, k: K)
    ensures ValuesWithKey(PairsOf(k2, l), k) == if k2 == k then l else []
    decreases |l|
  {
    if l != [] {
      var init := l[..|l| - 1];
      assert PairsOf(k2, l)[..|l| - 1] == PairsOf(k2, init);
      ValuesWithKeyPairsOf(k2, init, k);
      assert init + [l[|l| - 1]] == l;
    }
  }

  /** With distinct keys, the values enumerated under a key are exactly its list. */
  lemma {:induction false} FlattenValuesWithKey<K, V>(keys: seq<K>, items: map<K, seq<V>>, k: K)
    requires Distinct(keys) && forall k :: k in keys ==> k in items
    ensures ValuesWithKey(Flatten(keys, items), k) == if k in keys then items[k] else []
    decreases |keys|
  {
    if keys != [] {
      var init := keys[..|keys| - 1];
      var last := keys[|keys| - 1];
      assert keys == init + [last];
      FlattenValuesWithKey(init, items, k);
      ValuesWithKeyAppend(Flatten(init, items), PairsOf(last, items[last]), k);
      ValuesWithKeyPairsOf(last, items[last], k);
      DistinctSplit(keys, |keys| - 1);
    }
  }

  /** List.Remove: drops the first occurrence of `x`. */
  function RemoveFirst<V(==)>(s: seq<V>, x: V): (r: seq<V>)
    requires x in s
    ensures |r| == |s| - 1
  {
    var i := IndexOf(s, x);
    s[..i] + s[i + 1..]
  }

  /** RemoveFirst takes exactly one copy of `x` away and keeps everything else. */
  lemma RemoveFirstMultiset<V>(s: seq<V>, x: V)
    requires x in s
    ensures multiset(RemoveFirst(s, x)) == multiset(s) - multiset{x}
  {
    var i := IndexOf(s, x);
    assert s == s[..i] + [x] + s[i + 1..];
  }

  /** Where the first enumerated (key, value) pair sits: inside key's block, at value's first place in the list. */
  ghost function RemovePosition<K, V>(keys: seq<K>, items: map<K, seq<V>>, key: K, value: V): nat
    requires forall k :: k in keys ==> k in items
    requires key in keys && value in items[key]
  {
    |Flatten(keys[..IndexOf(keys, key)], items)| + IndexOf(items[key], value)
  }

  /** Where Add puts a new pair: after the key's block, or at the very end for a new key. */
  ghost function AddPosition<K, V>(keys: seq<K>, items: map<K, seq<V>>, key: K): nat
    requires forall k :: k in keys ==> k in items
  {
    if key in keys then |Flatten(keys[..IndexOf(keys, key)], items)| + |items[key]|
    else |Flatten(keys, items)|
  }

  lemma {:induction false} PairsOfRemoveFirst<K, V>(k: K, l: seq<V>, v: V)
    requires v in l
    ensures var m := IndexOf(l, v);
            PairsOf(k, RemoveFirst(l, v)) == PairsOf(k, l)[..m] + PairsOf(k, l)[m + 1..]
  {
  }

  /** No (k, v) pair is enumerated before the first v of key k's block. */
  lemma {:induction false} PrefixOfBlockMissesPair<K, V>(keys: seq<K>, items: map<K, seq<V>>, i: nat, v: V)
    requires Distinct(keys) && forall k :: k in keys ==> k in items
    requires i < |keys| && v in items[keys[i]]
    ensures var k := keys[i];
            (k, v) !in Flatten(keys[..i], items) + PairsOf(k, items[k])[..IndexOf(items[k], v)]
  {
    DistinctSplit(keys, i);
    var k := keys[i];
    FlattenMember(keys[..i], items, k, v);
  }

  /**
   * Add's effect on the enumeration: the pair goes in at the end of its
   * key's block (at the very end for a new key), everything else stays.
   */
  lemma {:induction false} AddFlatten<K, V>(keys: seq<K>, items: map<K, seq<V>>, keys2: seq<K>, items2: map<K, seq<V>>, key: K, value: V)
    requires Distinct(keys) && forall k :: k in items <==> k in keys
    requires key in items ==> keys2 == keys && items2 == items[key := items[key] + [value]]
    requires key !in items ==> keys2 == keys + [key] && items2 == items[key := [value]]
    ensures forall k :: k in keys2 ==> k in items2
    ensures var s := Flatten(keys, items);
            var j := AddPosition(keys, items, key);
            && j <= |s|
            && Flatten(keys2, items2) == s[..j] + [(key, value)] + s[j..]
    ensures key !in items ==> Flatten(keys2, items2) == Flatten(keys, items) + [(key, value)]
  {
    if key in items {
      AddToExistingKey(keys, items, keys2, items2, key, value);
    } else {
      AddNewKey(keys, items, keys2, items2, key, value);
    }
  }

  lemma {:induction false} AddToExistingKey<K, V>(keys: seq<K>, items: map<K, seq<V>>, keys2: seq<K>, items2: map<K, seq<V>>, key: K, value: V)
    requires Distinct(keys) && forall k :: k in items <==> k in keys
    requires key in items && keys2 == keys && items2 == items[key := items[key] + [value]]
    ensures forall k :: k in keys2 ==> k in items2
    ensures var s := Flatten(keys, items);
            var j := AddPosition(keys, items, key);
            && j <= |s|
            && Flatten(keys2, items2) == s[..j] + [(key, value)] + s[j..]
  {
    FlattenAppendValue(keys, items, IndexOf(keys, key), value);
  }

  lemma {:induction false} AddNewKey<K, V>(keys: seq<K>, items: map<K, seq<V>>, keys2: seq<K>, items2: map<K, seq<V>>, key: K, value: V)
    requires forall k :: k in items <==> k in keys
    requires key !in items && keys2 == keys + [key] && items2 == items[key := [value]]
    ensures forall k :: k in keys2 ==> k in items2
    ensures var s := Flatten(keys, items);
            && AddPosition(keys, items, key) == |s|
            && Flatten(keys2, items2) == s + [(key, value)]
            && Flatten(keys2, items2) == s[..|s|] + [(key, value)] + s[|s|..]
  {
    var s := Flatten(keys, items);
    FlattenAddKey(keys, items, key, [value]);
    assert s[..|s|] == s && s[|s|..] == [];
  }

  /**
   * Remove(KeyValuePair)'s effect on the enumeration: the first occurrence
   * of the pair goes, everything else stays in order.
   */
  lemma {:induction false} RemovePairFlatten<K, V>(keys: seq<K>, items: map<K, seq<V>>, keys2: seq<K>, items2: map<K, seq<V>>, key: K, value: V)
    requires Distinct(keys) && forall k :: k in items <==> k in keys
    requires key in items && value in items[key]
    requires var l := RemoveFirst(items[key], value);
             && (l == [] ==> var i := IndexOf(keys, key); keys2 == keys[..i] + keys[i + 1..] && items2 == items - {key})
             && (l != [] ==> keys2 == keys && items2 == items[key := l])
    ensures forall k :: k in keys2 ==> k in items2
    ensures var s := Flatten(keys, items);
            var p := RemovePosition(keys, items, key, value);
            && p < |s|
            && s[p] == (key, value)
            && (key, value) !in s[..p]
            && Flatten(keys2, items2) == s[..p] + s[p + 1..]
  {
    if RemoveFirst(items[key], value) != [] {
      RemoveFromLongerList(keys, items, keys2, items2, key, value);
    } else {
      RemoveLastValue(keys, items, keys2, items2, key, value);
    }
  }

  lemma {:induction false} RemoveFromLongerList<K, V>(keys: seq<K>, items: map<K, seq<V>>, keys2: seq<K>, items2: map<K, seq<V>>, key: K, value: V)
    requires Distinct(keys) && forall k :: k in items <==> k in keys
    requires key in items && value in items[key]
    requires RemoveFirst(items[key], value) != []
    requires keys2 == keys && items2 == items[key := RemoveFirst(items[key], value)]
    ensures forall k :: k in keys2 ==> k in items2
    ensures var s := Flatten(keys, items);
            var p := RemovePosition(keys, items, key, value);
            && p < |s|
            && s[p] == (key, value)
            && (key, value) !in s[..p]
            && Flatten(keys2, items2) == s[..p] + s[p + 1..]
  {
    var i := IndexOf(keys, key);
    var l0 := items[key];
    var m := IndexOf(l0, value);
    var l := RemoveFirst(l0, value);
    var a, pl, b := Flatten(keys[..i], items), PairsOf(key, l0), Flatten(keys[i + 1..], items);
    FlattenSplit(keys, items, i);
    FlattenUpdate(keys, items, i, l);
    PairsOfRemoveFirst(key, l0, value);
    CutOne(Flatten(keys, items), a, pl, b, m, Flatten(keys2, items2));
    PrefixOfBlockMissesPair(keys, items, i, value);
  }

  /** Cutting element m out of the middle block of s == a + pl + b. */
  lemma {:induction false} CutOne<T>(s: seq<T>, a: seq<T>, pl: seq<T>, b: seq<T>, m: nat, s2: seq<T>)
    requires s == a + pl + b && m < |pl|
    requires s2 == a + (pl[..m] + pl[m + 1..]) + b
    ensures |a| + m < |s| && s[|a| + m] == pl[m] && s[..|a| + m] == a + pl[..m]
    ensures s2 == s[..|a| + m] + s[|a| + m + 1..]
  {
    SpliceOut(a, pl, b, m);
  }

  lemma {:induction false} RemoveLastValue<K, V>(keys: seq<K>, items: map<K, seq<V>>, keys2: seq<K>, items2: map<K, seq<V>>, key: K, value: V)
    requires Distinct(keys) && forall k :: k in items <==> k in keys
    requires key in items && value in items[key]
    requires RemoveFirst(items[key], value) == []
    requires var i := IndexOf(keys, key); keys2 == keys[..i] + keys[i + 1..] && items2 == items - {key}
    ensures forall k :: k in keys2 ==> k in items2
    ensures var s := Flatten(keys, items);
            var p := RemovePosition(keys, items, key, value);
            && p < |s|
            && s[p] == (key, value)
            && (key, value) !in s[..p]
            && Flatten(keys2, items2) == s[..p] + s[p + 1..]
  {
    var i := IndexOf(keys, key);
    var l0 := items[key];
    var m := IndexOf(l0, value);
    var a, pl, b := Flatten(keys[..i], items), PairsOf(key, l0), Flatten(keys[i + 1..], items);
    FlattenSplit(keys, items, i);
    FlattenRemove(keys, items, i);
    PairsOfRemoveFirst(key, l0, value);
    assert a + b == a + (pl[..m] + pl[m + 1..]) + b;
    CutOne(Flatten(keys, items), a, pl, b, m, Flatten(keys2, items2));
    PrefixOfBlockMissesPair(keys, items, i, value);
  }

  /** The pairs whose key is not `k`, in their order. */
  ghost function WithoutKey<K, V>(pairs: seq<(K, V)>, k: K): seq<(K, V)>
  {
    if pairs == [] then []
    else
      var last := pairs[|pairs| - 1];
      WithoutKey(pairs[..|pairs| - 1], k) + (if last.0 == k then [] else [last])
  }

  lemma {:induction false} WithoutKeyAppend<K, V>(a: seq<(K, V)>, b: seq<(K, V)>, k: K)
    ensures WithoutKey(a + b, k) == WithoutKey(a, k) + WithoutKey(b, k)
    decreases |b|
  {
    if b == [] {
      assert a + b == a;
    } else {
      assert (a + b)[..|a + b| - 1] == a + b[..|b| - 1];
      WithoutKeyAppend(a, b[..|b| - 1], k);
    }
  }

  lemma {:induction false} WithoutKeyPairsOf<K, V>(k2: K, l: seq<V>, k: K)
    ensures WithoutKey(PairsOf(k2, l), k) == if k2 == k then [] else PairsOf(k2, l)
    decreases |l|
  {
    if l != [] {
      var init := l[..|l| - 1];
      assert PairsOf(k2, l)[..|l| - 1] == PairsOf(k2, init);
      WithoutKeyPairsOf(k2, init, k);
    }
  }

  /** A key that is not enumerated filters nothing out. */
  lemma {:induction false} WithoutAbsentKey<K, V>(keys: seq<K>, items: map<K, seq<V>>, k: K)
    requires forall k :: k in keys ==> k in items
    requires k !in keys
    ensures WithoutKey(Flatten(keys, items), k) == Flatten(keys, items)
    decreases |keys|
  {
    if keys != [] {
      var init := keys[..|keys| - 1];
      var last := keys[|keys| - 1];
      assert keys == init + [last];
      WithoutAbsentKey(init, items, k);
      WithoutKeyAppend(Flatten(init, items), PairsOf(last, items[last]), k);
      WithoutKeyPairsOf(last, items[last], k);
    }
  }

  /** Remove(key)'s effect on the enumeration: exactly the pairs with that key go. */
  lemma {:induction false} RemoveKeyFlatten<K, V>(keys: seq<K>, items: map<K, seq<V>>, keys2: seq<K>, items2: map<K, seq<V>>, key: K)
    requires Distinct(keys) && forall k :: k in items <==> k in keys
    requires key in items
    requires var i := IndexOf(keys, key); keys2 == keys[..i] + keys[i + 1..] && items2 == items - {key}
    ensures forall k :: k in keys2 ==> k in items2
    ensures Flatten(keys2, items2) == WithoutKey(Flatten(keys, items), key)
    ensures |Flatten(keys2, items2)| == |Flatten(keys, items)| - |items[key]|
  {
    var i := IndexOf(keys, key);
    FlattenSplit(keys, items, i);
    FlattenRemove(keys, items, i);
    WithoutKeyBlock(keys, items, i);
  }

  /** Filtering key i out of the enumeration leaves the blocks before and after it. */
  lemma {:induction false} WithoutKeyBlock<K, V>(keys: seq<K>, items: map<K, seq<V>>, i: nat)
    requires Distinct(keys) && forall k :: k in keys ==> k in items
    requires i < |keys|
    ensures WithoutKey(Flatten(keys, items), keys[i]) == Flatten(keys[..i], items) + Flatten(keys[i + 1..], items)
  {
    DistinctSplit(keys, i);
    var key := keys[i];
    FlattenSplit(keys, items, i);
    WithoutKeyPairsOf(key, items[key], key);
    WithoutAbsentKey(keys[..i], items, key);
    WithoutAbsentKey(keys[i + 1..], items, key);
    WithoutKeyMiddle(Flatten(keys[..i], items), PairsOf(key, items[key]), Flatten(keys[i + 1..], items), key);
  }

  lemma {:induction false} WithoutKeyMiddle<K, V>(a: seq<(K, V)>, p: seq<(K, V)>, b: seq<(K, V)>, k: K)
    requires WithoutKey(a, k) == a && WithoutKey(p, k) == [] && WithoutKey(b, k) == b
    ensures WithoutKey(a + p + b, k) == a + b
  {
    WithoutKeyAppend(a + p, b, k);
    WithoutKeyAppend(a, p, k);
    calc {
      WithoutKey(a + p + b, k);
      WithoutKey(a + p, k) + WithoutKey(b, k);
      WithoutKey(a, k) + WithoutKey(p, k) + WithoutKey(b, k);
      a + [] + b;
    }
    assert a + [] + b == a + b;
  }

  class MultiMap<K(==,!new), V(==)> {
    /** The backing Dictionary<K, List<V>>. */
    var dict: Dict<K, seq<V>>
    /** Count: the running number of (key, value) pairs. */
    var Count: int

    /** No key is kept with an empty list, and Count is the number of pairs enumerated. */
    ghost predicate Valid()
      reads this
    {
      && dict.Valid()
      && (forall k :: k in dict.items ==> dict.items[k] != [])
      && Count == |Flatten(dict.keys, dict.items)|
    }

    constructor ()
      ensures Valid() && dict == EmptyDict() && Count == 0
    {
      dict := EmptyDict();
      Count := 0;
    }

    /** GetEnumerator: each key in order, each followed through its list. */
    function Pairs(): (r: seq<(K, V)>)
      reads this
      requires Valid()
      ensures |r| == Count
    {
      Flatten(dict.keys, dict.items)
    }

    /** A pair is enumerated exactly when it has been added and not removed. */
    lemma PairsMember(k: K, v: V)
      requires Valid()
      ensures (k, v) in Pairs() <==> k in dict.items && v in dict.items[k]
    {
      FlattenMember(dict.keys, dict.items, k, v);
    }

    /** Add(key, value): appends to the key's list, creating it for a new key. */
    method Add(key: K, value: V)
      requires Valid()
      modifies this
      ensures Valid()
      ensures key in old(dict.items) ==> dict.items == old(dict.items)[key := old(dict.items)[key] + [value]]
      ensures key !in old(dict.items) ==> dict.items == old(dict.items)[key := [value]]
      ensures dict.keys == if key in old(dict.items) then old(dict.keys) else old(dict.keys) + [key]
      ensures Count == old(Count) + 1
      ensures key !in old(dict.items) ==> Pairs() == old(Pairs()) + [(key, value)]
    {
      ghost var keys0, items0 := dict.keys, dict.items;
      if key in dict.items {
        dict := dict.Set(key, dict.items[key] + [value]);
        AddToExistingKey(keys0, items0, dict.keys, dict.items, key, value);
      } else {
        dict := dict.Set(key, [value]);
        AddNewKey(keys0, items0, dict.keys, dict.items, key, value);
      }
      Count := Count + 1;
    }

    /** Add(KeyValuePair): the same as Add(key, value). */
    method AddPair(item: (K, V))
      requires Valid()
      modifies this
      ensures Valid()
      ensures item.0 in old(dict.items) ==> dict.items == old(dict.items)[item.0 := old(dict.items)[item.0] + [item.1]]
      ensures item.0 !in old(dict.items) ==> dict.items == old(dict.items)[item.0 := [item.1]]
      ensures dict.keys == if item.0 in old(dict.items) then old(dict.keys) else old(dict.keys) + [item.0]
      ensures Count == old(Count) + 1
      ensures item.0 !in old(dict.items) ==> Pairs() == old(Pairs()) + [item]
    {
      Add(item.0, item.1);
    }

    /** The indexer's setter `m[key] = value`: adds, it never replaces. */
    method SetItem(key: K, value: V)
      requires Valid()
      modifies this
      ensures Valid()
      ensures key in old(dict.items) ==> dict.items == old(dict.items)[key := old(dict.items)[key] + [value]]
      ensures key !in old(dict.items) ==> dict.items == old(dict.items)[key := [value]]
      ensures dict.keys == if key in old(dict.items) then old(dict.keys) else old(dict.keys) + [key]
      ensures Count == old(Count) + 1
      ensures key !in old(dict.items) ==> Pairs() == old(Pairs()) + [(key, value)]
    {
      Add(key, value);
    }

    /** Clear: no keys and no pairs left. */
    method Clear()
      requires Valid()
      modifies this
      ensures Valid()
      ensures dict.items == map[] && Count == 0 && Pairs() == []
    {
      dict := EmptyDict();
      Count := 0;
    }

    /** Contains(KeyValuePair): the pair is enumerated, that is, the value is in the key's list. */
    method Contains(item: (K, V)) returns (b: bool)
      requires Valid()
      ensures b <==> item in Pairs()
      ensures b <==> item.0 in dict.items && item.1 in dict.items[item.0]
    {
      var pairs := Pairs();
      var matches := (pair: (K, V)) => pair.0 == item.0 && pair.1 == item.1;
      b := EnumerableExt.Some(pairs, matches);
      PairsMember(item.0, item.1);
      if item in pairs {
        var i :| 0 <= i < |pairs| && pairs[i] == item;
        assert matches(pairs[i]);
      }
    }

    /** Contains(key): some enumerated pair has this key; since no list is empty, exactly the stored keys. */
    method ContainsPairWithKey(key: K) returns (b: bool)
      requires Valid()
      ensures b <==> exists v :: (key, v) in Pairs()
      ensures b <==> key in dict.items
    {
      var pairs := Pairs();
      var matches := (pair: (K, V)) => pair.0 == key;
      b := EnumerableExt.Some(pairs, matches);
      if b {
        var i :| 0 <= i < |pairs| && matches(pairs[i]);
        assert (key, pairs[i].1) == pairs[i];
        PairsMember(key, pairs[i].1);
      }
      if key in dict.items {
        var v := dict.items[key][0];
        PairsMember(key, v);
        var i :| 0 <= i < |pairs| && pairs[i] == (key, v);
        assert matches(pairs[i]);
      }
    }

    /** Contains(value): the value is in some key's list. */
    method ContainsValue(value: V) returns (b: bool)
      requires Valid()
      ensures b <==> exists k :: (k, value) in Pairs()
      ensures b <==> exists k :: k in dict.items && value in dict.items[k]
    {
      var pairs := Pairs();
      var matches := (pair: (K, V)) => pair.1 == value;
      b := EnumerableExt.Some(pairs, matches);
      if b {
        var i :| 0 <= i < |pairs| && matches(pairs[i]);
        assert (pairs[i].0, value) == pairs[i];
        PairsMember(pairs[i].0, value);
      }
      if exists k :: k in dict.items && value in dict.items[k] {
        var k :| k in dict.items && value in dict.items[k];
        PairsMember(k, value);
        var i :| 0 <= i < |pairs| && pairs[i] == (k, value);
        assert matches(pairs[i]);
      }
    }

    /**
     * CopyTo: null array, negative index and too little room are refused
     * with the matching exception and no write; otherwise the pairs are
     * written, in enumeration order, from arrayIndex on.
     */
    method CopyTo(a: array?<(K, V)>, arrayIndex: int) returns (error: Option<Exception>)
      requires Valid()
      modifies a
      ensures a == null ==> error == Some(ArgumentNullException)
      ensures a != null && arrayIndex < 0 ==> error == Some(ArgumentOutOfRangeException)
      ensures a != null && arrayIndex >= 0 && a.Length - arrayIndex < Count ==> error == Some(ArgumentException)
      ensures a != null && error.Some? ==> a[..] == old(a[..])
      ensures error.None? <==> a != null && 0 <= arrayIndex && arrayIndex + Count <= a.Length
      ensures error.None? ==> forall m :: 0 <= m < a.Length ==>
                a[m] == if arrayIndex <= m < arrayIndex + Count then Pairs()[m - arrayIndex] else old(a[m])
    {
      if a == null {
        return Some(ArgumentNullException);
      }
      if arrayIndex < 0 {
        return Some(ArgumentOutOfRangeException);
      }
      if a.Length - arrayIndex < Count {
        return Some(ArgumentException);
      }
      var pairs := Pairs();
      var i := arrayIndex;
      var n := 0;
      while n < |pairs|
        invariant 0 <= n <= |pairs| && i == arrayIndex + n
        invariant forall m :: 0 <= m < a.Length ==>
                    a[m] == if arrayIndex <= m < i then pairs[m - arrayIndex] else old(a[m])
      {
        a[i] := pairs[n];
        i := i + 1;
        n := n + 1;
      }
      return None;
    }

    /**
     * Remove(KeyValuePair): false and no change unless the value is in the
     * key's list; otherwise its first occurrence goes, the key with it when
     * the list empties, and Count drops by one.
     */
    method Remove(item: (K, V)) returns (removed: bool)
      requires Valid()
      modifies this
      ensures Valid()
      ensures removed <==> item.0 in old(dict.items) && item.1 in old(dict.items)[item.0]
      ensures !removed ==> dict == old(dict) && Count == old(Count)
      ensures removed ==> Count == old(Count) - 1
      ensures removed ==> var l := RemoveFirst(old(dict.items)[item.0], item.1);
                dict == if l == [] then old(dict).Remove(item.0) else old(dict).Set(item.0, l)
    {
      var (key, value) := item;
      if key !in dict.items {
        return false;
      }
      if value !in dict.items[key] {
        return false;
      }
      ghost var keys0, items0 := dict.keys, dict.items;
      var l := RemoveFirst(dict.items[key], value);
      if l == [] {
        dict := dict.Remove(key);
        RemoveLastValue(keys0, items0, dict.keys, dict.items, key, value);
      } else {
        dict := dict.Set(key, l);
        RemoveFromLongerList(keys0, items0, dict.keys, dict.items, key, value);
      }
      Count := Count - 1;
      return true;
    }

    /** Remove(key): drops the key and all its values; Count drops by their number. */
    method RemoveKey(key: K) returns (removed: bool)
      requires Valid()
      modifies this
      ensures Valid()
      ensures removed <==> key in old(dict.items)
      ensures !removed ==> dict == old(dict) && Count == old(Count)
      ensures removed ==> dict == old(dict).Remove(key)
      ensures dict.items == old(dict.items) - {key}
      ensures removed ==> Count == old(Count) - |old(dict.items)[key]|
      ensures Pairs() == WithoutKey(old(Pairs()), key)
    {
      if key !in dict.items {
        WithoutAbsentKey(dict.keys, dict.items, key);
        return false;
      }
      var keySize := |dict.items[key]|;
      ghost var keys0, items0 := dict.keys, dict.items;
      dict := dict.Remove(key);
      RemoveKeyFlatten(keys0, items0, dict.keys, dict.items, key);
      Count := Count - keySize;
      return true;
    }

    /** Remove(key, value): Remove(KeyValuePair) with the result dropped. */
    method RemoveKeyValue(key: K, value: V)
      requires Valid()
      modifies this
      ensures Valid()
      ensures !(key in old(dict.items) && value in old(dict.items)[key]) ==> dict == old(dict) && Count == old(Count)
      ensures key in old(dict.items) && value in old(dict.items)[key] ==> Count == old(Count) - 1
      ensures key in old(dict.items) && value in old(dict.items)[key] ==>
                var l := RemoveFirst(old(dict.items)[key], value);
                dict == if l == [] then old(dict).Remove(key) else old(dict).Set(key, l)
    {
      var _ := Remove((key, value));
    }

    /** ContainsKey: the key has a list, so it is enumerated with at least one value. */
    function ContainsKey(key: K): (b: bool)
      reads this
      requires Valid()
      ensures b <==> ValuesWithKey(Pairs(), key) != []
    {
      FlattenValuesWithKey(dict.keys, dict.items, key);
      key in dict.items
    }

    /** TryGetValue: the key's first value, or `dflt` and false for an absent key. */
    method TryGetValue(key: K, dflt: V) returns (found: bool, value: V)
      requires Valid()
      ensures found <==> key in dict.items
      ensures found ==> var vs := ValuesWithKey(Pairs(), key); vs != [] && value == vs[0]
      ensures !found ==> value == dflt
    {
      FlattenValuesWithKey(dict.keys, dict.items, key);
      if key in dict.items {
        if |dict.items[key]| >= 1 {
          return true, dict.items[key][0];
        }
      }
      return false, dflt;
    }

    /** The indexer's getter `m[key]`: the key's first value, KeyNotFoundException for an absent key. */
    function Item(key: K): (r: Result<V, Exception>)
      reads this
      requires Valid()
      ensures r.Failure? <==> key !in dict.items
      ensures r.Failure? ==> r.error == KeyNotFoundException
      ensures r.Success? ==> var vs := ValuesWithKey(Pairs(), key); vs != [] && r.value == vs[0]
    {
      FlattenValuesWithKey(dict.keys, dict.items, key);
      if key in dict.items then Success(dict.items[key][0]) else Failure(KeyNotFoundException)
    }

    /** Keys: every stored key once, in enumeration order. */
    method Keys() returns (result: seq<K>)
      requires Valid()
      ensures result == dict.keys
      ensures Distinct(result)
      ensures forall k :: k in result <==> k in dict.items
      ensures forall k :: k in result <==> ValuesWithKey(Pairs(), k) != []
    {
      result := [];
      var i := 0;
      while i < |dict.keys|
        invariant 0 <= i <= |dict.keys| && result == dict.keys[..i]
      {
        result := result + [dict.keys[i]];
        i := i + 1;
      }
      assert dict.keys[..i] == dict.keys;
      forall k {
        FlattenValuesWithKey(dict.keys, dict.items, k);
      }
    }

    /** Values: the value of every enumerated pair, in enumeration order. */
    method Values() returns (result: seq<V>)
      requires Valid()
      ensures |result| == Count
      ensures forall i :: 0 <= i < |result| ==> result[i] == Pairs()[i].1
      ensures forall v :: v in result <==> exists k :: k in dict.items && v in dict.items[k]
    {
      var pairs := Pairs();
      result := [];
      var i := 0;
      while i < |pairs|
        invariant 0 <= i <= |pairs| && |result| == i
        invariant forall n :: 0 <= n < i ==> result[n] == pairs[n].1
      {
        result := result + [pairs[i].1];
        i := i + 1;
      }
      forall v | v in result
        ensures exists k :: k in dict.items && v in dict.items[k]
      {
        var n :| 0 <= n < |result| && result[n] == v;
        assert pairs[n] == (pairs[n].0, v);
        PairsMember(pairs[n].0, v);
      }
      forall v | exists k :: k in dict.items && v in dict.items[k]
        ensures v in result
      {
        var k :| k in dict.items && v in dict.items[k];
        PairsMember(k, v);
        var n :| 0 <= n < |pairs| && pairs[n] == (k, v);
        assert result[n] == v;
      }
    }

    /** GetKeyValues: a copy of the key's values, empty for an absent key. */
    function GetKeyValues(key: K): (r: seq<V>)
      reads this
      requires Valid()
      ensures r == ValuesWithKey(Pairs(), key)
      ensures key !in dict.items ==> r == []
    {
      FlattenValuesWithKey(dict.keys, dict.items, key);
      if key in dict.items then dict.items[key] else []
    }

    /** GetValues: the key's own list, or null for an absent key. */
    function GetValues(key: K): (r: Option<seq<V>>)
      reads this
      requires Valid()
      ensures r.None? <==> key !in dict.items
      ensures r.Some? ==> r.value != [] && r.value == ValuesWithKey(Pairs(), key)
    {
      FlattenValuesWithKey(dict.keys, dict.items, key);
      if key in dict.items then Some(dict.items[key]) else None
    }
  }
}
