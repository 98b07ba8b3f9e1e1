/**
 * Extension methods over Dictionary (CXLight/Exts/DictionaryExt.cs).
 * Invert and the three Map overloads enumerate the source and assign
 * `result[key'] = value'` into a fresh dictionary; Collect is that
 * sequence of assignments as a function, so where two entries produce
 * the same new key the later one wins.
 */
module DictionaryExt {
  import opened Collections
  import EnumerableExt

  /** GetValueOrDefault: the stored value when the key is present, defaultValue otherwise. */
  function GetValueOrDefault<K, V>(source: map<K, V>, key: K, defaultValue: V): (r: V)
    ensures key in source ==> r == source[key]
    ensures key !in source ==> r == defaultValue
  {
    if key in source then source[key] else defaultValue
  }

  /**
   * Starting from an empty dictionary, `result[f(e).0] = f(e).1` for each
   * entry e in order.
   */
  function Collect<K, V, K2(==,!new), V2>(entries: seq<(K, V)>, f: ((K, V)) -> (K2, V2)): (r: Dict<K2, V2>)
    ensures r.Valid()
  {
    if entries == [] then EmptyDict()
    else
      var last := f(entries[|entries| - 1]);
      Collect(entries[..|entries| - 1], f).Set(last.0, last.1)
  }

  /** A key is in the result exactly when some entry produces it. */
  lemma {:induction false} CollectKeys<K, V, K2(!new), V2>(entries: seq<(K, V)>, f: ((K, V)) -> (K2, V2), k2: K2)
    ensures k2 in Collect(entries, f).items <==> exists i :: 0 <= i < |entries| && f(entries[i]).0 == k2
  {
    if entries != [] {
      var n := |entries| - 1;
      CollectKeys(entries[..n], f, k2);
      if exists i :: 0 <= i < |entries| && f(entries[i]).0 == k2 {
        var i :| 0 <= i < |entries| && f(entries[i]).0 == k2;
        if i < n {
          assert entries[..n][i] == entries[i];
        }
      }
    }
  }

  /** The entry that produces a key last decides that key's value. */
  lemma {:induction false} CollectLastWins<K, V, K2(!new), V2>(entries: seq<(K, V)>, f: ((K, V)) -> (K2, V2), i: int)
    requires 0 <= i < |entries|
    requires forall j :: i < j < |entries| ==> f(entries[j]).0 != f(entries[i]).0
    ensures f(entries[i]).0 in Collect(entries, f).items
    ensures Collect(entries, f).items[f(entries[i]).0] == f(entries[i]).1
  {
    var n := |entries| - 1;
    if i < n {
      var prefix := entries[..n];
      assert prefix[i] == entries[i];
      forall j | i < j < |prefix| ensures f(prefix[j]).0 != f(prefix[i]).0 {
        assert prefix[j] == entries[j];
      }
      CollectLastWins(prefix, f, i);
    }
  }

  /** When no two entries produce the same key, the result enumerates f(e) for each e, in order. */
  lemma {:induction false} CollectWithoutCollisions<K, V, K2(!new), V2>(entries: seq<(K, V)>, f: ((K, V)) -> (K2, V2))
    requires forall i, j :: 0 <= i < j < |entries| ==> f(entries[i]).0 != f(entries[j]).0
    ensures |Collect(entries, f).keys| == |entries|
    ensures forall i :: 0 <= i < |entries| ==> Collect(entries, f).keys[i] == f(entries[i]).0
  {
    if entries != [] {
      var n := |entries| - 1;
      var prefix := entries[..n];
      forall i, j | 0 <= i < j < |prefix| ensures f(prefix[i]).0 != f(prefix[j]).0 {
        assert prefix[i] == entries[i] && prefix[j] == entries[j];
      }
      CollectWithoutCollisions(prefix, f);
      CollectKeys(prefix, f, f(entries[n]).0);
      forall i | 0 <= i < n ensures Collect(entries, f).keys[i] == f(entries[i]).0 {
        assert prefix[i] == entries[i];
      }
    }
  }

  /** With no collisions every entry is the last to produce its key: the result enumerates f(e) for each e. */
  lemma CollectInjective<K, V, K2(!new), V2>(entries: seq<(K, V)>, f: ((K, V)) -> (K2, V2))
    requires forall i, j :: 0 <= i < j < |entries| ==> f(entries[i]).0 != f(entries[j]).0
    ensures Collect(entries, f).Entries() == EnumerableExt.Map(entries, f)
  {
    var r := Collect(entries, f);
    CollectWithoutCollisions(entries, f);
    forall i | 0 <= i < |entries| ensures r.Entries()[i] == f(entries[i]) {
      CollectLastWins(entries, f, i);
    }
  }

  /** Two valid dictionaries that enumerate the same pairs are equal. */
  lemma SameEntriesSameDict<K(!new), V>(a: Dict<K, V>, b: Dict<K, V>)
    requires a.Valid() && b.Valid() && a.Entries() == b.Entries()
    ensures a == b
  {
    forall i | 0 <= i < |a.keys| ensures a.keys[i] == b.keys[i] {
      assert a.Entries()[i].0 == b.Entries()[i].0;
    }
    assert a.keys == b.keys;
    forall k | k in a.items ensures a.items[k] == b.items[k] {
      var i := IndexOf(a.keys, k);
      assert a.Entries()[i].1 == b.Entries()[i].1;
    }
    assert a.items == b.items;
  }

  function Swap<K, V>(e: (K, V)): (V, K)
  {
    (e.1, e.0)
  }

  /** No two keys hold the same value. */
  ghost predicate DistinctValues<K(!new), V>(d: Dict<K, V>)
    requires d.Valid()
  {
    forall i, j :: 0 <= i < j < |d.keys| ==> d.items[d.keys[i]] != d.items[d.keys[j]]
  }

  /**
   * Invert: its keys are exactly the source's values, and a value held by
   * several keys maps to the one enumerated last.
   */
  method Invert<K(==,!new), V(==,!new)>(source: Dict<K, V>) returns (result: Dict<V, K>)
    requires source.Valid()
    ensures result == Collect(source.Entries(), Swap)
    ensures result.Valid()
    ensures forall v :: v in result.items <==> v in source.items.Values
    ensures forall i :: 0 <= i < |source.keys| &&
              (forall j :: i < j < |source.keys| ==> source.items[source.keys[j]] != source.items[source.keys[i]])
              ==> result.items[source.items[source.keys[i]]] == source.keys[i]
  {
    var entries := source.Entries();
    result := EmptyDict();
    for i := 0 to |entries|
      invariant result == Collect(entries[..i], Swap)
    {
      assert entries[..i + 1][..i] == entries[..i];
      result := result.Set(entries[i].1, entries[i].0);
    }
    assert entries[..|entries|] == entries;
    forall v ensures v in result.items <==> v in source.items.Values {
      CollectKeys(entries, Swap, v);
      if v in source.items.Values {
        var k :| k in source.items && source.items[k] == v;
        var i := IndexOf(source.keys, k);
        assert Swap(entries[i]).0 == v;
      }
    }
    forall i | 0 <= i < |source.keys| &&
               (forall j :: i < j < |source.keys| ==> source.items[source.keys[j]] != source.items[source.keys[i]])
      ensures result.items[source.items[source.keys[i]]] == source.keys[i]
    {
      CollectLastWins(entries, Swap, i);
    }
  }

  /** On a dictionary whose values are distinct, inverting twice gives the dictionary back. */
  lemma InvertTwice<K(!new), V(!new)>(source: Dict<K, V>)
    requires source.Valid() && DistinctValues(source)
    ensures Collect(Collect(source.Entries(), Swap).Entries(), Swap) == source
  {
    var entries := source.Entries();
    CollectInjective(entries, Swap);
    var swapped := EnumerableExt.Map(entries, Swap);
    CollectInjective(swapped, Swap);
    assert EnumerableExt.Map(swapped, Swap) == entries;
    SameEntriesSameDict(Collect(swapped, Swap), source);
  }

  /** Map(fn): the same keys in the same order, each value passed through fn. */
  method MapValues<K(==,!new), V, V2>(source: Dict<K, V>, fn: V -> V2) returns (result: Dict<K, V2>)
    requires source.Valid()
    ensures result.Valid()
    ensures result.keys == source.keys
    ensures forall k :: k in result.items <==> k in source.items
    ensures forall k :: k in source.items ==> result.items[k] == fn(source.items[k])
  {
    var f := (e: (K, V)) => (e.0, fn(e.1));
    var entries := source.Entries();
    result := EmptyDict();
    for i := 0 to |entries|
      invariant result == Collect(entries[..i], f)
    {
      assert entries[..i + 1][..i] == entries[..i];
      var pair := entries[i];
      result := result.Set(pair.0, fn(pair.1));
    }
    assert entries[..|entries|] == entries;
    assert forall i, j :: 0 <= i < j < |entries| ==> f(entries[i]).0 != f(entries[j]).0;
    CollectWithoutCollisions(entries, f);
    forall i | 0 <= i < |entries| ensures result.keys[i] == source.keys[i] {
      assert f(entries[i]).0 == entries[i].0;
    }
    assert result.keys == source.keys;
    forall k | k in source.items ensures result.items[k] == fn(source.items[k]) {
      CollectLastWins(entries, f, IndexOf(source.keys, k));
    }
  }

  /**
   * Map(keyFn, valueFn): result[keyFn(k)] = valueFn(v) for each entry; the
   * new keys are exactly the images of the old ones, and where keyFn
   * collides the entry enumerated last wins.
   */
  method MapKeysAndValues<K(==,!new), V, KA(==,!new), VB>(source: Dict<K, V>, keyFn: K -> KA, valueFn: V -> VB)
    returns (result: Dict<KA, VB>)
    requires source.Valid()
    ensures result.Valid()
    ensures forall a :: a in result.items <==> exists k :: k in source.items && keyFn(k) == a
    ensures forall i :: 0 <= i < |source.keys| &&
              (forall j :: i < j < |source.keys| ==> keyFn(source.keys[j]) != keyFn(source.keys[i]))
              ==> result.items[keyFn(source.keys[i])] == valueFn(source.items[source.keys[i]])
  {
    var f := (e: (K, V)) => (keyFn(e.0), valueFn(e.1));
    var entries := source.Entries();
    result := EmptyDict();
    for i := 0 to |entries|
      invariant result == Collect(entries[..i], f)
    {
      assert entries[..i + 1][..i] == entries[..i];
      var pair := entries[i];
      result := result.Set(keyFn(pair.0), valueFn(pair.1));
    }
    assert entries[..|entries|] == entries;
    forall a ensures a in result.items <==> exists k :: k in source.items && keyFn(k) == a {
      CollectKeys(entries, f, a);
      if exists k :: k in source.items && keyFn(k) == a {
        var k :| k in source.items && keyFn(k) == a;
        assert f(entries[IndexOf(source.keys, k)]).0 == a;
      }
    }
    forall i | 0 <= i < |source.keys| &&
               (forall j :: i < j < |source.keys| ==> keyFn(source.keys[j]) != keyFn(source.keys[i]))
      ensures result.items[keyFn(source.keys[i])] == valueFn(source.items[source.keys[i]])
    {
      CollectLastWins(entries, f, i);
    }
  }

  /**
   * Map(keyFn, valueFn(keyB, valueA)): as above, but each new value is
   * computed from the NEW key and the old value.
   */
  method MapKeysAndKeyedValues<K(==,!new), V, KA(==,!new), VB>(source: Dict<K, V>, keyFn: K -> KA, valueFn: (KA, V) -> VB)
    returns (result: Dict<KA, VB>)
    requires source.Valid()
    ensures result.Valid()
    ensures forall a :: a in result.items <==> exists k :: k in source.items && keyFn(k) == a
    ensures forall i :: 0 <= i < |source.keys| &&
              (forall j :: i < j < |source.keys| ==> keyFn(source.keys[j]) != keyFn(source.keys[i]))
              ==> result.items[keyFn(source.keys[i])] == valueFn(keyFn(source.keys[i]), source.items[source.keys[i]])
  {
    var f := (e: (K, V)) => (keyFn(e.0), valueFn(keyFn(e.0), e.1));
    var entries := source.Entries();
    result := EmptyDict();
    for i := 0 to |entries|
      invariant result == Collect(entries[..i], f)
    {
      assert entries[..i + 1][..i] == entries[..i];
      var pair := entries[i];
      var keyVal := keyFn(pair.0);
      result := result.Set(keyVal, valueFn(keyVal, pair.1));
    }
    assert entries[..|entries|] == entries;
    forall a ensures a in result.items <==> exists k :: k in source.items && keyFn(k) == a {
      CollectKeys(entries, f, a);
      if exists k :: k in source.items && keyFn(k) == a {
        var k :| k in source.items && keyFn(k) == a;
        assert f(entries[IndexOf(source.keys, k)]).0 == a;
      }
    }
    forall i | 0 <= i < |source.keys| &&
               (forall j :: i < j < |source.keys| ==> keyFn(source.keys[j]) != keyFn(source.keys[i]))
      ensures result.items[keyFn(source.keys[i])] == valueFn(keyFn(source.keys[i]), source.items[source.keys[i]])
    {
      CollectLastWins(entries, f, i);
    }
  }

  /**
   * TryRemoveKey: `ContainsKey(key) && Remove(key)` on the caller's
   * dictionary: false and nothing changed when the key is absent, otherwise
   * that key alone removed and true.
   */
  method TryRemoveKey<K(==,!new), V>(dictionary: Dictionary<K, V>, key: K) returns (removed: bool)
    requires dictionary.Contents.Valid()
    modifies dictionary
    ensures removed <==> key in old(dictionary.Contents.items)
    ensures !removed ==> dictionary.Contents == old(dictionary.Contents)
    ensures dictionary.Contents.Valid()
    ensures dictionary.Contents.items == old(dictionary.Contents.items) - {key}
    ensures dictionary.Contents == old(dictionary.Contents).Remove(key)
  {
    removed := dictionary.ContainsKey(key);
    if removed {
      removed := dictionary.Remove(key);
    }
  }
}
