/**
 * The two framework containers the extension methods work on, modelled by
 * their contents: System.Collections.Generic.List (a sequence, appended to
 * in place) and System.Collections.Generic.Dictionary (a key -> value map
 * whose enumeration follows key insertion order).
 */
module Collections {

  predicate Distinct<T(==)>(s: seq<T>)
  {
    forall i, j :: 0 <= i < j < |s| ==> s[i] != s[j]
  }

  /** A List<T> object: the caller's list that Fill appends to. */
  class List<T> {
    var Elements: seq<T>

    constructor (elements: seq<T>)
      ensures Elements == elements
    {
      Elements := elements;
    }

    /** List.Add: appends at the end. */
    method Add(x: T)
      modifies this
      ensures Elements == old(Elements) + [x]
    {
      Elements := Elements + [x];
    }
  }

  /**
   * A Dictionary<K, V> as a value: `keys` is the enumeration order (a key
   * keeps the place where it was first inserted) and `items` the mapping.
   */
  datatype Dict<K(==,!new), V> = Dict(keys: seq<K>, items: map<K, V>) {

    ghost predicate Valid()
    {
      Distinct(keys) && forall k :: k in items <==> k in keys
    }

    /** The (key, value) pairs in enumeration order. */
    function Entries(): (r: seq<(K, V)>)
      requires Valid()
      ensures |r| == |keys|
      ensures forall i :: 0 <= i < |r| ==> r[i] == (keys[i], items[keys[i]])
    {
      seq(|keys|, i requires 0 <= i < |keys| => (keys[i], items[keys[i]]))
    }

    /** The indexer setter `d[k] = v`: overwrites in place or appends a new key. */
    function Set(k: K, v: V): (r: Dict<K, V>)
      requires Valid()
      ensures r.Valid()
      ensures r.items == items[k := v]
      ensures k in items ==> r.keys == keys
      ensures k !in items ==> r.keys == keys + [k]
    {
      if k in items then Dict(keys, items[k := v]) else Dict(keys + [k], items[k := v])
    }

    /** Dictionary.Remove: drops the key and its place in the order. */
    function Remove(k: K): (r: Dict<K, V>)
      requires Valid()
      ensures r.Valid()
      ensures r.items == items - {k}
      ensures k !in items ==> r == this
      ensures k in items ==> var i := IndexOf(keys, k); r.keys == keys[..i] + keys[i + 1..]
    {
      if k in items then
        var i := IndexOf(keys, k);
        Dict(keys[..i] + keys[i + 1..], items - {k})
      else this
    }
  }

  function EmptyDict<K(==,!new), V>(): (r: Dict<K, V>)
    ensures r.Valid() && r.items == map[] && r.keys == []
  {
    Dict([], map[])
  }

  /** The position of an element known to occur in `s`. */
  function IndexOf<T(==)>(s: seq<T>, x: T): (i: nat)
    requires x in s
    ensures i < |s| && s[i] == x && x !in s[..i]
  {
    if s[0] == x then 0
    else
      assert x in s[1..];
      1 + IndexOf(s[1..], x)
  }

  /** A Dictionary<K, V> object: the caller's dictionary that TryRemoveKey changes. */
  class Dictionary<K(==,!new), V> {
    var Contents: Dict<K, V>

    constructor (contents: Dict<K, V>)
      ensures Contents == contents
    {
      Contents := contents;
    }

    function ContainsKey(key: K): (r: bool)
      reads this
      ensures r <==> key in Contents.items
    {
      key in Contents.items
    }

    /** Dictionary.Remove(key): true and the key gone if it was there, false otherwise. */
    method Remove(key: K) returns (removed: bool)
      requires Contents.Valid()
      modifies this
      ensures removed <==> key in old(Contents.items)
      ensures Contents == old(Contents).Remove(key)
    {
      removed := key in Contents.items;
      Contents := Contents.Remove(key);
    }
  }
}
