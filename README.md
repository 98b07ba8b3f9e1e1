# CXLight core in Dafny

CXLight is a small C# utility library. This project models its sequential
core and proves properties of the model:

- **MultiMap**: a dictionary from keys to lists of values. It implements
  `IDictionary<TKey, TValue>` by enumerating one `(key, value)` pair per
  stored value, and it keeps a running `Count`.
- **MultiMapExt.GetKeysWithValue**: a reverse lookup over a MultiMap.
- **LockingQueue**: a FIFO queue whose operations each hold a lock.
- **Extension methods**:
  - `ListExt`: Fill, Every, the two Filters, RemoveInterval, InsertInterval, Sum, Min
  - `EnumerableExt`: Some, Filter, Map, FoldL
  - `DictionaryExt`: GetValueOrDefault, Invert, TryRemoveKey, the three Map overloads
  - `ByteArrayExt`: GetPosition, ToBool, ToInt32, ToUint
  - `TupleExt`: the two Maps
- **Change.TupleOfListsToListOfTuples**: a conversion from a tuple of lists
  to a list of tuples.

How the C# entities are modelled:

- **Classes updated in place** are Dafny classes with the same fields:
  - `MultiMap` has the backing dictionary and `Count`.
  - `LockingQueue` has the queue contents.
  - The caller's `List` and `Dictionary` objects, which `Fill` and
    `TryRemoveKey` change, are classes too.
- **Loops that build a new list** are methods with loop invariants. Each
  is proved against a specification function.
- **`Dictionary<K, V>`** is the value type `Collections.Dict`, a map plus
  the key enumeration order. A new key is appended; a removed key loses its
  place.
- **A `byte`** is a `bv8`.
- **A `long`** is the `int64` newtype, with C#'s unchecked wrap-around
  written out.
- **A `uint`** is a `nat` below 2^32.
- **An `int` produced by shifts** is the two's-complement value of the
  32-bit pattern.
- **Thrown exceptions and null results** are modelled as values:
  - `Option<Exception>` for `CopyTo`
  - `Result` for the indexer
  - `Option` or `Outcome` for a null return
- **Reading past the end of a list or array** is a precondition, because
  the source would crash there. The one exception is
  `Change.TupleOfListsToListOfTuplesAsWritten`. It models the out-of-range
  read as the outcome `ArgumentOutOfRange`, the exception that `List`'s
  indexer throws, because that crash is the subject
  of the finding below.
- **`default(T)`** is passed in as a parameter (`dflt`), because Dafny has no
  universal default value.

## Model

| member | source | states |
|---|---|---|
| MultiMaps.PairsOf | CXLight/DataStructures/MultiMap/MultiMap.cs:18-21 | one key's block of the enumeration: the key paired with each of its values, in list order |
| MultiMaps.FlattenAppend | CXLight/DataStructures/MultiMap/MultiMap.cs:14-23 | enumerating two runs of keys is enumerating each run in turn |
| MultiMaps.FlattenFrame | CXLight/DataStructures/MultiMap/MultiMap.cs:14-23 | the enumeration of some keys depends only on those keys' lists |
| MultiMaps.FlattenMember | CXLight/DataStructures/MultiMap/MultiMap.cs:14-23 | a pair is enumerated iff its key is stored and the value is in that key's list |
| MultiMaps.FlattenSplit | CXLight/DataStructures/MultiMap/MultiMap.cs:14-23 | the enumeration splits into the keys before i, key i's block and the keys after it |
| MultiMaps.FlattenUpdate | CXLight/DataStructures/MultiMap/MultiMap.cs:14-23 | replacing one key's list replaces exactly that key's block in the enumeration |
| MultiMaps.FlattenRemove | CXLight/DataStructures/MultiMap/MultiMap.cs:14-23 | dropping a key from the order and the map removes exactly its block |
| MultiMaps.FlattenAppendValue | CXLight/DataStructures/MultiMap/MultiMap.cs:32-35 | adding a value to key i's list inserts the pair at the end of key i's block |
| MultiMaps.FlattenAddKey | CXLight/DataStructures/MultiMap/MultiMap.cs:36-39 | a new key with its list puts that key's block at the end of the enumeration |
| MultiMaps.ValuesWithKeyAppend | CXLight/DataStructures/MultiMap/MultiMap.cs:196-205 | the values enumerated with a key split over a concatenation |
| MultiMaps.ValuesWithKeyPairsOf | CXLight/DataStructures/MultiMap/MultiMap.cs:196-205 | within one key's block the values with key k are that key's list when k is that key, and nothing otherwise |
| MultiMaps.FlattenValuesWithKey | CXLight/DataStructures/MultiMap/MultiMap.cs:196-205 | over the whole enumeration the values with a key are exactly that key's list, or none for an absent key |
| MultiMaps.RemoveFirst | CXLight/DataStructures/MultiMap/MultiMap.cs:97 | List.Remove on a list holding the value is one element shorter |
| MultiMaps.RemoveFirstMultiset | CXLight/DataStructures/MultiMap/MultiMap.cs:97 | List.Remove drops exactly one occurrence of the value |
| MultiMaps.PairsOfRemoveFirst | CXLight/DataStructures/MultiMap/MultiMap.cs:97 | removing the first copy of v from a list removes the first (key, v) pair from its block |
| MultiMaps.PrefixOfBlockMissesPair | CXLight/DataStructures/MultiMap/MultiMap.cs:97 | no copy of the pair comes before the first copy of v in its key's block |
| MultiMaps.AddFlatten | CXLight/DataStructures/MultiMap/MultiMap.cs:115-127 | Add inserts exactly one (key, value) pair into the enumeration: at the end of the key's block, or at the very end for a new key |
| MultiMaps.AddToExistingKey | CXLight/DataStructures/MultiMap/MultiMap.cs:117-120 | the stored-key case of Add: one pair inserted at the end of the key's block |
| MultiMaps.AddNewKey | CXLight/DataStructures/MultiMap/MultiMap.cs:121-124 | the new-key case of Add: one pair appended to the enumeration |
| MultiMaps.RemovePairFlatten | CXLight/DataStructures/MultiMap/MultiMap.cs:92-104 | Remove(pair) deletes exactly the first enumerated copy of the pair and nothing else |
| MultiMaps.RemoveFromLongerList | CXLight/DataStructures/MultiMap/MultiMap.cs:97 | the case where values remain under the key: the first copy of the pair is deleted |
| MultiMaps.RemoveLastValue | CXLight/DataStructures/MultiMap/MultiMap.cs:99 | the case where the list empties and the key goes: the only copy of the pair is deleted |
| MultiMaps.WithoutKeyAppend | CXLight/DataStructures/MultiMap/MultiMap.cs:129-140 | dropping a key's pairs distributes over concatenation |
| MultiMaps.WithoutKeyPairsOf | CXLight/DataStructures/MultiMap/MultiMap.cs:129-140 | dropping key k from a block removes the whole block when it is k's, and nothing otherwise |
| MultiMaps.WithoutAbsentKey | CXLight/DataStructures/MultiMap/MultiMap.cs:131 | dropping the pairs of an absent key changes nothing |
| MultiMaps.RemoveKeyFlatten | CXLight/DataStructures/MultiMap/MultiMap.cs:129-140 | Remove(key) leaves exactly the enumeration minus that key's pairs, and the length drops by the list's length |
| MultiMaps.WithoutKeyBlock | CXLight/DataStructures/MultiMap/MultiMap.cs:136 | over distinct keys, dropping key i's pairs is cutting out key i's block |
| MultiMaps.WithoutKeyMiddle | CXLight/DataStructures/MultiMap/MultiMap.cs:136 | a middle block holding only key k disappears when k's pairs are dropped and the outer parts hold none |
| MultiMaps.MultiMap.constructor | CXLight/DataStructures/MultiMap/MultiMap.cs:10 | a new MultiMap has no keys and Count 0 |
| MultiMaps.MultiMap.Pairs | CXLight/DataStructures/MultiMap/MultiMap.cs:14-23 | the enumeration has exactly Count pairs |
| MultiMaps.MultiMap.PairsMember | CXLight/DataStructures/MultiMap/MultiMap.cs:14-23 | a pair is enumerated iff its value is in its key's list |
| MultiMaps.MultiMap.Add | CXLight/DataStructures/MultiMap/MultiMap.cs:115-127 | appends the value to the key's list, or creates `[value]` with the key at the end of the order; Count + 1; the invariant (Count equals the pairs enumerated) holds |
| MultiMaps.MultiMap.AddPair | CXLight/DataStructures/MultiMap/MultiMap.cs:30-42 | the same new state as Add(key, value): the value appended to the key's list or a new list `[value]` with the key at the end of the order; Count + 1; a new key's pair is appended to the enumeration |
| MultiMaps.MultiMap.SetItem | CXLight/DataStructures/MultiMap/MultiMap.cs:162 | the indexer's setter adds the value and never replaces one: the same new lists, key order, Count + 1 and enumeration as Add |
| MultiMaps.MultiMap.Clear | CXLight/DataStructures/MultiMap/MultiMap.cs:44-48 | no keys, Count 0, nothing enumerated |
| MultiMaps.MultiMap.Contains | CXLight/DataStructures/MultiMap/MultiMap.cs:50-60 | true iff the pair is enumerated, i.e. the value is in the key's list |
| MultiMaps.MultiMap.ContainsPairWithKey | CXLight/DataStructures/MultiMap/MultiMap.cs:67-70 | true iff some enumerated pair has the key, i.e. the key is stored |
| MultiMaps.MultiMap.ContainsValue | CXLight/DataStructures/MultiMap/MultiMap.cs:77-80 | true iff some enumerated pair has the value, i.e. some key's list holds it |
| MultiMaps.MultiMap.CopyTo | CXLight/DataStructures/MultiMap/MultiMap.cs:82-90 | ArgumentNull, ArgumentOutOfRange and Argument exceptions in the source's order, with the array untouched; no error iff the array is there and has room; on success the pairs are written in order from arrayIndex and every other cell is unchanged |
| MultiMaps.MultiMap.Remove | CXLight/DataStructures/MultiMap/MultiMap.cs:92-104 | true iff the value is in the key's list; otherwise nothing changes; the first copy goes and the key goes with its emptied list; Count - 1 |
| MultiMaps.MultiMap.RemoveKey | CXLight/DataStructures/MultiMap/MultiMap.cs:129-140 | true iff the key is stored; the new dictionary is the old one with that key and its place in the key order removed, and nothing changes otherwise; Count drops by its list's length; the enumeration loses exactly that key's pairs |
| MultiMaps.MultiMap.RemoveKeyValue | CXLight/DataStructures/MultiMap/MultiMap.cs:191-194 | Remove(pair) with the answer dropped: unchanged unless the value is in the key's list; otherwise the first copy goes, the key goes with its emptied list, and Count - 1 |
| MultiMaps.MultiMap.ContainsKey | CXLight/DataStructures/MultiMap/MultiMap.cs:110-113 | true iff some value is enumerated with the key |
| MultiMaps.MultiMap.TryGetValue | CXLight/DataStructures/MultiMap/MultiMap.cs:142-155 | found iff the key is stored; then the first value enumerated with it, otherwise the default |
| MultiMaps.MultiMap.Item | CXLight/DataStructures/MultiMap/MultiMap.cs:161 | the first value enumerated with the key; KeyNotFoundException iff the key is absent |
| MultiMaps.MultiMap.Keys | CXLight/DataStructures/MultiMap/MultiMap.cs:165-175 | every stored key once, in enumeration order; a key is listed iff some value is enumerated with it |
| MultiMaps.MultiMap.Values | CXLight/DataStructures/MultiMap/MultiMap.cs:177-187 | the value of each enumerated pair, position by position; a value is listed iff some key's list holds it |
| MultiMaps.MultiMap.GetKeyValues | CXLight/DataStructures/MultiMap/MultiMap.cs:196-205 | the values enumerated with the key; empty for an absent key |
| MultiMaps.MultiMap.GetValues | CXLight/DataStructures/MultiMap/MultiMap.cs:212-215 | null iff the key is absent; otherwise the key's non-empty list, the values enumerated with it |
| MultiMapExt.KeysWithValueAppend | CXLight/DataStructures/MultiMap/Exts/MultiMapExt.cs:11-12 | the keys found over a concatenation are the keys found in each part |
| MultiMapExt.KeysWithValuePairsOf | CXLight/DataStructures/MultiMap/Exts/MultiMapExt.cs:11-12 | within one key's block that key is found once per copy of the value |
| MultiMapExt.FlattenKeysWithValue | CXLight/DataStructures/MultiMap/Exts/MultiMapExt.cs:11-12 | over the whole enumeration each key is found once per copy of the value in its list |
| MultiMapExt.GetKeysWithValue | CXLight/DataStructures/MultiMap/Exts/MultiMapExt.cs:7-15 | the key of each enumerated pair holding the value, in order; each key once per copy in its list; a key is listed iff its list holds the value |
| MultiMapTests.ThreeUnderOneKey | CXLightTests/DataStructures/MultiMap/MultiMapTest.cs:12-17 | three Adds under one key give one key with list [1, 2, 3] and Count 3 |
| MultiMapTests.Enumerating | CXLightTests/DataStructures/MultiMap/MultiMapTest.cs:28-47 | the pairs are enumerated in the order they were added |
| MultiMapTests.ClearAndContains | CXLightTests/DataStructures/MultiMap/MultiMapTest.cs:50-66 | Contains finds ("coso", 1) but not ("coso", 5) nor anything in an empty map; Clear leaves Count 0 |
| MultiMapTests.CopyToScenarios | CXLightTests/DataStructures/MultiMap/MultiMapTest.cs:69-117 | copying in full writes the three pairs in order; too little room, a null array and a negative index raise the expected exceptions |
| MultiMapTests.RemoveByPair | CXLightTests/DataStructures/MultiMap/MultiMapTest.cs:120-128 | removing a present pair succeeds and leaves Count 2; an absent value or key fails |
| MultiMapTests.RemoveByKey | CXLightTests/DataStructures/MultiMap/MultiMapTest.cs:131-150 | ContainsKey finds the key; removing it leaves Count 0, or 1 when another key holds one value |
| MultiMapTests.LookUps | CXLightTests/DataStructures/MultiMap/MultiMapTest.cs:153-178 | TryGetValue gives the first value or fails with the default; the indexer reads the first value; its setter adds |
| LockingQueue.Step | CXLight/DataStructures/LockingQueue/LockingQueue.cs:10-21 | Enqueue appends; Dequeue on a non-empty queue hands out the head and keeps the rest; on an empty one it hands out nothing and changes nothing |
| LockingQueue.RunIsFifo | CXLight/DataStructures/LockingQueue/LockingQueue.cs:10-21 | over any sequence of calls, the elements handed out followed by those left are the initial contents followed by those put in |
| LockingQueue.RunConserves | CXLight/DataStructures/LockingQueue/LockingQueue.cs:10-21 | no element is lost or invented: equal lengths and multisets |
| LockingQueue.LockingQueue.constructor | CXLight/DataStructures/LockingQueue/LockingQueue.cs:7 | a new queue is empty |
| LockingQueue.LockingQueue.Dequeue | CXLight/DataStructures/LockingQueue/LockingQueue.cs:10-16 | the new contents and the element handed out are Step's for a Dequeue; the default when empty |
| LockingQueue.LockingQueue.Enqueue | CXLight/DataStructures/LockingQueue/LockingQueue.cs:18-21 | the new contents are Step's for an Enqueue: the element is at the tail |
| LockingQueue.LockingQueue.Count | CXLight/DataStructures/LockingQueue/LockingQueue.cs:23-32 | the number of queued elements |
| LockingQueue.LockingQueue.IsEmpty | CXLight/DataStructures/LockingQueue/LockingQueue.cs:34-43 | true iff nothing is queued |
| LockingQueue.FifoOrder | CXLight/DataStructures/LockingQueue/LockingQueue.cs:10-21 | two enqueued elements come out in order, then the default |
| ListExt.Range | CXLight/Exts/ListExt.cs:31-35 | the elements fn(lo) up to fn(hi - 1), one per integer |
| ListExt.Fill | CXLight/Exts/ListExt.cs:19-47 | the caller's list itself is returned, extended by fn(i) for i from the smaller bound up to, not including, the larger |
| ListExt.Every | CXLight/Exts/ListExt.cs:77-87 | true iff the predicate holds on every element |
| ListExt.Filter | CXLight/Exts/ListExt.cs:96-107 | the accepted elements in order, the same as EnumerableExt.Filter |
| ListExt.FilterSample | CXLight/Exts/ListExt.cs:116-120 | the first max(sampleSize, 0) elements, or the whole list when it is shorter |
| ListExt.WithoutInterval | CXLight/Exts/ListExt.cs:165-181 | the list without positions s to e - 1: the head unchanged, the tail shifted down by e - s |
| ListExt.InsertedAt | CXLight/Exts/ListExt.cs:193-217 | the values placed at position `at`, the head unchanged and the tail shifted up by their number |
| ListExt.RemoveInterval | CXLight/Exts/ListExt.cs:159-182 | the source itself when start > end; otherwise the interval between start clamped to 0 and end clamped to Count is left out |
| ListExt.InsertInterval | CXLight/Exts/ListExt.cs:184-218 | `at` is clamped into [0, Count] and the values are spliced in there |
| ListExt.RemoveThenInsertRestores | CXLight/Exts/ListExt.cs:159-218 | removing an interval and inserting it back at the same place gives the list back |
| ListExt.InsertThenRemoveRestores | CXLight/Exts/ListExt.cs:159-218 | inserting values and removing the interval they occupy gives the list back |
| ListExt.Wrap64 | CXLight/Exts/ListExt.cs:235 | the long congruent to x modulo 2^64, and x itself when x fits |
| ListExt.SumOfSnoc | CXLight/Exts/ListExt.cs:233-237 | the exact sum grows by each element added |
| ListExt.WrapAdd | CXLight/Exts/ListExt.cs:235 | wrapping after every addition gives the wrapped exact total |
| ListExt.Sum | CXLight/Exts/ListExt.cs:229-240 | the exact sum wrapped to 64 bits, and the exact sum whenever it fits in a long |
| ListExt.Min | CXLight/Exts/ListExt.cs:291-305 | an element of the list that no later element is smaller than; for a strict order no element is smaller; for a strict total order it is the first minimal element |
| EnumerableExt.Some | CXLight/Exts/EnumerableExt.cs:8-14 | true iff some element satisfies the predicate |
| EnumerableExt.Filter | CXLight/Exts/EnumerableExt.cs:25-29 | no longer than the source; every element is accepted and from the source; every accepted element is kept |
| EnumerableExt.FilterAppend | CXLight/Exts/EnumerableExt.cs:25-29 | filtering a concatenation is concatenating the filtered parts, in order |
| EnumerableExt.FilterSubMultiset | CXLight/Exts/EnumerableExt.cs:25-29 | filtering only drops elements, counted with multiplicity |
| EnumerableExt.FilterSnoc | CXLight/Exts/EnumerableExt.cs:25-29 | one more element is kept at the end iff it is accepted |
| EnumerableExt.FilterKeepsAllIff | CXLight/Exts/EnumerableExt.cs:25-29 | the result is the whole source iff every element is accepted |
| EnumerableExt.FilterNonEmptyIff | CXLight/Exts/EnumerableExt.cs:8-29 | Filter yields something iff Some finds an element |
| EnumerableExt.FilterIdempotent | CXLight/Exts/EnumerableExt.cs:25-29 | filtering twice equals filtering once |
| EnumerableExt.Map | CXLight/Exts/EnumerableExt.cs:40-44 | same length; element i is the mapper applied to source element i |
| EnumerableExt.FoldLeftSnoc | CXLight/Exts/EnumerableExt.cs:63-70 | folding one more element applies fn to it and the fold so far |
| EnumerableExt.FoldL | CXLight/Exts/EnumerableExt.cs:63-70 | the cursor ends as the left fold fn(x_n, ... fn(x_1, start)) |
| EnumerableExt.Reversed | CXLight/Exts/EnumerableExt.cs:63-70 | same length; position k holds the element at position length - 1 - k |
| EnumerableExt.FoldLeftConsReverses | CXLight/Exts/EnumerableExt.cs:63-70 | fn takes the element first: folding with "prepend" reverses the source |
| Collections.List.constructor | CXLight/Exts/ListExt.cs:19 | a list object holding the given elements |
| Collections.List.Add | CXLight/Exts/ListExt.cs:33 | List.Add appends at the end |
| Collections.Dict.Entries | CXLight/Exts/DictionaryExt.cs:37 | one (key, value) pair per key, in enumeration order |
| Collections.Dict.Set | CXLight/Exts/DictionaryExt.cs:38 | the indexer setter overwrites a stored key in place or appends a new key |
| Collections.Dict.Remove | CXLight/Exts/DictionaryExt.cs:45 | Dictionary.Remove drops the key and its place in the order; nothing changes for an absent key |
| Collections.EmptyDict | CXLight/Exts/DictionaryExt.cs:35 | a new dictionary is empty |
| Collections.IndexOf | CXLight/Exts/DictionaryExt.cs:45 | the first position of an element that occurs |
| Collections.Dictionary.constructor | CXLight/Exts/DictionaryExt.cs:43 | a dictionary object holding the given contents |
| Collections.Dictionary.ContainsKey | CXLight/Exts/DictionaryExt.cs:45 | true iff the key is stored |
| Collections.Dictionary.Remove | CXLight/Exts/DictionaryExt.cs:45 | true iff the key was stored, and the key is removed |
| DictionaryExt.GetValueOrDefault | CXLight/Exts/DictionaryExt.cs:17-24 | the stored value for a present key, defaultValue otherwise |
| DictionaryExt.Collect | CXLight/Exts/DictionaryExt.cs:35-40 | assigning entries one by one into a new dictionary gives a valid dictionary |
| DictionaryExt.CollectKeys | CXLight/Exts/DictionaryExt.cs:35-40 | a key is in the result iff some entry produces it |
| DictionaryExt.CollectLastWins | CXLight/Exts/DictionaryExt.cs:35-40 | the entry that produces a key last decides that key's value |
| DictionaryExt.CollectWithoutCollisions | CXLight/Exts/DictionaryExt.cs:35-40 | with no colliding keys the result's order is the entries' order |
| DictionaryExt.CollectInjective | CXLight/Exts/DictionaryExt.cs:35-40 | with no colliding keys the result enumerates f(e) for each entry e, in order |
| DictionaryExt.SameEntriesSameDict | CXLight/Exts/DictionaryExt.cs:33-41 | two dictionaries that enumerate the same pairs are equal |
| DictionaryExt.Invert | CXLight/Exts/DictionaryExt.cs:33-41 | the new keys are exactly the old values; a value held by several keys maps to the key enumerated last |
| DictionaryExt.InvertTwice | CXLight/Exts/DictionaryExt.cs:33-41 | when no two keys share a value, inverting twice gives the dictionary back |
| DictionaryExt.MapValues | CXLight/Exts/DictionaryExt.cs:57-66 | the same keys in the same order, each value passed through fn |
| DictionaryExt.MapKeysAndValues | CXLight/Exts/DictionaryExt.cs:79-88 | the new keys are exactly the images of the old keys; each gets valueFn of the value of the last old key mapping to it |
| DictionaryExt.MapKeysAndKeyedValues | CXLight/Exts/DictionaryExt.cs:101-111 | as above, with each new value computed from the new key and the old value |
| DictionaryExt.TryRemoveKey | CXLight/Exts/DictionaryExt.cs:43-46 | true iff the key was stored; that key alone is removed; nothing changes otherwise |
| ByteArrayExt.GetPosition | CXLight/Exts/ByteArrayExt.cs:7-17 | the first index whose byte the predicate accepts, or -1 when none does |
| ByteArrayExt.ToBool | CXLight/Exts/ByteArrayExt.cs:19-22 | true iff the byte is not zero |
| ByteArrayExt.Unsigned | CXLight/Exts/ByteArrayExt.cs:38-44 | the value of a 32-bit pattern is below 2^32 |
| ByteArrayExt.Signed | CXLight/Exts/ByteArrayExt.cs:24-30 | the two's-complement reading is an int32, congruent to the unsigned value modulo 2^32, and negative iff the pattern is 2^31 or more |
| ByteArrayExt.BigEndianBytes | CXLight/Exts/ByteArrayExt.cs:26-29 | each byte can be read back from its place in the big-endian pattern |
| ByteArrayExt.BigEndianValue | CXLight/Exts/ByteArrayExt.cs:26-29 | the big-endian pattern's value is b0·2^24 + b1·2^16 + b2·2^8 + b3 |
| ByteArrayExt.ByteOrdersMirror | CXLight/Exts/ByteArrayExt.cs:26-43 | the little-endian pattern of four bytes is the big-endian pattern of the same bytes reversed |
| ByteArrayExt.ToInt32 | CXLight/Exts/ByteArrayExt.cs:24-30 | the four bytes from start read big-endian as a signed int: the weighted sum, minus 2^32 iff the first byte is 0x80 or more, which is exactly when the result is negative |
| ByteArrayExt.ToUint | CXLight/Exts/ByteArrayExt.cs:38-44 | the four bytes from position read little-endian as an unsigned value below 2^32 |
| ByteArrayExt.ReversedReadsAgree | CXLight/Exts/ByteArrayExt.cs:24-44 | ToUint on four bytes reversed gives the same 32-bit value as ToInt32 on them, modulo 2^32 |
| ByteArrayExt.ZeroWordIffNoTrueByte | CXLight/Exts/ByteArrayExt.cs:19-44 | ToUint is 0 iff none of the four bytes reads as true |
| TupleExt.Map | CXLight/Exts/TupleExt.cs:17-20 | each component is passed through its own function |
| TupleExt.MapBoth | CXLight/Exts/TupleExt.cs:30-33 | the homogeneous Map is the two-function Map with the same function twice |
| Change.Zip3 | CXLight/Kits/Change.cs:18-22 | same length as the lists; triple i holds element i of each list |
| Change.Unzip3 | CXLight/Kits/Change.cs:11 | the three component lists of a list of triples |
| Change.UnzipZip | CXLight/Kits/Change.cs:11-25 | projecting the triples gives back the three lists |
| Change.TupleOfListsToListOfTuplesAsWritten | CXLight/Kits/Change.cs:11-25 | null iff both length pairs (1,2) and (2,3) differ; otherwise ArgumentOutOfRange iff list 2 or 3 is shorter than list 1; otherwise list-1-many position-wise triples |
| Change.AsWrittenFailsOnShortList | CXLight/Kits/Change.cs:13 | lists [a], [], [] pass the check and the read fails |
| Change.AsWrittenDropsSurplus | CXLight/Kits/Change.cs:13 | lists [a], [a], [a, a] pass the check and the second list-3 element is dropped |
| Change.TupleOfListsToListOfTuples | CXLight/Kits/Change.cs:11-25 | null iff the three lengths are not all equal; otherwise the position-wise triples |

Proof helpers without a row state facts about sequences or arithmetic, not
about the source: `MultiMaps.SpliceIn`, `MultiMaps.SpliceOut`,
`MultiMaps.SpliceOutBlock`, `MultiMaps.CutOne`, `MultiMaps.DistinctSplit`
and `ListExt.ModShift`.

## Left out

- Locks and threads: LockingQueue's lock only serialises calls, so each
  call is modelled as one atomic step. The worker pool and its threading
  are not part of this model.
- The Shady unions, the float and double operations, randomness, I/O and
  Walk are not part of this model. The floating-point operations are:
  - `Avg` and `Max` in ListExt
  - `ToFloat` in ByteArrayExt
  - the time and size conversions in Change

  The random operations are `FillRandom` and `PickRandom*`. The `Walk`
  methods only run a callback for its side effects.
- ListExt.Fill: the optional `counter` argument is left out; the model is
  Fill called with `counter` null. With a counter, the loop terminates only
  if the counter makes progress, which the source does not require.
- .NET `Dictionary` enumeration order is unspecified. After a removal,
  .NET may reuse a freed slot for a new key. The model enumerates keys in
  insertion order, with removed keys dropped. This applies to
  `Collections.Dict`, the `DictionaryExt` operations and MultiMap.
- MultiMaps.MultiMap.Contains: the source's `pair.Value != null` test is
  left out, because the model has no null values.
- MultiMaps.MultiMap.ContainsValue: the same null test is left out.
- The model has no null keys or values, so the ArgumentNullException that
  .NET's Dictionary throws on a null key is not captured. This affects:
  - DictionaryExt.Invert, when a source value is null
  - DictionaryExt.MapKeysAndValues and DictionaryExt.MapKeysAndKeyedValues,
    when `keyFn` returns null
  - DictionaryExt.GetValueOrDefault and DictionaryExt.TryRemoveKey, on a
    null key
  - MultiMaps.MultiMap.Add and the other MultiMap operations, on a null key
- MultiMapExt.GetKeysWithValue: the source calls `Value.Equals(value)` on
  each stored value, which throws NullReferenceException when a stored value
  is null. The model has no null values, so it does not capture that throw.
- MultiMaps.MultiMap.GetValues returns the key's list as a value. In the
  source the caller gets the live list, and changes through it would alter
  the MultiMap without updating Count.
- The same applies to ListExt.RemoveInterval: with start > end it returns
  the caller's own list object. The model returns its contents.
- MultiMaps.MultiMap.Count is an unbounded integer. Overflow of the 32-bit
  `Count` after 2^31 additions is not modelled.
- MultiMap.IsReadOnly is left out: it is a property that is never assigned.
- The non-generic `GetEnumerator` is left out: it only forwards to the
  generic one.
- ListExt.FilterSample: the captured `int` counter is unbounded. Its 32-bit
  wrap-around after 2^31 elements is not modelled.
- Index-out-of-range crashes are preconditions. These are:
  - ListExt.Min on an empty list
  - ListExt.RemoveInterval with start > Count or a negative end
  - ByteArrayExt.ToInt32 and ByteArrayExt.ToUint with fewer than four bytes
  - ByteArrayExt.ToBool outside the array
- `default(T)` cannot be written generically in Dafny. LockingQueue.Dequeue
  and MultiMap.TryGetValue take it as a parameter.
- EnumerableExt.Filter and EnumerableExt.Map are lazy `yield` generators.
  They are modelled by the finite sequence they yield.

## Findings

| source | as written | input that shows it | evidently intended | confidence | as-written member | corrected member |
|---|---|---|---|---|---|---|
| CXLight/Kits/Change.cs:13 | returns null only when `Count1 != Count2 && Count2 != Count3`, then reads Count1 triples | ([a], [], []) passes the check and reading the second list's element 0 throws; ([a], [a], [a, a]) passes and drops the third list's surplus | null unless all three counts are equal (`\|\|`) | not executed | Change.TupleOfListsToListOfTuplesAsWritten | Change.TupleOfListsToListOfTuples |
