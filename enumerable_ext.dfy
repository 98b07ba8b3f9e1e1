/**
 * Extension methods over IEnumerable (CXLight/Exts/EnumerableExt.cs).
 * An enumerable is modelled by the finite sequence it yields; the lazy
 * `yield` generators Filter and Map become functions on that sequence.
 */
module EnumerableExt {

  /** Some: scans in order and stops at the first element the predicate accepts. */
  method Some<T>(source: seq<T>, pred: T -> bool) returns (found: bool)
    ensures found <==> exists i :: 0 <= i < |source| && pred(source[i])
  {
    for i := 0 to |source|
      invariant forall j :: 0 <= j < i ==> !pred(source[j])
    {
      if pred(source[i]) {
        return true;
      }
    }
    return false;
  }

  /** Filter: exactly the elements the predicate accepts, in source order. */
  function Filter<T>(source: seq<T>, pred: T -> bool): (r: seq<T>)
    ensures |r| <= |source|
    ensures forall x :: x in r ==> x in source && pred(x)
    ensures forall i :: 0 <= i < |source| && pred(source[i]) ==> source[i] in r
  {
    if source == [] then []
    else
      var rest := Filter(source[1..], pred);
      assert source == [source[0]] + source[1..];
      if pred(source[0]) then [source[0]] + rest else rest
  }

  /** Filtering a concatenation filters each part and keeps them in order. */
  lemma {:induction false} FilterAppend<T>(a: seq<T>, b: seq<T>, pred: T -> bool)
    ensures Filter(a + b, pred) == Filter(a, pred) + Filter(b, pred)
  {
    if a == [] {
      assert a + b == b;
    } else {
      assert (a + b)[1..] == a[1..] + b;
      FilterAppend(a[1..], b, pred);
    }
  }

  /** Filter only drops elements: each occurs in the result at most as often as in the source. */
  lemma {:induction false} FilterSubMultiset<T>(source: seq<T>, pred: T -> bool)
    ensures multiset(Filter(source, pred)) <= multiset(source)
  {
    if source != [] {
      FilterSubMultiset(source[1..], pred);
      assert source == [source[0]] + source[1..];
    }
  }

  /** Filtering one more element adds it at the end exactly when it is accepted. */
  lemma FilterSnoc<T>(source: seq<T>, x: T, pred: T -> bool)
    ensures Filter(source + [x], pred) == Filter(source, pred) + (if pred(x) then [x] else [])
  {
    FilterAppend(source, [x], pred);
    assert [x][1..] == [];
  }

  /** Filter keeps the whole source exactly when the predicate holds everywhere. */
  lemma {:induction false} FilterKeepsAllIff<T>(source: seq<T>, pred: T -> bool)
    ensures Filter(source, pred) == source <==> forall i :: 0 <= i < |source| ==> pred(source[i])
  {
    if source != [] {
      FilterKeepsAllIff(source[1..], pred);
      if !pred(source[0]) {
        assert |Filter(source, pred)| < |source|;
      }
    }
  }

  /** Filter yields something exactly when Some finds a match. */
  lemma {:induction false} FilterNonEmptyIff<T>(source: seq<T>, pred: T -> bool)
    ensures Filter(source, pred) != [] <==> exists i :: 0 <= i < |source| && pred(source[i])
  {
    if source != [] {
      FilterNonEmptyIff(source[1..], pred);
      if !pred(source[0]) {
        assert forall i :: 1 <= i < |source| ==> source[i] == source[1..][i - 1];
      }
    }
  }

  /** Filtering twice with the same predicate changes nothing. */
  lemma {:induction false} FilterIdempotent<T>(source: seq<T>, pred: T -> bool)
    ensures Filter(Filter(source, pred), pred) == Filter(source, pred)
  {
    FilterKeepsAllIff(Filter(source, pred), pred);
  }

  /** Map: one `mapper(x)` per element, same length, same order. */
  function Map<T, U>(source: seq<T>, mapper: T -> U): (r: seq<U>)
    ensures |r| == |source|
    ensures forall i :: 0 <= i < |source| ==> r[i] == mapper(source[i])
  {
    if source == [] then [] else [mapper(source[0])] + Map(source[1..], mapper)
  }

  /**
   * The fold that FoldL computes: fn(x_n, ... fn(x_2, fn(x_1, start))),
   * the element first and the running value second.
   */
  function FoldLeft<T, A>(source: seq<T>, start: A, fn: (T, A) -> A): A
  {
    if source == [] then start else FoldLeft(source[1..], fn(source[0], start), fn)
  }

  /** Folding one more element applies fn to it and the fold so far. */
  lemma {:induction false} FoldLeftSnoc<T, A>(source: seq<T>, x: T, start: A, fn: (T, A) -> A)
    ensures FoldLeft(source + [x], start, fn) == fn(x, FoldLeft(source, start, fn))
  {
    if source != [] {
      assert (source + [x])[1..] == source[1..] + [x];
      FoldLeftSnoc(source[1..], x, fn(source[0], start), fn);
    }
  }

  /** FoldL: the cursor starts at `start` and becomes fn(item, cursor) for each item. */
  method FoldL<T, A>(source: seq<T>, start: A, fn: (T, A) -> A) returns (cursor: A)
    ensures cursor == FoldLeft(source, start, fn)
  {
    cursor := start;
    for i := 0 to |source|
      invariant cursor == FoldLeft(source[..i], start, fn)
    {
      FoldLeftSnoc(source[..i], source[i], start, fn);
      assert source[..i + 1] == source[..i] + [source[i]];
      cursor := fn(source[i], cursor);
    }
    assert source[..|source|] == source;
  }

  /** The elements of `s` from last to first. */
  function Reversed<T>(s: seq<T>): (r: seq<T>)
    ensures |r| == |s|
    ensures forall k :: 0 <= k < |s| ==> r[k] == s[|s| - 1 - k]
  {
    if s == [] then [] else Reversed(s[1..]) + [s[0]]
  }

  /**
   * The argument order made visible: folding with "put the element in front
   * of the accumulator" reverses the source.
   */
  lemma {:induction false} FoldLeftConsReverses<T>(source: seq<T>, acc: seq<T>)
    ensures FoldLeft(source, acc, (x: T, a: seq<T>) => [x] + a) == Reversed(source) + acc
  {
    if source != [] {
      FoldLeftConsReverses(source[1..], [source[0]] + acc);
    }
  }
}
