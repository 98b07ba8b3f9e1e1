/**
 * Extension methods over List (CXLight/Exts/ListExt.cs). Each is a loop over
 * an index; the lists they read are modelled by their contents and the new
 * lists they build are returned as sequences.
 */
module ListExt {
  import opened Collections
  import EnumerableExt

  function Lower(a: int, b: int): int { if a <= b then a else b }

  function Upper(a: int, b: int): int { if a <= b then b else a }

  /** fn(lo), fn(lo + 1), ..., fn(hi - 1). */
  function Range<T>(fn: int -> T, lo: int, hi: int): (r: seq<T>)
    requires lo <= hi
    ensures |r| == hi - lo
    ensures forall j :: 0 <= j < |r| ==> r[j] == fn(lo + j)
    decreases hi - lo
  {
    if lo == hi then [] else [fn(lo)] + Range(fn, lo + 1, hi)
  }

  /**
   * Fill without a counter: appends fn(i) to the caller's list for i from
   * the smaller bound up to, not including, the larger one, and returns
   * that same list.
   */
  method Fill<T>(source: List<T>, fn: int -> T, from: int, to: int) returns (r: List<T>)
    modifies source
    ensures r == source
    ensures source.Elements == old(source.Elements) + Range(fn, Lower(from, to), Upper(from, to))
  {
    var i, stop := from, to;
    if from > to {
      i, stop := to, from;
    }
    ghost var lo := i;
    while i < stop
      invariant lo <= i <= stop
      invariant source.Elements == old(source.Elements) + Range(fn, lo, i)
    {
      assert Range(fn, lo, i + 1) == Range(fn, lo, i) + [fn(i)];
      source.Add(fn(i));
      i := i + 1;
    }
    return source;
  }

  /** Every: false at the first element the predicate rejects, true otherwise. */
  method Every<T>(source: seq<T>, pred: T -> bool) returns (r: bool)
    ensures r <==> forall i :: 0 <= i < |source| ==> pred(source[i])
  {
    var i := 0;
    while i < |source|
      invariant 0 <= i <= |source|
      invariant forall j :: 0 <= j < i ==> pred(source[j])
    {
      if !pred(source[i]) {
        return false;
      }
      i := i + 1;
    }
    return true;
  }

  /** Filter(predicate): a new list of the accepted elements, in order. */
  method Filter<T>(source: seq<T>, pred: T -> bool) returns (result: seq<T>)
    ensures result == EnumerableExt.Filter(source, pred)
  {
    result := [];
    var i := 0;
    while i < |source|
      invariant 0 <= i <= |source|
      invariant result == EnumerableExt.Filter(source[..i], pred)
    {
      assert source[..i + 1] == source[..i] + [source[i]];
      EnumerableExt.FilterSnoc(source[..i], source[i], pred);
      if pred(source[i]) {
        result := result + [source[i]];
      }
      i := i + 1;
    }
    assert source[..i] == source;
  }

  /**
   * Filter(sampleSize): Filter with a predicate that counts its own calls
   * (`i++ < sampleSize`); `calls` is that captured counter.
   */
  method FilterSample<T>(source: seq<T>, sampleSize: int) returns (result: seq<T>)
    ensures result == source[..Lower(Upper(sampleSize, 0), |source|)]
  {
    var calls := 0;
    result := [];
    var i := 0;
    while i < |source|
      invariant 0 <= i <= |source| && calls == i
      invariant result == source[..Lower(Upper(sampleSize, 0), i)]
    {
      var accepted := calls < sampleSize;
      calls := calls + 1;
      if accepted {
        result := result + [source[i]];
      }
      i := i + 1;
    }
  }

  /** The source without positions s .. e - 1. */
  function WithoutInterval<T>(source: seq<T>, s: int, e: int): (r: seq<T>)
    requires 0 <= s <= e <= |source|
    ensures |r| == |source| - (e - s)
    ensures forall j :: 0 <= j < s ==> r[j] == source[j]
    ensures forall j :: s <= j < |r| ==> r[j] == source[j + (e - s)]
  {
    source[..s] + source[e..]
  }

  /** The source with `values` spliced in before position `at`. */
  function InsertedAt<T>(source: seq<T>, values: seq<T>, at: int): (r: seq<T>)
    requires 0 <= at <= |source|
    ensures |r| == |source| + |values|
    ensures forall j :: 0 <= j < at ==> r[j] == source[j]
    ensures forall j :: 0 <= j < |values| ==> r[at + j] == values[j]
    ensures forall j :: at <= j < |source| ==> r[j + |values|] == source[j]
  {
    source[..at] + values + source[at..]
  }

  /**
   * RemoveInterval: with start > end, the source itself; otherwise end is
   * clamped to Count and start to 0 and the interval [start, end) is left
   * out of a new list. A start still above Count, or a negative end, makes
   * the copying loops index out of range: callers must not pass them.
   */
  method RemoveInterval<T>(source: seq<T>, start: int, end: int) returns (result: seq<T>)
    requires start > end || (start <= |source| && 0 <= end)
    ensures start > end ==> result == source
    ensures start <= end ==> result == WithoutInterval(source, Upper(start, 0), Lower(end, |source|))
  {
    if start > end {
      return source;
    }
    var s, e := start, end;
    if e > |source| {
      e := |source|;
    }
    if s < 0 {
      s := 0;
    }
    result := [];
    var i := 0;
    while i < s
      invariant 0 <= i <= s
      invariant result == source[..i]
    {
      result := result + [source[i]];
      i := i + 1;
    }
    i := e;
    while i < |source|
      invariant e <= i <= |source|
      invariant result == source[..s] + source[e..i]
    {
      result := result + [source[i]];
      i := i + 1;
    }
  }

  /**
   * InsertInterval: `at` is clamped into [0, Count] and a new list holds
   * the source's head, then `values`, then the source's tail.
   */
  method InsertInterval<T>(source: seq<T>, values: seq<T>, at: int) returns (result: seq<T>)
    ensures result == InsertedAt(source, values, Upper(Lower(at, |source|), 0))
  {
    var a := at;
    if a > |source| {
      a := |source|;
    } else if a < 0 {
      a := 0;
    }
    result := [];
    var i := 0;
    while i < a
      invariant 0 <= i <= a
      invariant result == source[..i]
    {
      result := result + [source[i]];
      i := i + 1;
    }
    var t := i;
    i := 0;
    while i < |values|
      invariant 0 <= i <= |values|
      invariant result == source[..a] + values[..i]
    {
      result := result + [values[i]];
      i := i + 1;
    }
    i := t;
    while i < |source|
      invariant a <= i <= |source|
      invariant result == source[..a] + values + source[a..i]
    {
      result := result + [source[i]];
      i := i + 1;
    }
  }

  /** Removing an interval and inserting it back at the same place restores the list. */
  lemma RemoveThenInsertRestores<T>(source: seq<T>, s: int, e: int)
    requires 0 <= s <= e <= |source|
    ensures InsertedAt(WithoutInterval(source, s, e), source[s..e], s) == source
  {
    assert source == source[..s] + source[s..e] + source[e..];
  }

  /** Inserting values and removing the interval they occupy restores the list. */
  lemma InsertThenRemoveRestores<T>(source: seq<T>, values: seq<T>, at: int)
    requires 0 <= at <= |source|
    ensures WithoutInterval(InsertedAt(source, values, at), at, at + |values|) == source
  {
    var ins := InsertedAt(source, values, at);
    assert ins[..at] == source[..at];
    assert ins[at + |values|..] == source[at..];
  }

  // ---------------------------------------------------------------------
  // Sum over List<long>: C#'s unchecked 64-bit addition wraps around.

  newtype int64 = x: int | -0x8000_0000_0000_0000 <= x < 0x8000_0000_0000_0000

  const Two64: int := 0x1_0000_0000_0000_0000

  /** The 64-bit two's-complement value congruent to x modulo 2^64. */
  function Wrap64(x: int): (r: int64)
    ensures (r as int - x) % Two64 == 0
    ensures -0x8000_0000_0000_0000 <= x < 0x8000_0000_0000_0000 ==> r as int == x
  {
    ((x + 0x8000_0000_0000_0000) % Two64 - 0x8000_0000_0000_0000) as int64
  }

  /** The exact mathematical sum. */
  function SumOf(s: seq<int64>): int
  {
    if s == [] then 0 else s[0] as int + SumOf(s[1..])
  }

  lemma {:induction false} SumOfSnoc(s: seq<int64>, x: int64)
    ensures SumOf(s + [x]) == SumOf(s) + x as int
  {
    if s != [] {
      assert (s + [x])[1..] == s[1..] + [x];
      SumOfSnoc(s[1..], x);
    }
  }

  /** Wrapping the running total after every step gives the wrapped exact total. */
  lemma WrapAdd(a: int, b: int)
    ensures Wrap64(Wrap64(a) as int + b) == Wrap64(a + b)
  {
    var w := Wrap64(a) as int;
    var q := (w - a) / Two64;
    assert w == a + q * Two64;
    assert (w + b + 0x8000_0000_0000_0000) % Two64 == (a + b + 0x8000_0000_0000_0000) % Two64 by {
      ModShift(a + b + 0x8000_0000_0000_0000, q);
    }
  }

  lemma ModShift(x: int, q: int)
    ensures (x + q * Two64) % Two64 == x % Two64
  {
  }

  /** Sum: the 64-bit wrapped total; the exact total whenever that fits in a long. */
  method Sum(source: seq<int64>) returns (result: int64)
    ensures result == Wrap64(SumOf(source))
    ensures -0x8000_0000_0000_0000 <= SumOf(source) < 0x8000_0000_0000_0000 ==> result as int == SumOf(source)
  {
    result := 0;
    var i := 0;
    while i < |source|
      invariant 0 <= i <= |source|
      invariant result == Wrap64(SumOf(source[..i]))
    {
      assert source[..i + 1] == source[..i] + [source[i]];
      SumOfSnoc(source[..i], source[i]);
      WrapAdd(SumOf(source[..i]), source[i] as int);
      result := Wrap64(result as int + source[i] as int);
      i := i + 1;
    }
    assert source[..i] == source;
  }

  // ---------------------------------------------------------------------
  // Min with a caller-supplied "a is smaller than b" test.

  /** The test is transitive and irreflexive on the list's elements. */
  ghost predicate StrictOrderOn<T>(values: seq<T>, less: (T, T) -> bool)
  {
    && (forall i :: 0 <= i < |values| ==> !less(values[i], values[i]))
    && (forall i, j, k ::
          (0 <= i < |values| && 0 <= j < |values| && 0 <= k < |values| &&
           less(values[i], values[j]) && less(values[j], values[k]))
          ==> less(values[i], values[k]))
  }

  /** ... and moreover any two different elements are comparable. */
  ghost predicate StrictTotalOrderOn<T>(values: seq<T>, less: (T, T) -> bool)
  {
    && StrictOrderOn(values, less)
    && (forall i, j :: 0 <= i < |values| && 0 <= j < |values| && values[i] != values[j] ==>
          less(values[i], values[j]) || less(values[j], values[i]))
  }

  /**
   * Min: the running minimum starts at values[0] and is replaced by
   * values[i] only when isASmallerThanB(values[i], minimum). An empty list
   * makes values[0] index out of range: callers must not pass one.
   */
  method Min<T(==)>(values: seq<T>, isASmallerThanB: (T, T) -> bool) returns (minValue: T)
    requires |values| > 0
    ensures exists k ::
              && 0 <= k < |values| && values[k] == minValue
              && (forall j :: k < j < |values| ==> !isASmallerThanB(values[j], minValue))
              && (StrictTotalOrderOn(values, isASmallerThanB) ==>
                    forall j :: 0 <= j < k ==> isASmallerThanB(minValue, values[j]))
    ensures StrictOrderOn(values, isASmallerThanB) ==>
      forall j :: 0 <= j < |values| ==> !isASmallerThanB(values[j], minValue)
  {
    minValue := values[0];
    ghost var k := 0;
    var i := 1;
    while i < |values|
      invariant 1 <= i <= |values|
      invariant 0 <= k < i && values[k] == minValue
      invariant forall j :: k < j < i ==> !isASmallerThanB(values[j], minValue)
      invariant StrictTotalOrderOn(values, isASmallerThanB) ==>
        forall j :: 0 <= j < k ==> isASmallerThanB(minValue, values[j])
      invariant StrictOrderOn(values, isASmallerThanB) ==>
        forall j :: 0 <= j < i ==> !isASmallerThanB(values[j], minValue)
    {
      if isASmallerThanB(values[i], minValue) {
        minValue := values[i];
        k := i;
      }
      i := i + 1;
    }
  }
}
