/** Extension methods over two-element tuples (CXLight/Exts/TupleExt.cs). */
module TupleExt {

  /** Map(fnA, fnB): each component through its own function. */
  function Map<T1, T2, TA, TB>(source: (T1, T2), fnA: T1 -> TA, fnB: T2 -> TB): (r: (TA, TB))
    ensures r.0 == fnA(source.0)
    ensures r.1 == fnB(source.1)
  {
    (fnA(source.0), fnB(source.1))
  }

  /** Map(fn) on a homogeneous pair: both components through the same function. */
  function MapBoth<T1, TA>(source: (T1, T1), fn: T1 -> TA): (r: (TA, TA))
    ensures r == Map(source, fn, fn)
  {
    (fn(source.0), fn(source.1))
  }
}
