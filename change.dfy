/**
 * Change.TupleOfListsToListOfTuples (CXLight/Kits/Change.cs): a tuple of
 * three lists becomes a list of triples, or null when the lengths are
 * rejected.
 */
module Change {
  import opened Wrappers

  /** Position-wise triples of three equally long lists. */
  function Zip3<T1, T2, T3>(l1: seq<T1>, l2: seq<T2>, l3: seq<T3>): (r: seq<(T1, T2, T3)>)
    requires |l1| == |l2| == |l3|
    ensures |r| == |l1|
    ensures forall i :: 0 <= i < |r| ==> r[i] == (l1[i], l2[i], l3[i])
  {
    if l1 == [] then [] else [(l1[0], l2[0], l3[0])] + Zip3(l1[1..], l2[1..], l3[1..])
  }

  /** The three component lists of a list of triples. */
  function Unzip3<T1, T2, T3>(ts: seq<(T1, T2, T3)>): (r: (seq<T1>, seq<T2>, seq<T3>))
    ensures |r.0| == |r.1| == |r.2| == |ts|
    ensures forall i :: 0 <= i < |ts| ==> ts[i] == (r.0[i], r.1[i], r.2[i])
  {
    if ts == [] then ([], [], [])
    else
      var rest := Unzip3(ts[1..]);
      ([ts[0].0] + rest.0, [ts[0].1] + rest.1, [ts[0].2] + rest.2)
  }

  /** Projecting the triples gives back the three lists. */
  lemma UnzipZip<T1, T2, T3>(l1: seq<T1>, l2: seq<T2>, l3: seq<T3>)
    requires |l1| == |l2| == |l3|
    ensures Unzip3(Zip3(l1, l2, l3)) == (l1, l2, l3)
  {
    var u := Unzip3(Zip3(l1, l2, l3));
    assert u.0 == l1 && u.1 == l2 && u.2 == l3;
  }

  /**
   * What the method can do as written: give null, a list, or fail on a short
   * list, where List's indexer throws ArgumentOutOfRangeException.
   */
  datatype Outcome<T> = Null | Tuples(value: seq<T>) | ArgumentOutOfRange

  /**
   * The method as written. It gives null only when |L1| != |L2| AND
   * |L2| != |L3|; otherwise it reads L1.Count triples, so a single mismatch
   * slips through and either drops the surplus of a longer list or indexes
   * past the end of a shorter one.
   */
  method TupleOfListsToListOfTuplesAsWritten<T1, T2, T3>(l1: seq<T1>, l2: seq<T2>, l3: seq<T3>)
    returns (r: Outcome<(T1, T2, T3)>)
    ensures r == Null <==> |l1| != |l2| && |l2| != |l3|
    ensures r == ArgumentOutOfRange <==> !(|l1| != |l2| && |l2| != |l3|) && (|l2| < |l1| || |l3| < |l1|)
    ensures r.Tuples? ==> |r.value| == |l1|
    ensures r.Tuples? ==> forall i :: 0 <= i < |r.value| ==> i < |l2| && i < |l3| && r.value[i] == (l1[i], l2[i], l3[i])
  {
    if |l1| != |l2| && |l2| != |l3| {
      return Null;
    }
    var result := [];
    var c := |l1|;
    var i := 0;
    while i < c
      invariant 0 <= i <= c
      invariant i <= |l2| && i <= |l3|
      invariant |result| == i && forall j :: 0 <= j < i ==> result[j] == (l1[j], l2[j], l3[j])
    {
      if i >= |l2| || i >= |l3| {
        return ArgumentOutOfRange;
      }
      result := result + [(l1[i], l2[i], l3[i])];
      i := i + 1;
    }
    return Tuples(result);
  }

  /** L1 = [a], L2 = L3 = []: only one length pair differs, so the check passes and L2[0] is read. */
  method AsWrittenFailsOnShortList<T>(a: T) returns (r: Outcome<(T, T, T)>)
    ensures r == ArgumentOutOfRange
  {
    r := TupleOfListsToListOfTuplesAsWritten([a], [], []);
  }

  /** L1 = L2 = [a], L3 = [a, a]: the check passes and L3's second element is silently dropped. */
  method AsWrittenDropsSurplus<T>(a: T) returns (r: Outcome<(T, T, T)>)
    ensures r == Tuples([(a, a, a)])
  {
    r := TupleOfListsToListOfTuplesAsWritten([a], [a], [a, a]);
  }

  /**
   * The conversion with the evidently intended check: null unless all three
   * lengths agree, otherwise the position-wise triples.
   */
  method TupleOfListsToListOfTuples<T1, T2, T3>(l1: seq<T1>, l2: seq<T2>, l3: seq<T3>)
    returns (r: Option<seq<(T1, T2, T3)>>)
    ensures r == None <==> !(|l1| == |l2| == |l3|)
    ensures r.Some? ==> r.value == Zip3(l1, l2, l3)
  {
    if |l1| != |l2| || |l2| != |l3| {
      return None;
    }
    var result := [];
    var c := |l1|;
    var i := 0;
    while i < c
      invariant 0 <= i <= c
      invariant result == Zip3(l1[..i], l2[..i], l3[..i])
    {
      assert Zip3(l1[..i + 1], l2[..i + 1], l3[..i + 1]) == Zip3(l1[..i], l2[..i], l3[..i]) + [(l1[i], l2[i], l3[i])];
      result := result + [(l1[i], l2[i], l3[i])];
      i := i + 1;
    }
    assert l1[..c] == l1 && l2[..c] == l2 && l3[..c] == l3;
    return Some(result);
  }
}
