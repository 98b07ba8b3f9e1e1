/**
 * The scenarios of CXLightTests/DataStructures/MultiMap/MultiMapTest.cs,
 * each as a method whose postcondition is what the scenario checks.
 */
module MultiMapTests {
  import opened Wrappers
  import opened MultiMaps

  /** { {"coso", 1}, {"coso", 2}, {"coso", 3} } */
  method ThreeUnderOneKey() returns (m: MultiMap<string, int>)
    ensures fresh(m) && m.Valid()
    ensures m.dict.keys == ["coso"] && m.dict.items == map["coso" := [1, 2, 3]]
    ensures m.Count == 3
  {
    m := new MultiMap<string, int>();
    m.Add("coso", 1);
    assert m.dict.items == map["coso" := [1]];
    m.Add("coso", 2);
    assert m.dict.items == map["coso" := [1] + [2]];
    m.Add("coso", 3);
    assert [1] + [2] + [3] == [1, 2, 3];
  }

  /** TestEnumerating: the three pairs come out in the order they were added. */
  method Enumerating() returns (pairs: seq<(string, int)>)
    ensures pairs == [("coso", 1), ("coso", 2), ("coso", 3)]
  {
    var m := ThreeUnderOneKey();
    pairs := m.Pairs();
    assert Flatten(["coso"], m.dict.items) == Flatten([], m.dict.items) + PairsOf("coso", [1, 2, 3]);
  }

  /** TestClear and TestContains. */
  method ClearAndContains() returns (count: int, has1: bool, has5: bool, emptyHas1: bool)
    ensures count == 0 && has1 && !has5 && !emptyHas1
  {
    var m := ThreeUnderOneKey();
    has1 := m.Contains(("coso", 1));
    has5 := m.Contains(("coso", 5));
    var e := new MultiMap<string, int>();
    emptyHas1 := e.Contains(("coso", 1));
    m.Clear();
    count := m.Count;
  }

  /** The four CopyTo scenarios: in full, too little room, null array, negative index. */
  method CopyToScenarios() returns (full: seq<(string, int)>, partial: Option<Exception>, nullArray: Option<Exception>, negative: Option<Exception>)
    ensures full == [("coso", 1), ("coso", 2), ("coso", 3)]
    ensures partial == Some(ArgumentException)
    ensures nullArray == Some(ArgumentNullException)
    ensures negative == Some(ArgumentOutOfRangeException)
  {
    var m := ThreeUnderOneKey();
    var pairs := m.Pairs();
    assert Flatten(["coso"], m.dict.items) == Flatten([], m.dict.items) + PairsOf("coso", [1, 2, 3]);
    var a := new (string, int)[3](_ => ("", 0));
    var e := m.CopyTo(a, 0);
    assert pairs == [("coso", 1), ("coso", 2), ("coso", 3)];
    assert a[0] == pairs[0] && a[1] == pairs[1] && a[2] == pairs[2];
    full := a[..];
    partial := m.CopyTo(a, 2);
    nullArray := m.CopyTo(null, 2);
    negative := m.CopyTo(a, -1);
  }

  /** TestRemoveByKeyValuePair. */
  method RemoveByPair() returns (removed1: bool, count: int, removed5: bool, removedOtherKey: bool)
    ensures removed1 && count == 2 && !removed5 && !removedOtherKey
  {
    var m := ThreeUnderOneKey();
    removed1 := m.Remove(("coso", 1));
    count := m.Count;
    removed5 := m.Remove(("coso", 5));
    removedOtherKey := m.Remove(("cosos", 2));
  }

  /** TestContainsKey and TestRemove. */
  method RemoveByKey() returns (has: bool, removed: bool, count: int, removed2: bool, count2: int)
    ensures has && removed && count == 0 && removed2 && count2 == 1
  {
    var m := ThreeUnderOneKey();
    has := m.ContainsKey("coso");
    removed := m.RemoveKey("coso");
    count := m.Count;
    var m2 := ThreeUnderOneKey();
    m2.Add("cosa", 5);
    removed2 := m2.RemoveKey("coso");
    count2 := m2.Count;
  }

  /** TestTryGetValue and TestIndexical. */
  method LookUps() returns (didIt: bool, result: int, didnt: bool, result2: int, first: Result<int, Exception>, count: int)
    ensures didIt && result == 1 && !didnt && result2 == 0
    ensures first == Success(1) && count == 4
  {
    var m := ThreeUnderOneKey();
    didIt, result := m.TryGetValue("coso", 0);
    didnt, result2 := m.TryGetValue("cosa", 0);
    first := m.Item("coso");
    m.SetItem("coso", 4);
    count := m.Count;
  }
}
