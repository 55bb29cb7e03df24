/** A map from each item's key to the item, built in list order, that
    refuses a second item with a key already present. Registries of
    pluggable classes build one when they are first asked for. */
module UniqueKeys {
  import opened Wrappers

  /** Two items under one key: the one already in the map and the one
      that was being added. */
  datatype Clash<T> = Clash(key: string, existing: T, incoming: T)

  /** Items are added in order; the first item whose key is taken makes the
      whole build fail with that key. */
  function UniqueKeyMap<T>(items: seq<T>, key: T -> string): (r: Result<map<string, T>, Clash<T>>)
  {
    if items == [] then Ok(map[])
    else
      match UniqueKeyMap(items[..|items| - 1], key)
      case Err(c) => Err(c)
      case Ok(m) =>
        var last := items[|items| - 1];
        if key(last) in m then Err(Clash(key(last), m[key(last)], last)) else Ok(m[key(last) := last])
  }

  predicate DistinctKeys<T>(items: seq<T>, key: T -> string) {
    forall i, j :: 0 <= i < j < |items| ==> key(items[i]) != key(items[j])
  }

  /** The build succeeds exactly when the keys are distinct. */
  lemma {:induction false} OkIffDistinct<T>(items: seq<T>, key: T -> string)
    ensures UniqueKeyMap(items, key).Ok? <==> DistinctKeys(items, key)
    ensures UniqueKeyMap(items, key).Ok? ==> forall i :: 0 <= i < |items| ==> key(items[i]) in UniqueKeyMap(items, key).value
  {
    if items != [] {
      var init := items[..|items| - 1];
      var n := |items| - 1;
      OkIffDistinct(init, key);
      assert forall i :: 0 <= i < n ==> init[i] == items[i];
      if UniqueKeyMap(init, key).Ok? {
        var m := UniqueKeyMap(init, key).value;
        KeysComeFromItems(init, key);
        if key(items[n]) in m {
          var i :| 0 <= i < n && key(init[i]) == key(items[n]);
          assert key(items[i]) == key(items[n]);
        }
      }
    }
  }

  /** Every key in a built map is the key of some item. */
  lemma {:induction false} KeysComeFromItems<T>(items: seq<T>, key: T -> string)
    ensures UniqueKeyMap(items, key).Ok? ==>
      forall k :: k in UniqueKeyMap(items, key).value ==> exists i :: 0 <= i < |items| && key(items[i]) == k
  {
    if items != [] {
      var init := items[..|items| - 1];
      var n := |items| - 1;
      KeysComeFromItems(init, key);
      if UniqueKeyMap(items, key).Ok? {
        var m' := UniqueKeyMap(items, key).value;
        forall k | k in m'
          ensures exists i :: 0 <= i < |items| && key(items[i]) == k
        {
          if k == key(items[n]) {
            assert key(items[n]) == k;
          } else {
            assert UniqueKeyMap(init, key).Ok? && k in UniqueKeyMap(init, key).value;
            var i :| 0 <= i < |init| && key(init[i]) == k;
            assert items[i] == init[i];
          }
        }
      }
    }
  }

  /** A successful build holds every item under its own key and has one
      entry per item. */
  lemma {:induction false} OkHoldsEveryItem<T>(items: seq<T>, key: T -> string)
    requires UniqueKeyMap(items, key).Ok?
    ensures |UniqueKeyMap(items, key).value| == |items|
    ensures forall i :: 0 <= i < |items| ==>
      key(items[i]) in UniqueKeyMap(items, key).value && UniqueKeyMap(items, key).value[key(items[i])] == items[i]
  {
    if items != [] {
      var init := items[..|items| - 1];
      var n := |items| - 1;
      OkHoldsEveryItem(init, key);
      var m := UniqueKeyMap(init, key).value;
      assert key(items[n]) !in m;
      assert |m[key(items[n]) := items[n]]| == |m| + 1;
      forall i | 0 <= i < n
        ensures key(items[i]) != key(items[n])
      {
        assert items[i] == init[i];
      }
    }
  }

  /** A failed build reports a key that two items share: the earlier one,
      which was in the map, and the later one. */
  lemma {:induction false} ErrNamesSharedKey<T>(items: seq<T>, key: T -> string)
    requires UniqueKeyMap(items, key).Err?
    ensures exists i, j :: 0 <= i < j < |items| && ClashAt(items, key, UniqueKeyMap(items, key).error, i, j)
  {
    var init := items[..|items| - 1];
    var n := |items| - 1;
    assert forall i :: 0 <= i < n ==> init[i] == items[i];
    if UniqueKeyMap(init, key).Err? {
      ErrNamesSharedKey(init, key);
      var i, j :| 0 <= i < j < |init| && ClashAt(init, key, UniqueKeyMap(init, key).error, i, j);
      assert ClashAt(items, key, UniqueKeyMap(items, key).error, i, j);
    } else {
      var m := UniqueKeyMap(init, key).value;
      KeysComeFromItems(init, key);
      OkHoldsEveryItem(init, key);
      var i :| 0 <= i < |init| && key(init[i]) == key(items[n]);
      assert m[key(items[n])] == items[i];
      assert ClashAt(items, key, UniqueKeyMap(items, key).error, i, n);
    }
  }

  /** Clash c is items i and j, under their common key. */
  ghost predicate ClashAt<T>(items: seq<T>, key: T -> string, c: Clash<T>, i: int, j: int) {
    0 <= i < |items| && 0 <= j < |items| &&
    c.existing == items[i] && c.incoming == items[j] && key(items[i]) == c.key && key(items[j]) == c.key
  }

  /** Once a prefix fails, any extension fails with the same key. */
  lemma {:induction false} UniqueKeyMapErrStays<T>(items: seq<T>, more: seq<T>, key: T -> string)
    requires UniqueKeyMap(items, key).Err?
    ensures UniqueKeyMap(items + more, key) == UniqueKeyMap(items, key)
    decreases |more|
  {
    if more == [] {
      assert items + more == items;
    } else {
      var init := more[..|more| - 1];
      UniqueKeyMapErrStays(items, init, key);
      assert (items + more)[..|items + more| - 1] == items + init;
    }
  }

  /** Adding one item to a prefix: the step of the building loop. */
  lemma UniqueKeyMapSnoc<T>(items: seq<T>, x: T, key: T -> string)
    ensures UniqueKeyMap(items + [x], key) ==
      match UniqueKeyMap(items, key)
      case Err(c) => Err(c)
      case Ok(m) => if key(x) in m then Err(Clash(key(x), m[key(x)], x)) else Ok(m[key(x) := x])
  {
    assert (items + [x])[..|items + [x]| - 1] == items;
  }
}
