/**
 * Object collections (ObjectCollection.cpp): objects get ids from a
 * counter the collection keeps, and are stored by id. Clearing the
 * collection does not reset the counter, so ids are never reused.
 */
module Objects {

  class Object {
    /** 0 until a collection assigns an id. */
    var id: int

    constructor ()
      ensures id == 0
    {
      id := 0;
    }
  }

  lemma EmptyOrHasKey(keys: set<int>)
    ensures keys == {} || exists key :: key in keys
  {
    if forall key :: key !in keys {
      assert keys == {};
    }
  }

  /** Some key of a non-empty set. */
  ghost function AnyKey(keys: set<int>): int
    requires keys != {}
  {
    EmptyOrHasKey(keys);
    var key :| key in keys; key
  }

  /** The smallest key of a non-empty set: where a `std::map` begins. */
  ghost function SmallestKey(keys: set<int>): (m: int)
    requires keys != {}
    ensures m in keys && forall k :: k in keys ==> m <= k
    decreases |keys|
  {
    var key := AnyKey(keys);
    if keys == {key} then key
    else
      var rest := SmallestKey(keys - {key});
      assert forall k :: k in keys ==> k == key || k in keys - {key};
      if key < rest then key else rest
  }

  predicate Ascending(s: seq<int>)
  {
    forall i, j :: 0 <= i < j < |s| ==> s[i] < s[j]
  }

  lemma PrependAscending(first: int, rest: seq<int>)
    requires Ascending(rest) && forall k :: k in rest ==> first < k
    ensures Ascending([first] + rest)
  {
    var s := [first] + rest;
    forall i, j | 0 <= i < j < |s|
      ensures s[i] < s[j]
    {
      assert s[j] == rest[j - 1] && rest[j - 1] in rest;
      if i > 0 {
        assert s[i] == rest[i - 1];
      }
    }
  }

  /** The keys smallest first: the order in which a `std::map` is walked. */
  ghost function SortedKeys(keys: set<int>): seq<int>
    decreases |keys|
  {
    if keys == {} then []
    else
      var first := SmallestKey(keys);
      [first] + SortedKeys(keys - {first})
  }

  /** SortedKeys lists every key exactly once, in ascending order. */
  lemma {:induction false} SortedKeysAscending(keys: set<int>)
    ensures |SortedKeys(keys)| == |keys|
    ensures forall k :: k in SortedKeys(keys) <==> k in keys
    ensures Ascending(SortedKeys(keys))
    decreases |keys|
  {
    if keys != {} {
      var first := SmallestKey(keys);
      var rest := SortedKeys(keys - {first});
      SortedKeysAscending(keys - {first});
      PrependAscending(first, rest);
    }
  }


  /** The first key of a map's iteration. */
  method FirstKey(keys: set<int>) returns (first: int)
    requires keys != {}
    ensures first in keys && first == SmallestKey(keys)
  {
    ghost var smallest := SmallestKey(keys);
    first :| first in keys && forall k :: k in keys ==> first <= k;
  }

  lemma AppendAssociative(a: seq<int>, b: seq<int>, c: seq<int>)
    ensures (a + b) + c == a + (b + c)
  {
  }

  /**
   * A walk that has visited `done` and has `remaining` left moves on by
   * the smallest remaining key; with nothing left it has visited all.
   */
  lemma SortedWalkStep(done: seq<int>, remaining: set<int>, all: seq<int>)
    requires done + SortedKeys(remaining) == all
    ensures remaining == {} ==> done == all
    ensures remaining != {} ==>
      var key := SmallestKey(remaining);
      (done + [key]) + SortedKeys(remaining - {key}) == all
  {
    if remaining == {} {
      assert done + [] == done;
    } else {
      var key := SmallestKey(remaining);
      AppendAssociative(done, [key], SortedKeys(remaining - {key}));
    }
  }

  /** Walks a map's keys from the front, as its iterator does. */
  method KeysInOrder(keys: set<int>) returns (order: seq<int>)
    ensures order == SortedKeys(keys)
  {
    order := [];
    var remaining := keys;
    while remaining != {}
      invariant order + SortedKeys(remaining) == SortedKeys(keys)
      decreases |remaining|
    {
      ghost var smallest := SmallestKey(remaining);
      var first :| first in remaining && forall k :: k in remaining ==> first <= k;
      assert first == smallest;
      assert SortedKeys(remaining) == [first] + SortedKeys(remaining - {first});
      AppendAssociative(order, [first], SortedKeys(remaining - {first}));
      order := order + [first];
      remaining := remaining - {first};
    }
  }

  class ObjectCollection {
    var objectMap: map<int, Object>
    var nextId: int
    /** Every id the collection has handed out. */
    ghost var issued: set<int>

    ghost predicate Valid()
      reads this
    {
      && nextId >= 1
      && (forall id :: id in objectMap ==> id in issued)
      && (forall id :: id in issued ==> 1 <= id < nextId)
    }

    constructor ()
      ensures Valid() && objectMap == map[] && nextId == 1 && issued == {}
    {
      objectMap := map[];
      nextId := 1;
      issued := {};
    }

    /**
     * Refuses an object that already has an id; otherwise gives it the next
     * id, which no object has had before, and stores it under that id.
     */
    method AddObject(obj: Object) returns (ok: bool)
      requires Valid()
      modifies this, obj
      ensures Valid()
      ensures ok <==> old(obj.id) == 0
      ensures !ok ==> objectMap == old(objectMap) && nextId == old(nextId) && issued == old(issued)
                      && obj.id == old(obj.id)
      ensures ok ==> && obj.id == old(nextId) && nextId == old(nextId) + 1
                     && obj.id !in old(issued) && issued == old(issued) + {obj.id}
                     && objectMap == old(objectMap)[obj.id := obj]
    {
      if obj.id != 0 {
        return false;
      }
      obj.id := nextId;
      nextId := nextId + 1;
      issued := issued + {obj.id};
      objectMap := objectMap[obj.id := obj];
      ok := true;
    }

    /** The object stored under the id, or null; changes nothing. */
    method FindObject(objectId: int) returns (obj: Object?)
      ensures obj != null <==> objectId in objectMap
      ensures obj != null ==> obj == objectMap[objectId]
    {
      obj := null;
      if objectId in objectMap {
        obj := objectMap[objectId];
      }
    }

    /** Erases entries from the front until the map is empty; `nextId` stays. */
    method Clear()
      requires Valid()
      modifies this
      ensures Valid()
      ensures objectMap == map[] && nextId == old(nextId) && issued == old(issued)
    {
      while |objectMap| > 0
        invariant Valid() && nextId == old(nextId) && issued == old(issued)
        decreases |objectMap|
      {
        ghost var smallest := SmallestKey(objectMap.Keys);
        var first :| first in objectMap && forall k :: k in objectMap ==> first <= k;
        objectMap := objectMap - {first};
      }
    }
  }
}
