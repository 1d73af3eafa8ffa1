/** JavaScript's insertion-ordered `Map` and `Set` as sequences, and the conversions to and
    from the entry arrays that `JSON.stringify` can store: `Array.from(m.entries())`,
    `new Map(entries)`, `Array.from(s)` and `new Set(items)`. */
module JsCollections {
  import opened Types

  /** A `Map` is its entries in insertion order, each key at most once. */
  predicate DistinctKeys<K(==), V>(entries: seq<(K, V)>) {
    forall i, j :: 0 <= i < j < |entries| ==> entries[i].0 != entries[j].0
  }

  /** A `Set` is its elements in insertion order, each at most once. */
  predicate Distinct<T(==)>(items: seq<T>) {
    forall i, j :: 0 <= i < j < |items| ==> items[i] != items[j]
  }

  /** The keys of an entry list. */
  function KeysOf<K(!new), V>(entries: seq<(K, V)>): set<K> {
    set i | 0 <= i < |entries| :: entries[i].0
  }

  /** `m.get(k)`: the value stored under k, if any. */
  function Get<K(==,!new), V>(entries: seq<(K, V)>, k: K): (r: Option<V>)
    ensures r.None? <==> k !in KeysOf(entries)
    ensures r.Some? ==> exists i :: 0 <= i < |entries| && entries[i] == (k, r.value)
  {
    if entries == [] then None
    else if entries[0].0 == k then Some(entries[0].1)
    else
      var r := Get(entries[1..], k);
      assert forall i :: 0 <= i < |entries| - 1 ==> entries[1..][i] == entries[i + 1];
      assert k in KeysOf(entries) <==> k in KeysOf(entries[1..]);
      r
  }

  /** For a map with each key once, `get` at an entry's key gives that entry's value. */
  lemma {:induction false} GetAt<K(!new), V>(entries: seq<(K, V)>, i: int)
    requires DistinctKeys(entries) && 0 <= i < |entries|
    ensures Get(entries, entries[i].0) == Some(entries[i].1)
  {
    var r := Get(entries, entries[i].0);
    var j :| 0 <= j < |entries| && entries[j] == (entries[i].0, r.value);
    assert j == i;
  }

  /** `m.set(k, v)`: a present key keeps its place and takes the new value; a new key is
      appended. */
  function Put<K(==,!new), V>(entries: seq<(K, V)>, k: K, v: V): (r: seq<(K, V)>)
    ensures k !in KeysOf(entries) ==> r == entries + [(k, v)]
    ensures k in KeysOf(entries) ==>
              |r| == |entries| && forall i :: 0 <= i < |r| ==> r[i] == if entries[i].0 == k then (k, v) else entries[i]
  {
    if k in KeysOf(entries) then
      seq(|entries|, i requires 0 <= i < |entries| => if entries[i].0 == k then (k, v) else entries[i])
    else entries + [(k, v)]
  }

  /** Setting a key adds exactly that key and keeps each key once. */
  lemma PutKeys<K(!new), V>(entries: seq<(K, V)>, k: K, v: V)
    requires DistinctKeys(entries)
    ensures KeysOf(Put(entries, k, v)) == KeysOf(entries) + {k}
    ensures DistinctKeys(Put(entries, k, v))
  {
    var r := Put(entries, k, v);
    if k in KeysOf(entries) {
      var i :| 0 <= i < |entries| && entries[i].0 == k;
      assert r[i].0 == k;
      forall x | x in KeysOf(r) ensures x in KeysOf(entries) {
        var j :| 0 <= j < |r| && r[j].0 == x;
        assert entries[j].0 == x;
      }
      forall x | x in KeysOf(entries) ensures x in KeysOf(r) {
        var j :| 0 <= j < |entries| && entries[j].0 == x;
        assert r[j].0 == x;
      }
    } else {
      assert r[|entries|].0 == k;
      forall x | x in KeysOf(r) ensures x in KeysOf(entries) + {k} {
        var j :| 0 <= j < |r| && r[j].0 == x;
        if j < |entries| { assert entries[j].0 == x; }
      }
      forall x | x in KeysOf(entries) ensures x in KeysOf(r) {
        var j :| 0 <= j < |entries| && entries[j].0 == x;
        assert r[j].0 == x;
      }
    }
  }

  /** After setting k, `get` of k returns the new value and `get` of every other key is as
      it was. */
  lemma PutGet<K(!new), V>(entries: seq<(K, V)>, k: K, v: V)
    requires DistinctKeys(entries)
    ensures Get(Put(entries, k, v), k) == Some(v)
    ensures forall k' :: k' != k ==> Get(Put(entries, k, v), k') == Get(entries, k')
  {
    var r := Put(entries, k, v);
    PutKeys(entries, k, v);
    var j :| 0 <= j < |r| && r[j].0 == k;
    assert r[j] == (k, v);
    GetAt(r, j);
    forall k' | k' != k
      ensures Get(r, k') == Get(entries, k')
    {
      if k' in KeysOf(entries) {
        var i :| 0 <= i < |entries| && entries[i].0 == k';
        assert r[i] == entries[i];
        GetAt(entries, i);
        GetAt(r, i);
      }
    }
  }

  /** `new Map(entries)`: the entries set one after another, left to right. */
  function MapOf<K(==,!new), V>(entries: seq<(K, V)>): seq<(K, V)>
  {
    if entries == [] then []
    else
      var last := entries[|entries| - 1];
      Put(MapOf(entries[..|entries| - 1]), last.0, last.1)
  }

  /** `Array.from(m.entries())` followed by `new Map(...)` gives back the same map, order
      included. */
  lemma {:induction false} MapOfEntries<K(!new), V>(entries: seq<(K, V)>)
    requires DistinctKeys(entries)
    ensures MapOf(entries) == entries
    decreases |entries|
  {
    if entries != [] {
      var init := entries[..|entries| - 1];
      var last := entries[|entries| - 1];
      assert DistinctKeys(init);
      MapOfEntries(init);
      assert last.0 !in KeysOf(init);
      assert init + [last] == entries;
    }
  }

  /** `new Map(entries)` holds each key once and exactly the keys given, whatever the
      entries. */
  lemma {:induction false} MapOfDistinct<K(!new), V>(entries: seq<(K, V)>)
    ensures DistinctKeys(MapOf(entries)) && KeysOf(MapOf(entries)) == KeysOf(entries)
    decreases |entries|
  {
    if entries != [] {
      var init := entries[..|entries| - 1];
      var last := entries[|entries| - 1];
      MapOfDistinct(init);
      PutKeys(MapOf(init), last.0, last.1);
      forall x | x in KeysOf(entries) ensures x in KeysOf(init) + {last.0} {
        var i :| 0 <= i < |entries| && entries[i].0 == x;
        if i < |init| { assert init[i] == entries[i]; }
      }
      forall x | x in KeysOf(init) ensures x in KeysOf(entries) {
        var i :| 0 <= i < |init| && init[i].0 == x;
        assert entries[i] == init[i];
      }
    }
  }

  /** `s.add(x)`: appended when new, nothing otherwise. */
  function Add<T(==)>(items: seq<T>, x: T): (r: seq<T>)
    ensures x in items ==> r == items
    ensures x !in items ==> r == items + [x]
  {
    if x in items then items else items + [x]
  }

  /** `new Set(items)`: the items added one after another, left to right. */
  function SetOf<T(==)>(items: seq<T>): seq<T>
  {
    if items == [] then []
    else Add(SetOf(items[..|items| - 1]), items[|items| - 1])
  }

  /** `Array.from(s)` followed by `new Set(...)` gives back the same set, order included. */
  lemma {:induction false} SetOfItems<T>(items: seq<T>)
    requires Distinct(items)
    ensures SetOf(items) == items
    decreases |items|
  {
    if items != [] {
      var init := items[..|items| - 1];
      var last := items[|items| - 1];
      assert init + [last] == items;
      assert Distinct(init) by {
        forall i, j | 0 <= i < j < |init| ensures init[i] != init[j] {
          assert init[i] == items[i] && init[j] == items[j];
        }
      }
      SetOfItems(init);
      assert last !in init by {
        forall i | 0 <= i < |init| ensures init[i] != last {
          assert init[i] == items[i];
        }
      }
      assert SetOf(items) == Add(init, last);
    }
  }

  /** `new Set(items)` holds each item once and exactly the items given. */
  lemma {:induction false} SetOfDistinct<T>(items: seq<T>)
    ensures Distinct(SetOf(items))
    ensures forall x :: x in SetOf(items) <==> x in items
    decreases |items|
  {
    if items != [] {
      var init := items[..|items| - 1];
      SetOfDistinct(init);
      assert items == init + [items[|items| - 1]];
    }
  }
}
