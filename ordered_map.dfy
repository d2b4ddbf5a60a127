/**
 * The JavaScript `Map` that backs the in-memory store: a finite map together with the
 * order in which its keys were first inserted, which is the order `values()` iterates in.
 * `set` on a key already present replaces the value and keeps the key's position;
 * `delete` removes the key from the order as well.
 */
module OrderedMap {
  import opened Wrappers

  /** No key occurs twice. */
  ghost predicate Distinct<K>(s: seq<K>) {
    forall i, j :: 0 <= i < j < |s| ==> s[i] != s[j]
  }

  /** In a sequence without repetitions, no element occurs before its own position. */
  lemma NotBefore<K>(s: seq<K>, i: nat)
    requires Distinct(s) && i < |s|
    ensures s[i] !in s[..i]
  {
  }

  /** `s` with every occurrence of `k` removed, other keys keeping their relative order. */
  function Without<K(==,!new)>(s: seq<K>, k: K): (r: seq<K>)
    ensures forall x :: x in r <==> x in s && x != k
    ensures |r| <= |s|
    ensures Distinct(s) ==> Distinct(r)
    ensures k !in s ==> r == s
  {
    if s == [] then []
    else if s[0] == k then Without(s[1..], k)
    else
      var rest := Without(s[1..], k);
      assert Distinct(s) ==> s[0] !in s[1..] && Distinct(s[1..]);
      [s[0]] + rest
  }

  /** Removing a key keeps the order of the rest: filtering a concatenation filters each
      part in place, so a key that came before another still does. */
  lemma {:induction false} WithoutKeepsOrder<K(!new)>(a: seq<K>, b: seq<K>, k: K)
    ensures Without(a + b, k) == Without(a, k) + Without(b, k)
  {
    if a != [] {
      var ab := a + b;
      assert ab[0] == a[0] && ab[1..] == a[1..] + b;
      WithoutKeepsOrder(a[1..], b, k);
      if a[0] == k {
        assert Without(ab, k) == Without(ab[1..], k);
        assert Without(a, k) == Without(a[1..], k);
      } else {
        assert Without(ab, k) == [a[0]] + Without(ab[1..], k);
        assert Without(a, k) == [a[0]] + Without(a[1..], k);
      }
    } else {
      assert a + b == b;
    }
  }

  /** The values stored under the keys `ks`, in the order of `ks`. */
  function ValuesOf<K(==,!new), V>(ks: seq<K>, entries: map<K, V>): (r: seq<V>)
    requires forall k :: k in ks ==> k in entries
    ensures |r| == |ks|
    ensures forall i :: 0 <= i < |ks| ==> r[i] == entries[ks[i]]
  {
    if ks == [] then [] else [entries[ks[0]]] + ValuesOf(ks[1..], entries)
  }

  /** A sequence without repetitions has as many elements as the set of its elements. */
  lemma {:induction false} DistinctCardinality<K>(s: seq<K>)
    requires Distinct(s)
    ensures |set x | x in s| == |s|
  {
    if s != [] {
      DistinctCardinality(s[1..]);
      assert (set x | x in s) == {s[0]} + (set x | x in s[1..]);
      assert s[0] !in (set x | x in s[1..]);
    }
  }

  datatype OMap<K(==,!new), V> = OMap(keys: seq<K>, entries: map<K, V>) {

    /** The insertion order lists every key exactly once. */
    ghost predicate Valid() {
      Distinct(keys) && forall k :: k in entries <==> k in keys
    }

    /** `Map.prototype.size`: the number of entries (the key count of a valid map, by
        `SizeIsKeyCount`). */
    function Size(): (r: nat)
      ensures r == 0 <==> forall k :: k !in entries
    {
      |entries|
    }

    /** `Map.prototype.get`: the value, or `None` for `undefined`. */
    function Get(k: K): (r: Option<V>)
      ensures r.Some? <==> k in entries
      ensures r.Some? ==> r.value == entries[k]
    {
      if k in entries then Some(entries[k]) else None
    }

    /** `Map.prototype.set`: `k` maps to `v` afterwards and every other key keeps its value;
        an existing key keeps its place in the order, a new one goes last. */
    function Set(k: K, v: V): (r: OMap<K, V>)
      requires Valid()
      ensures r.Valid()
      ensures r.Get(k) == Some(v)
      ensures forall j :: j != k ==> r.Get(j) == Get(j)
      ensures k in entries ==> r.keys == keys && r.Size() == Size()
      ensures k !in entries ==> r.keys == keys + [k] && r.Size() == Size() + 1
    {
      OMap(if k in entries then keys else keys + [k], entries[k := v])
    }

    /** `Map.prototype.delete`: `k` is absent afterwards and every other key keeps its value
        and its relative place in the order. */
    function Delete(k: K): (r: OMap<K, V>)
      requires Valid()
      ensures r.Valid()
      ensures r.Get(k) == None
      ensures forall j :: j != k ==> r.Get(j) == Get(j)
      ensures r.keys == Without(keys, k)
      ensures r.Size() == if k in entries then Size() - 1 else Size()
    {
      var r := OMap(Without(keys, k), entries - {k});
      assert r.entries.Keys == entries.Keys - {k};
      r
    }

    /** `Map.prototype.values()`, in insertion order. */
    function Values(): (r: seq<V>)
      requires Valid()
      ensures |r| == |keys|
      ensures forall i :: 0 <= i < |keys| ==> r[i] == entries[keys[i]]
    {
      ValuesOf(keys, entries)
    }
  }

  /** `new Map()`. */
  function Empty<K(==,!new), V>(): (m: OMap<K, V>)
    ensures m.Valid() && m.Size() == 0 && m.keys == []
  {
    OMap([], map[])
  }

  /** The order holds as many keys as the map. */
  lemma SizeIsKeyCount<K(!new), V>(m: OMap<K, V>)
    requires m.Valid()
    ensures m.Size() == |m.keys|
  {
    DistinctCardinality(m.keys);
    assert m.entries.Keys == set x | x in m.keys;
  }

  /** `values()` yields every stored value, one per key, and nothing else. */
  lemma ValuesAreTheEntries<K(!new), V>(m: OMap<K, V>)
    requires m.Valid()
    ensures |m.Values()| == m.Size()
    ensures forall k :: k in m.entries ==> m.entries[k] in m.Values()
    ensures forall v :: v in m.Values() ==> exists k :: k in m.entries && m.entries[k] == v
  {
    SizeIsKeyCount(m);
    var vs := m.Values();
    forall k | k in m.entries
      ensures m.entries[k] in vs
    {
      var i :| 0 <= i < |m.keys| && m.keys[i] == k;
      assert vs[i] == m.entries[k];
    }
    forall v | v in vs
      ensures exists k :: k in m.entries && m.entries[k] == v
    {
      var i :| 0 <= i < |vs| && vs[i] == v;
      assert m.keys[i] in m.entries;
    }
  }

  /** `values()` is determined by the key order and the value under each key. */
  lemma ValuesInKeyOrder<K(!new), V>(m: OMap<K, V>, vs: seq<V>)
    requires m.Valid() && |vs| == |m.keys|
    requires forall i :: 0 <= i < |vs| ==> m.entries[m.keys[i]] == vs[i]
    ensures m.Values() == vs
  {
  }

  /** Setting a new key appends its value to `values()`. */
  lemma SetNewKeyAppendsValue<K(!new), V>(m: OMap<K, V>, k: K, v: V)
    requires m.Valid() && k !in m.entries
    ensures m.Set(k, v).Values() == m.Values() + [v]
  {
    var r := m.Set(k, v);
    forall i | 0 <= i < |m.keys|
      ensures r.entries[r.keys[i]] == (m.Values() + [v])[i]
    {
      assert m.keys[i] in m.entries;
    }
    ValuesInKeyOrder(r, m.Values() + [v]);
  }
}
