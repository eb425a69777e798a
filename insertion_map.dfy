/**
 * The host language's `Map`: a dictionary that remembers the order in which its
 * keys were first inserted; setting an existing key replaces the value in place.
 */
module InsertionMaps {
  import opened Wrappers

  datatype InsertionMap<K(==, !new), V> = InsertionMap(order: seq<K>, entries: map<K, V>) {

    /** The key order lists every key of the dictionary exactly once. */
    ghost predicate Valid()
    {
      && (forall i, j :: 0 <= i < j < |order| ==> order[i] != order[j])
      && (forall k :: k in entries <==> k in order)
    }

    function Size(): nat
    {
      |order|
    }

    predicate Has(k: K)
    {
      k in entries
    }

    function Get(k: K): V
      requires k in entries
    {
      entries[k]
    }

    function Set(k: K, v: V): (m: InsertionMap<K, V>)
      requires Valid()
      ensures m.Valid()
      ensures m.entries == entries[k := v]
      ensures m.order == if k in entries then order else order + [k]
    {
      if k in entries then InsertionMap(order, entries[k := v])
      else InsertionMap(order + [k], entries[k := v])
    }

    /** The values in key-insertion order. */
    function Values(): (vs: seq<V>)
      requires Valid()
      ensures |vs| == |order|
      ensures forall i :: 0 <= i < |order| ==> vs[i] == entries[order[i]]
    {
      seq(|order|, i requires 0 <= i < |order| && order[i] in entries => entries[order[i]])
    }
  }

  function EmptyMap<K(==, !new), V>(): (m: InsertionMap<K, V>)
    ensures m.Valid() && m.Size() == 0 && m.entries == map[]
  {
    InsertionMap([], map[])
  }

  /** `b` grew from `a` only by inserting fresh keys: old keys keep their position and value. */
  ghost predicate Extends<K(!new), V>(a: InsertionMap<K, V>, b: InsertionMap<K, V>)
  {
    && a.order <= b.order
    && forall k :: k in a.entries ==> k in b.entries && b.entries[k] == a.entries[k]
  }

  /** Setting a fresh key extends a dictionary. */
  lemma ExtendsBySet<K(!new), V>(m: InsertionMap<K, V>, k: K, v: V)
    requires m.Valid() && k !in m.entries
    ensures Extends(m, m.Set(k, v))
  {
  }

  lemma ExtendsTrans<K(!new), V>(a: InsertionMap<K, V>, b: InsertionMap<K, V>, c: InsertionMap<K, V>)
    requires Extends(a, b) && Extends(b, c)
    ensures Extends(a, c)
  {
  }

  /** The position of the last occurrence of `k` in `keys`: where the value `set` kept for it came from. */
  function LastIndex<K(==)>(keys: seq<K>, k: K): (r: Option<nat>)
    ensures r.None? <==> k !in keys
    ensures r.Some? ==> r.value < |keys| && keys[r.value] == k
    ensures r.Some? ==> forall l :: r.value < l < |keys| ==> keys[l] != k
    decreases |keys|
  {
    if keys == [] then None
    else if keys[|keys| - 1] == k then Some(|keys| - 1)
    else
      var init := keys[..|keys| - 1];
      assert keys == init + [keys[|keys| - 1]];
      LastIndex(init, k)
  }

  /** Appending a key moves its last occurrence to the end and leaves the others where they were. */
  lemma LastIndexAppend<K>(keys: seq<K>, x: K, k: K)
    ensures LastIndex(keys + [x], k) == if x == k then Some(|keys|) else LastIndex(keys, k)
  {
    assert (keys + [x])[..|keys|] == keys;
  }

  /**
   * The keys of `keys` in the order of their first occurrence: the key order of a
   * dictionary into which a value is set under each key of `keys` in turn.
   */
  function FirstKeys<K(==, !new)>(keys: seq<K>): (r: seq<K>)
    ensures forall k :: k in r <==> k in keys
    ensures forall i, j :: 0 <= i < j < |r| ==> r[i] != r[j]
    decreases |keys|
  {
    if keys == [] then []
    else
      var init := keys[..|keys| - 1];
      var last := keys[|keys| - 1];
      assert keys == init + [last];
      if last in init then FirstKeys(init) else FirstKeys(init) + [last]
  }

  /** Appending a key adds it to the first-occurrence order exactly when it is new. */
  lemma FirstKeysAppend<K(!new)>(keys: seq<K>, k: K)
    ensures FirstKeys(keys + [k]) == if k in keys then FirstKeys(keys) else FirstKeys(keys) + [k]
  {
    assert (keys + [k])[..|keys|] == keys;
  }

  /** A dictionary whose key order is the first-occurrence order of `keys` keeps it when one more key is set. */
  lemma SetFirstKeys<K(!new), V>(m: InsertionMap<K, V>, keys: seq<K>, k: K, v: V)
    requires m.Valid() && m.order == FirstKeys(keys)
    ensures m.Set(k, v).order == FirstKeys(keys + [k])
  {
    FirstKeysAppend(keys, k);
  }

  /**
   * A key that comes before another in the first-occurrence order occurs in `keys`
   * before any occurrence of the other.
   */
  lemma {:induction false} FirstKeysOrder<K(!new)>(keys: seq<K>, a: nat, b: nat)
    requires a < b < |FirstKeys(keys)|
    ensures exists p :: 0 <= p < |keys| && keys[p] == FirstKeys(keys)[a] && FirstKeys(keys)[b] !in keys[..p + 1]
    decreases |keys|
  {
    var init := keys[..|keys| - 1];
    var last := keys[|keys| - 1];
    FirstKeysAppend(init, last);
    assert keys == init + [last];
    if b < |FirstKeys(init)| {
      FirstKeysOrder(init, a, b);
      var p :| 0 <= p < |init| && init[p] == FirstKeys(init)[a] && FirstKeys(init)[b] !in init[..p + 1];
      assert keys[..p + 1] == init[..p + 1];
    } else {
      assert FirstKeys(keys)[b] == last && last !in init;
      assert FirstKeys(keys)[a] == FirstKeys(init)[a] && FirstKeys(init)[a] in FirstKeys(init);
      var p :| 0 <= p < |init| && init[p] == FirstKeys(keys)[a];
      assert keys[..p + 1] == init[..p + 1];
    }
  }

  /** A list without repeated elements has as many distinct elements as positions. */
  lemma {:induction false} DistinctCardinality<K>(s: seq<K>)
    requires forall i, j :: 0 <= i < j < |s| ==> s[i] != s[j]
    ensures |set x | x in s| == |s|
  {
    if s != [] {
      var t := s[1..];
      DistinctCardinality(t);
      assert (set x | x in s) == (set x | x in t) + {s[0]};
      assert s[0] !in (set x | x in t);
    }
  }

  /** The size of a dictionary is its number of distinct keys. */
  lemma SizeIsKeyCount<K(!new), V>(m: InsertionMap<K, V>)
    requires m.Valid()
    ensures m.Size() == |m.entries.Keys|
  {
    assert m.entries.Keys == set x | x in m.order;
    DistinctCardinality(m.order);
  }
}
