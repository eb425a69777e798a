/**
 * The document cache: a bounded, insertion-ordered store of (data, options, document)
 * entries. Lookup is a first-match scan under a pluggable data equality and reference
 * identity of options; insertion evicts the oldest entry first (no promotion on a hit).
 */
module DocumentCache {
  import opened Wrappers

  /** `Cache.defaultLimit`. */
  const DefaultLimit: int := 10

  /** A stored entry: the data, the options reference and the document built from them. */
  datatype Entry<D, O, Doc> = Entry(data: D, options: O, document: Doc)

  /** How many entries a cache with this limit can hold: one more than the limit, and at least one. */
  function Capacity(limit: int): nat
  {
    if limit < 0 then 1 else limit + 1
  }

  /** An entry answers a lookup: its data matches under the resolver and its options are identical. */
  predicate Matches<D, O(==), Doc>(e: Entry<D, O, Doc>, resolver: (D, D) -> bool, data: D, options: O)
  {
    resolver(e.data, data) && e.options == options
  }

  /** The document of the earliest matching entry, or nothing. */
  function Find<D, O(==), Doc>(storage: seq<Entry<D, O, Doc>>, resolver: (D, D) -> bool, data: D, options: O)
    : (r: Option<Doc>)
    ensures r.None? <==> forall i :: 0 <= i < |storage| ==> !Matches(storage[i], resolver, data, options)
    ensures r.Some? ==> exists i :: (0 <= i < |storage| && Matches(storage[i], resolver, data, options)
      && r.value == storage[i].document
      && forall l :: 0 <= l < i ==> !Matches(storage[l], resolver, data, options))
    decreases |storage|
  {
    if storage == [] then None
    else if Matches(storage[0], resolver, data, options) then Some(storage[0].document)
    else
      var r := Find(storage[1..], resolver, data, options);
      assert forall i :: 0 < i < |storage| ==> storage[i] == storage[1..][i - 1];
      r
  }

  /** What `set` does to the storage: drop the oldest entry when over the limit, then append. */
  function Insert<D, O, Doc>(storage: seq<Entry<D, O, Doc>>, limit: int, e: Entry<D, O, Doc>)
    : seq<Entry<D, O, Doc>>
  {
    (if |storage| > limit && |storage| > 0 then storage[1..] else storage) + [e]
  }

  /** The storage after inserting `es` in order. */
  function InsertAll<D, O, Doc>(storage: seq<Entry<D, O, Doc>>, limit: int, es: seq<Entry<D, O, Doc>>)
    : seq<Entry<D, O, Doc>>
    decreases |es|
  {
    if es == [] then storage else InsertAll(Insert(storage, limit, es[0]), limit, es[1..])
  }

  /** The last `n` elements of a list (all of it when shorter). */
  function LastN<T>(s: seq<T>, n: nat): seq<T>
  {
    if |s| <= n then s else s[|s| - n..]
  }

  /** Insertion keeps the storage within capacity. */
  lemma InsertWithinCapacity<D, O, Doc>(storage: seq<Entry<D, O, Doc>>, limit: int, e: Entry<D, O, Doc>)
    requires |storage| <= Capacity(limit)
    ensures |Insert(storage, limit, e)| <= Capacity(limit)
  {
  }

  /** Within capacity, one insertion keeps exactly the newest `Capacity(limit)` entries. */
  lemma InsertKeepsNewest<D, O, Doc>(storage: seq<Entry<D, O, Doc>>, limit: int, e: Entry<D, O, Doc>)
    requires |storage| <= Capacity(limit)
    ensures Insert(storage, limit, e) == LastN(storage + [e], Capacity(limit))
  {
  }

  /**
   * Strict FIFO: starting within capacity, any sequence of insertions leaves exactly the
   * newest `Capacity(limit)` entries, oldest first.
   */
  lemma {:induction false} InsertAllKeepsNewest<D, O, Doc>(storage: seq<Entry<D, O, Doc>>, limit: int,
                                                          es: seq<Entry<D, O, Doc>>)
    requires |storage| <= Capacity(limit)
    ensures InsertAll(storage, limit, es) == LastN(storage + es, Capacity(limit))
    decreases |es|
  {
    if es != [] {
      var next := Insert(storage, limit, es[0]);
      InsertKeepsNewest(storage, limit, es[0]);
      InsertAllKeepsNewest(next, limit, es[1..]);
      var c := Capacity(limit);
      var whole := storage + es;
      assert storage + [es[0]] + es[1..] == whole;
      if |storage + [es[0]]| > c {
        assert next == (storage + [es[0]])[|storage + [es[0]]| - c..];
        assert next + es[1..] == whole[|storage + [es[0]]| - c..];
      }
    }
  }

  /**
   * The first entry of a fresh cache survives `limit + 1` insertions (its own included) and
   * is evicted by the next one.
   */
  lemma FirstEntryLifetime<D, O, Doc>(limit: nat, es: seq<Entry<D, O, Doc>>)
    requires |es| == limit + 2
    ensures InsertAll([], limit, es[..limit + 1]) == es[..limit + 1]
    ensures InsertAll([], limit, es) == es[1..]
  {
    InsertAllKeepsNewest([], limit, es[..limit + 1]);
    InsertAllKeepsNewest([], limit, es);
    assert [] + es == es;
    assert [] + es[..limit + 1] == es[..limit + 1];
  }

  /**
   * After storing (data, options), a lookup of the same pair with a reflexive resolver
   * finds a document: the one of the oldest matching entry, which may be an older one.
   */
  lemma FindAfterInsert<D, O, Doc>(storage: seq<Entry<D, O, Doc>>, limit: int, resolver: (D, D) -> bool,
                                      data: D, options: O, document: Doc)
    requires resolver(data, data)
    ensures var s := Insert(storage, limit, Entry(data, options, document));
      Find(s, resolver, data, options).Some?
  {
    var s := Insert(storage, limit, Entry(data, options, document));
    assert Matches(s[|s| - 1], resolver, data, options);
  }

  /** A lookup with a different options reference misses every entry stored with `options`. */
  lemma OptionsByReference<D, O, Doc>(storage: seq<Entry<D, O, Doc>>, resolver: (D, D) -> bool,
                                         data: D, options: O, other: O)
    requires other != options
    requires forall i :: 0 <= i < |storage| ==> storage[i].options == options
    ensures Find(storage, resolver, data, other).None?
  {
  }

  class Cache<D(==), O(==), Doc> {
    /** The stored entries, oldest first. */
    var storage: seq<Entry<D, O, Doc>>
    var limit: int
    var resolver: (D, D) -> bool

    ghost predicate Valid()
      reads this
    {
      |storage| <= Capacity(limit)
    }

    /**
     * A falsy limit (absent or 0) keeps the default of 10; an absent resolver keeps
     * reference identity (`Object.is`), modelled as equality.
     */
    constructor (limitOption: Option<int>, resolverOption: Option<(D, D) -> bool>)
      ensures Valid() && storage == []
      ensures limit == if limitOption.Some? && limitOption.value != 0 then limitOption.value else DefaultLimit
      ensures resolverOption.Some? ==> resolver == resolverOption.value
      ensures resolverOption.None? ==> forall a, b :: resolver(a, b) <==> a == b
    {
      storage := [];
      limit := DefaultLimit;
      resolver := (a, b) => a == b;
      if limitOption.Some? && limitOption.value != 0 {
        limit := limitOption.value;
      }
      if resolverOption.Some? {
        resolver := resolverOption.value;
      }
    }

    /** `get`: the document of the earliest matching entry; the storage is not touched. */
    method Get(data: D, options: O) returns (r: Option<Doc>)
      ensures r == Find(storage, resolver, data, options)
    {
      var i := 0;
      while i < |storage|
        invariant 0 <= i <= |storage|
        invariant forall l :: 0 <= l < i ==> !Matches(storage[l], resolver, data, options)
      {
        if resolver(storage[i].data, data) && storage[i].options == options {
          return Some(storage[i].document);
        }
        i := i + 1;
      }
      return None;
    }

    /** `set`: evict the oldest entry when the store is over the limit, append, return the document. */
    method Set(data: D, document: Doc, options: O) returns (r: Doc)
      requires Valid()
      modifies this`storage
      ensures Valid()
      ensures r == document
      ensures storage == Insert(old(storage), limit, Entry(data, options, document))
      ensures |old(storage)| > limit && |old(storage)| > 0 ==>
        storage == old(storage)[1..] + [Entry(data, options, document)]
      ensures |old(storage)| <= limit ==> storage == old(storage) + [Entry(data, options, document)]
    {
      if |storage| > limit {
        if |storage| > 0 {
          storage := storage[1..];
        }
      }
      storage := storage + [Entry(data, options, document)];
      r := document;
    }
  }
}
