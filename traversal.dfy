/**
 * `recurseResources`: the depth-bounded, key-deduplicating walk over relators that
 * fills `included`, with the reachability relation that says what it may include and
 * the condition under which it throws.
 */
module Traversal {
  import opened Wrappers
  import opened JsonApi
  import opened InsertionMaps
  import opened Configuration
  import opened Builders

  /**
   * Where a relator list on the queue comes from: the effective options of the call
   * (`Root`), or the options of the registry serializer `index`.
   */
  datatype Src = Root | Target(index: nat)

  /** The relator list a queue entry of the given origin carries. */
  function RelatorsAt(reg: Registry, o: Options, src: Src): seq<Relator>
  {
    match src
    case Root => RelatorList(o)
    case Target(i) => if i < |reg| then RelatorList(reg[i].options) else []
  }

  /** Related data that is `null` or `undefined`: `createResource` cannot read its id field. */
  predicate Unreadable(related: Related)
  {
    related.RelatedUndefined? || related.RelatedNull?
  }

  /**
   * What one relator result contributes to `.flat()`: a list is spread, one record is
   * kept, and `null` or `undefined` stays in place as one element (`None`).
   */
  function Items(related: Related): (items: seq<Option<Record>>)
    ensures forall x :: Some(x) in items <==> x in Flatten(related)
    ensures None in items <==> Unreadable(related)
  {
    match related
    case RelatedUndefined => [None]
    case RelatedNull => [None]
    case RelatedOne(r) => [Some(r)]
    case RelatedMany(rs) =>
      var items := seq(|rs|, i requires 0 <= i < |rs| => Some(rs[i]));
      assert forall x :: x in rs ==> Some(x) in items by {
        forall x | x in rs ensures Some(x) in items {
          var i :| 0 <= i < |rs| && rs[i] == x;
          assert items[i] == Some(x);
        }
      }
      items
  }

  /**
   * `(await Promise.all(records.map(relator.getRelatedData))).flat()`, evaluated in order:
   * exactly the related records of every owning record, plus one `None` element for
   * every owning record whose related data is `null` or `undefined`.
   */
  function RelatedData(rel: Relator, records: seq<Record>): (out: seq<Option<Record>>)
    ensures forall x :: Some(x) in out ==> exists p :: p in records && x in Flatten(rel.fetch(p))
    ensures forall p, x :: p in records && x in Flatten(rel.fetch(p)) ==> Some(x) in out
    decreases |records|
  {
    if records == [] then []
    else Items(rel.fetch(records[0])) + RelatedData(rel, records[1..])
  }

  /** The related data holds a `None` element exactly when some owning record's related data is `null` or `undefined`. */
  lemma {:induction false} RelatedDataUnreadable(rel: Relator, records: seq<Record>)
    ensures None in RelatedData(rel, records) <==> exists p :: p in records && Unreadable(rel.fetch(p))
    decreases |records|
  {
    if records != [] {
      RelatedDataUnreadable(rel, records[1..]);
      assert forall p :: p in records <==> p == records[0] || p in records[1..];
    }
  }

  /** One relationship hop: relator `j` of `ps`'s list leads from `p` to `r`, rendered by `s`. */
  ghost predicate Step(reg: Registry, o: Options, p: Record, ps: Src, r: Record, s: Src)
  {
    && s.Target?
    && exists j :: 0 <= j < |RelatorsAt(reg, o, ps)|
         && TargetIndex(reg, RelatorsAt(reg, o, ps)[j]) == Some(s.index)
         && r in Flatten(RelatorsAt(reg, o, ps)[j].fetch(p))
  }

  /** Record `r`, arriving with origin `s`, is reachable from the primary records in at most `n` hops. */
  ghost predicate Within(reg: Registry, o: Options, data: seq<Record>, n: nat, r: Record, s: Src)
    decreases n
  {
    || (s == Root && r in data)
    || (n > 0 && Within(reg, o, data, n - 1, r, s))
    || (n > 0 && exists p, ps :: Within(reg, o, data, n - 1, p, ps) && Step(reg, o, p, ps, r, s))
  }

  lemma {:induction false} WithinMono(reg: Registry, o: Options, data: seq<Record>, n: nat, m: nat, r: Record, s: Src)
    requires n <= m && Within(reg, o, data, n, r, s)
    ensures Within(reg, o, data, m, r, s)
    decreases m - n
  {
    if n < m {
      WithinMono(reg, o, data, n + 1, m, r, s);
    }
  }

  /** A hop from a batch whose records are all within `level - 1` hops lands within `level` hops. */
  lemma ReachedByStep(reg: Registry, o: Options, data: seq<Record>, level: nat,
                      records: seq<Record>, src: Src, j: nat, x: Record)
    requires level > 0
    requires j < |RelatorsAt(reg, o, src)| && TargetIndex(reg, RelatorsAt(reg, o, src)[j]).Some?
    requires forall p :: p in records ==> Within(reg, o, data, level - 1, p, src)
    requires Some(x) in RelatedData(RelatorsAt(reg, o, src)[j], records)
    ensures Within(reg, o, data, level, x, Target(TargetIndex(reg, RelatorsAt(reg, o, src)[j]).value))
  {
    var rel := RelatorsAt(reg, o, src)[j];
    var p :| p in records && x in Flatten(rel.fetch(p));
    assert Step(reg, o, p, src, x, Target(TargetIndex(reg, rel).value));
  }

  /**
   * `res` is the resource the related serializer `i` builds for a record reachable from
   * the primary records in between one and `depth` hops.
   */
  ghost predicate Reached(reg: Registry, o: Options, data: seq<Record>, res: Resource)
  {
    && o.depth >= 0
    && exists r, i :: 0 <= i < |reg| && Within(reg, o, data, o.depth as nat, r, Target(i))
         && res == ResourceOf(reg, reg[i].collectionName, reg[i].options, r)
  }

  /** Every entry of an `included` dictionary is stored under its own key. */
  ghost predicate KeyedResources(m: InsertionMap<Key, Resource>)
  {
    forall k :: k in m.entries ==> m.entries[k].GetKey() == k
  }

  /**
   * What the walk guarantees about `included` relative to its initial value: keys are
   * never inserted twice (old entries keep position and value), and each new entry is the
   * resource of a record reachable within `depth` hops whose key is not already a full
   * resource in `primary`.
   */
  ghost predicate IncludedSound(reg: Registry, o: Options, data: seq<Record>, primary: InsertionMap<Key, Node>,
                                included0: InsertionMap<Key, Resource>, included: InsertionMap<Key, Resource>)
  {
    && included.Valid()
    && KeyedResources(included)
    && Extends(included0, included)
    && forall k :: k in included.entries && k !in included0.entries ==> NewEntryOk(reg, o, data, primary, included.entries[k])
  }

  /** A resource the walk may add: reached, and not stored as a full resource in `primary`. */
  ghost predicate NewEntryOk(reg: Registry, o: Options, data: seq<Record>, primary: InsertionMap<Key, Node>, res: Resource)
  {
    && (res.GetKey() !in primary.entries || primary.entries[res.GetKey()].IdentifierNode?)
    && Reached(reg, o, data, res)
  }

  /** The keys the walk treats as present: every included key, and every full primary resource's key. */
  function CoveredKeys(primary: InsertionMap<Key, Node>, included: InsertionMap<Key, Resource>): set<Key>
  {
    included.entries.Keys + set k | k in primary.entries && primary.entries[k].ResourceNode?
  }

  lemma CoveredKeysGrow(primary: InsertionMap<Key, Node>, a: InsertionMap<Key, Resource>,
                        b: InsertionMap<Key, Resource>)
    requires Extends(a, b)
    ensures CoveredKeys(primary, a) <= CoveredKeys(primary, b)
  {
  }

  /** The key the related serializer of `rel` gives record `x`. */
  function TargetKey(reg: Registry, rel: Relator, x: Record): Key
    requires TargetIndex(reg, rel).Some?
  {
    var s := reg[TargetIndex(reg, rel).value];
    KeyOf(s.collectionName, s.options, x)
  }

  /**
   * The related records of the first `n` relators of a batch, for those relators with a
   * related serializer, have their keys (under that serializer) in `keys`.
   */
  ghost predicate RelatorsCovered(reg: Registry, records: seq<Record>, relators: seq<Relator>, n: nat, keys: set<Key>)
  {
    && n <= |relators|
    && forall l, x ::
         (0 <= l < n && TargetIndex(reg, relators[l]).Some? && Some(x) in RelatedData(relators[l], records)) ==>
           TargetKey(reg, relators[l], x) in keys
  }

  lemma RelatorsCoveredGrows(reg: Registry, records: seq<Record>, relators: seq<Relator>, n: nat,
                             keys: set<Key>, keys': set<Key>)
    requires keys <= keys' && RelatorsCovered(reg, records, relators, n, keys)
    ensures RelatorsCovered(reg, records, relators, n, keys')
  {
  }

  lemma RelatorsCoveredStep(reg: Registry, records: seq<Record>, relators: seq<Relator>, n: nat,
                            keys: set<Key>, keys': set<Key>)
    requires keys <= keys' && RelatorsCovered(reg, records, relators, n, keys) && n < |relators|
    requires TargetIndex(reg, relators[n]).Some? ==>
      forall x :: Some(x) in RelatedData(relators[n], records) ==> TargetKey(reg, relators[n], x) in keys'
    ensures RelatorsCovered(reg, records, relators, n + 1, keys')
  {
  }

  /**
   * Every record one hop from the primary records, through a relator of the call that has
   * a related serializer, has its key (under that serializer) in `keys`.
   */
  ghost predicate RootCovered(reg: Registry, o: Options, data: seq<Record>, keys: set<Key>)
  {
    RelatorsCovered(reg, data, RelatorList(o), |RelatorList(o)|, keys)
  }

  /**
   * Relator `rel` has a related serializer and its related data for `records` holds a
   * `null` or `undefined` element, which `createResource` cannot read: by
   * `RelatedDataUnreadable`, it yields `null` or `undefined` for some record of `records`.
   */
  ghost predicate HitsUnreadable(reg: Registry, rel: Relator, records: seq<Record>)
  {
    TargetIndex(reg, rel).Some? && None in RelatedData(rel, records)
  }

  /** Some relator of a batch, among the first `n`, hits `null` or `undefined` related data. */
  ghost predicate BatchFails(reg: Registry, records: seq<Record>, relators: seq<Relator>, n: nat)
  {
    exists l :: 0 <= l < n && l < |relators| && HitsUnreadable(reg, relators[l], records)
  }

  /** With `depth >= 1`, a relator of the call yields `null` or `undefined` for a primary record. */
  ghost predicate RootFails(reg: Registry, o: Options, data: seq<Record>)
  {
    o.depth >= 1 && BatchFails(reg, data, RelatorList(o), |RelatorList(o)|)
  }

  /**
   * Some record reachable within `depth - 1` hops has a relator, in the list of the
   * serializer it arrived through, that yields `null` or `undefined`.
   */
  ghost predicate MayFail(reg: Registry, o: Options, data: seq<Record>)
  {
    && o.depth >= 1
    && exists p, s, j :: (Within(reg, o, data, (o.depth - 1) as nat, p, s)
         && 0 <= j < |RelatorsAt(reg, o, s)| && HitsUnreadable(reg, RelatorsAt(reg, o, s)[j], [p]))
  }

  /** The queue below `upto` holds batches within `level` hops, each with its origin's relators. */
  ghost predicate QueueReached(reg: Registry, o: Options, data: seq<Record>,
                               queue: seq<(seq<Record>, seq<Relator>)>, srcs: seq<Src>, upto: int, level: nat)
  {
    && |srcs| == |queue|
    && 0 <= upto <= |queue|
    && (forall q :: 0 <= q < |queue| ==> queue[q].1 == RelatorsAt(reg, o, srcs[q]))
    && forall q, r :: 0 <= q < upto && r in queue[q].0 ==> Within(reg, o, data, level, r, srcs[q])
  }

  /**
   * The state of the walk at level `level` while the first `len` queue entries are walked:
   * those entries lie within `level - 1` hops, the whole queue within `level` hops, and
   * `included` has only grown soundly.
   */
  ghost predicate WalkState(reg: Registry, o: Options, data: seq<Record>, primary: InsertionMap<Key, Node>,
                            included0: InsertionMap<Key, Resource>, level: nat, len: nat,
                            queue: seq<(seq<Record>, seq<Relator>)>, srcs: seq<Src>, included: InsertionMap<Key, Resource>)
  {
    && 0 < level <= o.depth
    && len <= |queue|
    && QueueReached(reg, o, data, queue, srcs, len, level - 1)
    && QueueReached(reg, o, data, queue, srcs, |queue|, level)
    && IncludedSound(reg, o, data, primary, included0, included)
  }

  /** The keys, under the related serializer of `rel`, of the records among `items`. */
  function ItemKeys(reg: Registry, rel: Relator, items: seq<Option<Record>>): set<Key>
    requires TargetIndex(reg, rel).Some?
    decreases |items|
  {
    if items == [] then {}
    else
      var last := items[|items| - 1];
      ItemKeys(reg, rel, items[..|items| - 1]) + (if last.Some? then {TargetKey(reg, rel, last.value)} else {})
  }

  /**
   * The records of `items` that a walk includes when the keys `covered` are present
   * already: in order, each record whose key is neither covered nor the key of an
   * earlier record of `items`.
   */
  function NewlyIncluded(reg: Registry, rel: Relator, items: seq<Option<Record>>, covered: set<Key>): seq<Record>
    requires TargetIndex(reg, rel).Some?
    decreases |items|
  {
    if items == [] then []
    else
      var init := items[..|items| - 1];
      var last := items[|items| - 1];
      NewlyIncluded(reg, rel, init, covered) +
        (if last.Some? && TargetKey(reg, rel, last.value) !in covered + ItemKeys(reg, rel, init) then [last.value] else [])
  }

  /** How one more element of the related data extends `ItemKeys` and `NewlyIncluded`. */
  lemma NewlyIncludedStep(reg: Registry, rel: Relator, items: seq<Option<Record>>, m: nat, covered: set<Key>)
    requires TargetIndex(reg, rel).Some? && m < |items|
    ensures ItemKeys(reg, rel, items[..m + 1]) ==
      ItemKeys(reg, rel, items[..m]) + (if items[m].Some? then {TargetKey(reg, rel, items[m].value)} else {})
    ensures NewlyIncluded(reg, rel, items[..m + 1], covered) ==
      NewlyIncluded(reg, rel, items[..m], covered) +
        (if items[m].Some? && TargetKey(reg, rel, items[m].value) !in covered + ItemKeys(reg, rel, items[..m])
         then [items[m].value] else [])
  {
    assert items[..m + 1][..m] == items[..m];
  }

  /** The newly included records come from `items`; their keys lie outside `covered` and among the keys of `items`. */
  lemma {:induction false} NewlyIncludedFrom(reg: Registry, rel: Relator, items: seq<Option<Record>>, covered: set<Key>)
    requires TargetIndex(reg, rel).Some?
    ensures forall x :: x in NewlyIncluded(reg, rel, items, covered) ==>
      Some(x) in items && TargetKey(reg, rel, x) !in covered && TargetKey(reg, rel, x) in ItemKeys(reg, rel, items)
    decreases |items|
  {
    if items != [] {
      var init := items[..|items| - 1];
      NewlyIncludedFrom(reg, rel, init, covered);
      assert items == init + [items[|items| - 1]];
    }
  }

  /** The newly included records have pairwise distinct keys. */
  lemma {:induction false} NewlyIncludedDistinct(reg: Registry, rel: Relator, items: seq<Option<Record>>, covered: set<Key>)
    requires TargetIndex(reg, rel).Some?
    ensures forall a, b :: 0 <= a < b < |NewlyIncluded(reg, rel, items, covered)| ==>
      TargetKey(reg, rel, NewlyIncluded(reg, rel, items, covered)[a]) !=
      TargetKey(reg, rel, NewlyIncluded(reg, rel, items, covered)[b])
    decreases |items|
  {
    if items != [] {
      var init := items[..|items| - 1];
      var last := items[|items| - 1];
      NewlyIncludedDistinct(reg, rel, init, covered);
      NewlyIncludedFrom(reg, rel, init, covered);
      var nd0 := NewlyIncluded(reg, rel, init, covered);
      var nd := NewlyIncluded(reg, rel, items, covered);
      if last.Some? && TargetKey(reg, rel, last.value) !in covered + ItemKeys(reg, rel, init) {
        assert nd == nd0 + [last.value];
        forall a, b | 0 <= a < b < |nd| ensures TargetKey(reg, rel, nd[a]) != TargetKey(reg, rel, nd[b]) {
          assert nd[a] == nd0[a] && nd0[a] in nd0;
          if b < |nd0| {
            assert nd[b] == nd0[b];
          }
        }
      } else {
        assert nd == nd0;
      }
    }
  }

  /** Together with `covered`, the keys of the newly included records account for every key of `items`. */
  lemma {:induction false} NewlyIncludedCovers(reg: Registry, rel: Relator, items: seq<Option<Record>>, covered: set<Key>)
    requires TargetIndex(reg, rel).Some?
    ensures covered + ItemKeys(reg, rel, items) ==
      covered + (set x | x in NewlyIncluded(reg, rel, items, covered) :: TargetKey(reg, rel, x))
    decreases |items|
  {
    if items != [] {
      var init := items[..|items| - 1];
      var last := items[|items| - 1];
      NewlyIncludedCovers(reg, rel, init, covered);
      var nd0 := NewlyIncluded(reg, rel, init, covered);
      var nd := NewlyIncluded(reg, rel, items, covered);
      if last.Some? && TargetKey(reg, rel, last.value) !in covered + ItemKeys(reg, rel, init) {
        assert nd == nd0 + [last.value];
        assert (set x | x in nd :: TargetKey(reg, rel, x)) ==
          (set x | x in nd0 :: TargetKey(reg, rel, x)) + {TargetKey(reg, rel, last.value)};
      } else {
        assert nd == nd0;
      }
    }
  }

  /** Each newly included record is the first element of `items` that carries its key. */
  lemma {:induction false} NewlyIncludedFirst(reg: Registry, rel: Relator, items: seq<Option<Record>>, covered: set<Key>)
    requires TargetIndex(reg, rel).Some?
    ensures forall x :: x in NewlyIncluded(reg, rel, items, covered) ==>
      exists m :: 0 <= m < |items| && items[m] == Some(x) && TargetKey(reg, rel, x) !in ItemKeys(reg, rel, items[..m])
    decreases |items|
  {
    if items != [] {
      var init := items[..|items| - 1];
      var last := items[|items| - 1];
      NewlyIncludedFirst(reg, rel, init, covered);
      var nd0 := NewlyIncluded(reg, rel, init, covered);
      forall x | x in NewlyIncluded(reg, rel, items, covered)
        ensures exists m :: 0 <= m < |items| && items[m] == Some(x) && TargetKey(reg, rel, x) !in ItemKeys(reg, rel, items[..m])
      {
        if x in nd0 {
          var m :| 0 <= m < |init| && init[m] == Some(x) && TargetKey(reg, rel, x) !in ItemKeys(reg, rel, init[..m]);
          assert items[..m] == init[..m];
        } else {
          assert items[..|items| - 1] == init;
        }
      }
    }
  }

  /** The resource the related serializer of `rel` builds for `x`. */
  function TargetResource(reg: Registry, rel: Relator, x: Record): (r: Resource)
    requires TargetIndex(reg, rel).Some?
    ensures r.GetKey() == TargetKey(reg, rel, x)
  {
    var s := reg[TargetIndex(reg, rel).value];
    ResourceOf(reg, s.collectionName, s.options, x)
  }

  /** The keys the related serializer of `rel` gives `records`, in order. */
  function TargetKeys(reg: Registry, rel: Relator, records: seq<Record>): (keys: seq<Key>)
    requires TargetIndex(reg, rel).Some?
    ensures |keys| == |records|
    ensures forall i :: 0 <= i < |records| ==> keys[i] == TargetKey(reg, rel, records[i])
  {
    seq(|records|, i requires 0 <= i < |records| => TargetKey(reg, rel, records[i]))
  }

  /** `included` after the resource of each record of `records`, in turn, is set under its key. */
  function IncludeAll(reg: Registry, rel: Relator, included: InsertionMap<Key, Resource>, records: seq<Record>)
    : (r: InsertionMap<Key, Resource>)
    requires TargetIndex(reg, rel).Some? && included.Valid()
    ensures r.Valid()
    decreases |records|
  {
    if records == [] then included
    else
      var init := records[..|records| - 1];
      var x := records[|records| - 1];
      IncludeAll(reg, rel, included, init).Set(TargetKey(reg, rel, x), TargetResource(reg, rel, x))
  }

  /** `IncludeAll` followed by one more optional inclusion. */
  lemma IncludedAllStep(reg: Registry, rel: Relator, included: InsertionMap<Key, Resource>, newData0: seq<Record>,
                        before: InsertionMap<Key, Resource>, datum: Record, added: bool,
                        after: InsertionMap<Key, Resource>, newData: seq<Record>)
    requires TargetIndex(reg, rel).Some? && included.Valid()
    requires before == IncludeAll(reg, rel, included, newData0)
    requires after == if added then before.Set(TargetKey(reg, rel, datum), TargetResource(reg, rel, datum)) else before
    requires newData == if added then newData0 + [datum] else newData0
    ensures after == IncludeAll(reg, rel, included, newData)
  {
    if added {
      IncludeAllStep(reg, rel, included, newData0, datum);
    }
  }

  lemma IncludeAllStep(reg: Registry, rel: Relator, included: InsertionMap<Key, Resource>, records: seq<Record>, x: Record)
    requires TargetIndex(reg, rel).Some? && included.Valid()
    ensures IncludeAll(reg, rel, included, records + [x]) ==
      IncludeAll(reg, rel, included, records).Set(TargetKey(reg, rel, x), TargetResource(reg, rel, x))
  {
    assert (records + [x])[..|records|] == records;
  }

  /**
   * Records with distinct keys, none of them present yet, are appended to the key order in
   * turn, each under its key with its own resource; earlier entries keep place and value.
   */
  lemma {:induction false} IncludeAllAppends(reg: Registry, rel: Relator, included: InsertionMap<Key, Resource>,
                                             records: seq<Record>)
    requires TargetIndex(reg, rel).Some? && included.Valid()
    requires forall a, b :: 0 <= a < b < |records| ==> TargetKey(reg, rel, records[a]) != TargetKey(reg, rel, records[b])
    requires forall x :: x in records ==> TargetKey(reg, rel, x) !in included.entries
    ensures IncludeAll(reg, rel, included, records).order == included.order + TargetKeys(reg, rel, records)
    ensures forall x :: x in records ==>
      IncludeAll(reg, rel, included, records).entries[TargetKey(reg, rel, x)] == TargetResource(reg, rel, x)
    ensures Extends(included, IncludeAll(reg, rel, included, records))
    decreases |records|
  {
    if records != [] {
      var init := records[..|records| - 1];
      var x := records[|records| - 1];
      AppendsSplit(reg, rel, included, records);
      IncludeAllAppends(reg, rel, included, init);
      var m := IncludeAll(reg, rel, included, init);
      IncludeAllStep(reg, rel, included, init, x);
      assert records == init + [x];
      SetFresh(m, included, TargetKeys(reg, rel, init), TargetKey(reg, rel, x), TargetResource(reg, rel, x));
      AppendsEntries(reg, rel, m, m.Set(TargetKey(reg, rel, x), TargetResource(reg, rel, x)), init, x);
    }
  }

  /** The conditions of `IncludeAllAppends` pass to all records but the last, which is fresh for them. */
  lemma AppendsSplit(reg: Registry, rel: Relator, included: InsertionMap<Key, Resource>, records: seq<Record>)
    requires TargetIndex(reg, rel).Some? && included.Valid() && records != []
    requires forall a, b :: 0 <= a < b < |records| ==> TargetKey(reg, rel, records[a]) != TargetKey(reg, rel, records[b])
    requires forall x :: x in records ==> TargetKey(reg, rel, x) !in included.entries
    ensures var init := records[..|records| - 1];
      && (forall a, b :: 0 <= a < b < |init| ==> TargetKey(reg, rel, init[a]) != TargetKey(reg, rel, init[b]))
      && (forall x :: x in init ==> TargetKey(reg, rel, x) !in included.entries)
      && TargetKey(reg, rel, records[|records| - 1]) !in included.order + TargetKeys(reg, rel, init)
      && TargetKeys(reg, rel, records) == TargetKeys(reg, rel, init) + [TargetKey(reg, rel, records[|records| - 1])]
  {
    var init := records[..|records| - 1];
    var k := TargetKey(reg, rel, records[|records| - 1]);
    forall i | 0 <= i < |init| ensures TargetKeys(reg, rel, init)[i] != k {
      assert init[i] == records[i];
    }
  }

  /** One more record with a fresh key is stored with its own resource; the entries of the others stay. */
  lemma AppendsEntries(reg: Registry, rel: Relator, m: InsertionMap<Key, Resource>, m': InsertionMap<Key, Resource>,
                       init: seq<Record>, x: Record)
    requires TargetIndex(reg, rel).Some?
    requires forall y :: y in init ==> TargetKey(reg, rel, y) in m.entries && m.entries[TargetKey(reg, rel, y)] == TargetResource(reg, rel, y)
    requires TargetKey(reg, rel, x) !in TargetKeys(reg, rel, init)
    requires m'.entries == m.entries[TargetKey(reg, rel, x) := TargetResource(reg, rel, x)]
    ensures forall y :: y in init + [x] ==> m'.entries[TargetKey(reg, rel, y)] == TargetResource(reg, rel, y)
  {
    forall y | y in init + [x] ensures m'.entries[TargetKey(reg, rel, y)] == TargetResource(reg, rel, y) {
      if y != x {
        var a :| 0 <= a < |init| && init[a] == y;
        assert TargetKeys(reg, rel, init)[a] == TargetKey(reg, rel, y);
      }
    }
  }

  /** Setting a key that is neither in `base` nor among the keys added since appends it and keeps `base`. */
  lemma SetFresh<V>(m: InsertionMap<Key, V>, base: InsertionMap<Key, V>, keys: seq<Key>, k: Key, v: V)
    requires m.Valid() && m.order == base.order + keys && Extends(base, m)
    requires k !in base.order + keys
    ensures m.Set(k, v).order == base.order + (keys + [k])
    ensures m.Set(k, v).entries == m.entries[k := v]
    ensures Extends(base, m.Set(k, v))
  {
  }

  /**
   * Including the newly included records of `items` appends their keys to the key order
   * in the order found, each under its key with the resource of the first record of
   * `items` carrying that key.
   */
  lemma NewlyIncludedAppends(reg: Registry, rel: Relator, primary: InsertionMap<Key, Node>,
                             included: InsertionMap<Key, Resource>, items: seq<Option<Record>>)
    requires TargetIndex(reg, rel).Some? && included.Valid()
    ensures var newData := NewlyIncluded(reg, rel, items, CoveredKeys(primary, included));
      && IncludeAll(reg, rel, included, newData).order == included.order + TargetKeys(reg, rel, newData)
      && (forall x :: x in newData ==>
            IncludeAll(reg, rel, included, newData).entries[TargetKey(reg, rel, x)] == TargetResource(reg, rel, x))
      && Extends(included, IncludeAll(reg, rel, included, newData))
  {
    NewlyIncludedDistinct(reg, rel, items, CoveredKeys(primary, included));
    NewlyIncludedFrom(reg, rel, items, CoveredKeys(primary, included));
    IncludeAllAppends(reg, rel, included, NewlyIncluded(reg, rel, items, CoveredKeys(primary, included)));
  }

  /**
   * One related record: render it with the related serializer `index` and include the
   * resource when its key is neither included yet nor a full primary resource.
   */
  method IncludeRelated(reg: Registry, o: Options, data: seq<Record>, primary: InsertionMap<Key, Node>,
                        included0: InsertionMap<Key, Resource>, included: InsertionMap<Key, Resource>,
                        ghost level: nat, index: nat, datum: Record)
    returns (included': InsertionMap<Key, Resource>, added: bool)
    requires index < |reg| && 0 < level <= o.depth
    requires Within(reg, o, data, level, datum, Target(index))
    requires IncludedSound(reg, o, data, primary, included0, included)
    ensures IncludedSound(reg, o, data, primary, included0, included')
    ensures Extends(included, included')
    ensures added <==> KeyOf(reg[index].collectionName, reg[index].options, datum) !in CoveredKeys(primary, included)
    ensures included' == if added
      then included.Set(KeyOf(reg[index].collectionName, reg[index].options, datum),
                        ResourceOf(reg, reg[index].collectionName, reg[index].options, datum))
      else included
    ensures CoveredKeys(primary, included') ==
      CoveredKeys(primary, included) + {KeyOf(reg[index].collectionName, reg[index].options, datum)}
  {
    var serializer := reg[index];
    var resource := CreateResource(reg, serializer.collectionName, serializer.options, datum);
    var key := resource.GetKey();
    included', added := included, false;
    if !included.Has(key) && (!primary.Has(key) || primary.Get(key).IdentifierNode?) {
      WithinMono(reg, o, data, level, o.depth as nat, datum, Target(index));
      assert Reached(reg, o, data, resource);
      IncludedSoundSet(reg, o, data, primary, included0, included, resource);
      included', added := included.Set(key, resource), true;
    }
    CoveredKeysSet(primary, included, key, resource, added);
  }

  /** Setting a key that was not present adds exactly that key; a present key is left as it was. */
  lemma CoveredKeysSet(primary: InsertionMap<Key, Node>, included: InsertionMap<Key, Resource>,
                       key: Key, resource: Resource, added: bool)
    requires included.Valid()
    requires added <==> key !in CoveredKeys(primary, included)
    ensures var included' := if added then included.Set(key, resource) else included;
      CoveredKeys(primary, included') == CoveredKeys(primary, included) + {key}
  {
  }

  /** Including a reached resource under a fresh key that is not a full primary resource keeps `IncludedSound`. */
  lemma IncludedSoundSet(reg: Registry, o: Options, data: seq<Record>, primary: InsertionMap<Key, Node>,
                         included0: InsertionMap<Key, Resource>, included: InsertionMap<Key, Resource>,
                         resource: Resource)
    requires IncludedSound(reg, o, data, primary, included0, included)
    requires resource.GetKey() !in included.entries
    requires NewEntryOk(reg, o, data, primary, resource)
    ensures IncludedSound(reg, o, data, primary, included0, included.Set(resource.GetKey(), resource))
    ensures Extends(included, included.Set(resource.GetKey(), resource))
  {
    var key := resource.GetKey();
    var included' := included.Set(key, resource);
    ExtendsBySet(included, key, resource);
    ExtendsTrans(included0, included, included');
  }

  /** A batch within `level - 1` hops whose relator hits `null` or `undefined` data witnesses `MayFail`. */
  lemma FailureReachable(reg: Registry, o: Options, data: seq<Record>, level: nat, records: seq<Record>,
                         src: Src, j: nat)
    requires 0 < level <= o.depth
    requires j < |RelatorsAt(reg, o, src)| && HitsUnreadable(reg, RelatorsAt(reg, o, src)[j], records)
    requires forall p :: p in records ==> Within(reg, o, data, level - 1, p, src)
    ensures MayFail(reg, o, data)
  {
    var rel := RelatorsAt(reg, o, src)[j];
    RelatedDataUnreadable(rel, records);
    var p :| p in records && Unreadable(rel.fetch(p));
    WithinMono(reg, o, data, level - 1, (o.depth - 1) as nat, p, src);
    RelatedDataUnreadable(rel, [p]);
    assert HitsUnreadable(reg, rel, [p]);
  }

  /** A relator of a batch that hits `null` or `undefined` data makes the batch fail. */
  lemma BatchFailsAt(reg: Registry, records: seq<Record>, relators: seq<Relator>, j: nat)
    requires j < |relators| && HitsUnreadable(reg, relators[j], records)
    ensures BatchFails(reg, records, relators, |relators|)
  {
  }

  lemma BatchFailsStep(reg: Registry, records: seq<Record>, relators: seq<Relator>, n: nat)
    requires n < |relators| && !BatchFails(reg, records, relators, n)
    requires !HitsUnreadable(reg, relators[n], records)
    ensures !BatchFails(reg, records, relators, n + 1)
  {
  }

  /** Appending a batch keeps what is known of the entries already queued. */
  lemma QueueGrows(reg: Registry, o: Options, data: seq<Record>, queue: seq<(seq<Record>, seq<Relator>)>,
                   srcs: seq<Src>, upto: int, level: nat, batch: seq<Record>, src: Src)
    requires QueueReached(reg, o, data, queue, srcs, upto, level)
    ensures QueueReached(reg, o, data, queue + [(batch, RelatorsAt(reg, o, src))], srcs + [src], upto, level)
  {
  }

  /** Appending a batch within `level` hops keeps the whole queue within `level` hops. */
  lemma QueueGrowsReached(reg: Registry, o: Options, data: seq<Record>, queue: seq<(seq<Record>, seq<Relator>)>,
                          srcs: seq<Src>, level: nat, batch: seq<Record>, src: Src)
    requires QueueReached(reg, o, data, queue, srcs, |queue|, level)
    requires forall r :: r in batch ==> Within(reg, o, data, level, r, src)
    ensures QueueReached(reg, o, data, queue + [(batch, RelatorsAt(reg, o, src))], srcs + [src], |queue| + 1, level)
  {
  }

  /** A batch of records within `level` hops stays so when one more such record joins it. */
  lemma WithinAppend(reg: Registry, o: Options, data: seq<Record>, level: nat, batch: seq<Record>, r: Record, s: Src)
    requires forall x :: x in batch ==> Within(reg, o, data, level, x, s)
    requires Within(reg, o, data, level, r, s)
    ensures forall x :: x in batch + [r] ==> Within(reg, o, data, level, x, s)
  {
  }

  /**
   * The state of the loop over the related data `items` of `rel` after its first `m` elements:
   * `included` has grown soundly from `start` by the resources of `newData`, the records
   * newly included, each within `level` hops.
   */
  ghost predicate ItemsState(reg: Registry, o: Options, data: seq<Record>, primary: InsertionMap<Key, Node>,
                             included0: InsertionMap<Key, Resource>, level: nat, rel: Relator,
                             items: seq<Option<Record>>, m: nat, start: InsertionMap<Key, Resource>,
                             included: InsertionMap<Key, Resource>, newData: seq<Record>)
  {
    && TargetIndex(reg, rel).Some?
    && IncludedSound(reg, o, data, primary, included0, included)
    && start.Valid()
    && Extends(start, included)
    && (forall x :: x in newData ==> Within(reg, o, data, level, x, Target(TargetIndex(reg, rel).value)))
    && Visited(reg, rel, items, m, primary, start, included, newData)
    && included == IncludeAll(reg, rel, start, newData)
  }

  /** One element of the related data goes through `IncludeRelated`; a record it includes joins the next batch. */
  method IncludeItem(reg: Registry, o: Options, data: seq<Record>, primary: InsertionMap<Key, Node>,
                     included0: InsertionMap<Key, Resource>, ghost start: InsertionMap<Key, Resource>,
                     ghost level: nat, rel: Relator, items: seq<Option<Record>>, m: nat,
                     included: InsertionMap<Key, Resource>, newData: seq<Record>)
    returns (included': InsertionMap<Key, Resource>, newData': seq<Record>)
    requires 0 < level <= o.depth && TargetIndex(reg, rel).Some?
    requires m < |items| && items[m].Some?
    requires Within(reg, o, data, level, items[m].value, Target(TargetIndex(reg, rel).value))
    requires ItemsState(reg, o, data, primary, included0, level, rel, items, m, start, included, newData)
    ensures ItemsState(reg, o, data, primary, included0, level, rel, items, m + 1, start, included', newData')
  {
    var index := TargetIndex(reg, rel).value;
    var datum := items[m].value;
    var added;
    included', added := IncludeRelated(reg, o, data, primary, included0, included, level, index, datum);
    CoveredKeysGrow(primary, included, included');
    newData' := newData;
    if added {
      WithinAppend(reg, o, data, level, newData, datum, Target(index));
      newData' := newData + [datum];
    }
    VisitedStep(reg, rel, items, m, primary, start, included, included', newData, newData', added);
    IncludedAllStep(reg, rel, start, newData, included, datum, added, included', newData');
  }

  /**
   * The loop over the related data of one relator for one queued batch: every related
   * record goes through `IncludeRelated`, and the records included are returned as the
   * next batch. A `null` or `undefined` element makes `createResource` throw (`failed`).
   */
  method IncludeRelatedData(reg: Registry, o: Options, data: seq<Record>, primary: InsertionMap<Key, Node>,
                            included0: InsertionMap<Key, Resource>, included: InsertionMap<Key, Resource>,
                            ghost level: nat, records: seq<Record>, relators: seq<Relator>, ghost src: Src, j: nat)
    returns (included': InsertionMap<Key, Resource>, newData: seq<Record>, failed: bool)
    requires 0 < level <= o.depth
    requires relators == RelatorsAt(reg, o, src)
    requires j < |relators| && TargetIndex(reg, relators[j]).Some?
    requires forall p :: p in records ==> Within(reg, o, data, level - 1, p, src)
    requires IncludedSound(reg, o, data, primary, included0, included)
    ensures IncludedSound(reg, o, data, primary, included0, included')
    ensures Extends(included, included')
    ensures forall x :: x in newData ==> Within(reg, o, data, level, x, Target(TargetIndex(reg, relators[j]).value))
    ensures failed <==> HitsUnreadable(reg, relators[j], records)
    ensures !failed ==> newData == NewlyIncluded(reg, relators[j], RelatedData(relators[j], records),
                                                 CoveredKeys(primary, included))
    ensures !failed ==>
      CoveredKeys(primary, included') ==
        CoveredKeys(primary, included) + ItemKeys(reg, relators[j], RelatedData(relators[j], records))
    ensures !failed ==> included' == IncludeAll(reg, relators[j], included, newData)
  {
    var rel := relators[j];
    var index := TargetIndex(reg, rel).value;
    var relatedData := RelatedData(rel, records);
    forall x | Some(x) in relatedData
      ensures Within(reg, o, data, level, x, Target(index))
    {
      ReachedByStep(reg, o, data, level, records, src, j, x);
    }
    included', newData, failed := IncludeItems(reg, o, data, primary, included0, included, level, rel, relatedData);
  }

  /**
   * The related data `items` of `rel`, when there is any, go through `IncludeRelated` one by one
   * until the first `null` or `undefined` element; `newData` are the records included.
   */
  method IncludeItems(reg: Registry, o: Options, data: seq<Record>, primary: InsertionMap<Key, Node>,
                      included0: InsertionMap<Key, Resource>, included: InsertionMap<Key, Resource>,
                      ghost level: nat, rel: Relator, items: seq<Option<Record>>)
    returns (included': InsertionMap<Key, Resource>, newData: seq<Record>, failed: bool)
    requires 0 < level <= o.depth && TargetIndex(reg, rel).Some?
    requires forall x :: Some(x) in items ==> Within(reg, o, data, level, x, Target(TargetIndex(reg, rel).value))
    requires IncludedSound(reg, o, data, primary, included0, included)
    ensures IncludedSound(reg, o, data, primary, included0, included')
    ensures Extends(included, included')
    ensures forall x :: x in newData ==> Within(reg, o, data, level, x, Target(TargetIndex(reg, rel).value))
    ensures failed <==> None in items
    ensures !failed ==> newData == NewlyIncluded(reg, rel, items, CoveredKeys(primary, included))
    ensures !failed ==> CoveredKeys(primary, included') == CoveredKeys(primary, included) + ItemKeys(reg, rel, items)
    ensures !failed ==> included' == IncludeAll(reg, rel, included, newData)
  {
    included', newData, failed := included, [], false;
    if |items| > 0 {
      for m := 0 to |items|
        invariant ItemsState(reg, o, data, primary, included0, level, rel, items, m, included, included', newData)
      {
        if items[m].None? {
          failed := true;
          return;
        }
        included', newData := IncludeItem(reg, o, data, primary, included0, included, level, rel, items, m,
                                          included', newData);
      }
    }
    assert items[..|items|] == items;
  }

  /**
   * One relator applied to one queued batch: its related data is included, and the records
   * newly included are queued with the related serializer's relators when there are both.
   */
  method VisitRelator(reg: Registry, o: Options, data: seq<Record>, primary: InsertionMap<Key, Node>,
                      included0: InsertionMap<Key, Resource>, included: InsertionMap<Key, Resource>,
                      ghost level: nat, records: seq<Record>, relators: seq<Relator>, ghost src: Src, j: nat,
                      queue: seq<(seq<Record>, seq<Relator>)>, ghost srcs: seq<Src>, ghost len: nat,
                      ghost covered0: set<Key>, ghost queue0: seq<(seq<Record>, seq<Relator>)>,
                      ghost start: InsertionMap<Key, Resource>)
    returns (included': InsertionMap<Key, Resource>, newData: seq<Record>,
             queue': seq<(seq<Record>, seq<Relator>)>, ghost srcs': seq<Src>, failed: bool)
    requires WalkState(reg, o, data, primary, included0, level, len, queue, srcs, included)
    requires relators == RelatorsAt(reg, o, src)
    requires j < |relators| && TargetIndex(reg, relators[j]).Some?
    requires forall p :: p in records ==> Within(reg, o, data, level - 1, p, src)
    requires BatchTracked(reg, records, relators, j, covered0, CoveredKeys(primary, included), queue0, queue, start, included)
    ensures WalkState(reg, o, data, primary, included0, level, len, queue', srcs', included')
    ensures Extends(included, included')
    ensures queue <= queue' && srcs <= srcs' && |queue'| == |srcs'|
    ensures failed <==> HitsUnreadable(reg, relators[j], records)
    ensures !failed ==> newData == NewlyIncluded(reg, relators[j], RelatedData(relators[j], records),
                                                 CoveredKeys(primary, included))
    ensures !failed ==>
      CoveredKeys(primary, included') ==
        CoveredKeys(primary, included) + ItemKeys(reg, relators[j], RelatedData(relators[j], records))
    ensures !failed ==> included' == IncludeAll(reg, relators[j], included, newData)
    ensures !failed ==>
      var target := reg[TargetIndex(reg, relators[j]).value];
      queue' == queue + if |newData| > 0 && target.options.relators.Some?
        then [(newData, target.options.relators.value)] else []
    ensures !failed ==>
      BatchTracked(reg, records, relators, j + 1, covered0, CoveredKeys(primary, included'), queue0, queue', start, included')
  {
    var index := TargetIndex(reg, relators[j]).value;
    included', newData, failed := IncludeRelatedData(reg, o, data, primary, included0, included, level, records, relators, src, j);
    queue', srcs' := queue, srcs;
    if failed {
      return;
    }
    queue', srcs' := Enqueue(reg, o, data, queue, srcs, len, level, index, newData);
    BatchTrackedVisit(reg, records, relators, j, covered0, CoveredKeys(primary, included),
                      CoveredKeys(primary, included'), queue0, queue, queue', newData, start, included, included');
  }

  /**
   * The records newly included through serializer `index` are queued with that
   * serializer's relators, when there are both.
   */
  method Enqueue(reg: Registry, o: Options, data: seq<Record>, queue: seq<(seq<Record>, seq<Relator>)>,
                 ghost srcs: seq<Src>, ghost len: nat, ghost level: nat, index: nat, newData: seq<Record>)
    returns (queue': seq<(seq<Record>, seq<Relator>)>, ghost srcs': seq<Src>)
    requires 0 < level && index < |reg| && len <= |queue|
    requires QueueReached(reg, o, data, queue, srcs, len, level - 1)
    requires QueueReached(reg, o, data, queue, srcs, |queue|, level)
    requires forall x :: x in newData ==> Within(reg, o, data, level, x, Target(index))
    ensures queue <= queue' && srcs <= srcs' && |queue'| == |srcs'|
    ensures QueueReached(reg, o, data, queue', srcs', len, level - 1)
    ensures QueueReached(reg, o, data, queue', srcs', |queue'|, level)
    ensures queue' == queue + if |newData| > 0 && reg[index].options.relators.Some?
      then [(newData, reg[index].options.relators.value)] else []
  {
    queue', srcs' := queue, srcs;
    var serializer := reg[index];
    if |newData| > 0 && serializer.options.relators.Some? {
      ghost var target := Target(index);
      assert serializer.options.relators.value == RelatorsAt(reg, o, target);
      QueueGrows(reg, o, data, queue, srcs, len, level - 1, newData, target);
      QueueGrowsReached(reg, o, data, queue, srcs, level, newData, target);
      queue' := queue + [(newData, serializer.options.relators.value)];
      srcs' := srcs + [target];
    }
  }

  /**
   * After the first `m` elements of the related data, none of which was `null` or
   * `undefined`, the records the walk included are exactly the ones `NewlyIncluded`
   * names, in order, and the keys of all `m` are present.
   */
  ghost predicate Visited(reg: Registry, rel: Relator, items: seq<Option<Record>>, m: nat,
                          primary: InsertionMap<Key, Node>, included: InsertionMap<Key, Resource>,
                          included': InsertionMap<Key, Resource>, newData: seq<Record>)
  {
    && TargetIndex(reg, rel).Some?
    && m <= |items|
    && None !in items[..m]
    && newData == NewlyIncluded(reg, rel, items[..m], CoveredKeys(primary, included))
    && CoveredKeys(primary, included') == CoveredKeys(primary, included) + ItemKeys(reg, rel, items[..m])
  }

  lemma VisitedStep(reg: Registry, rel: Relator, items: seq<Option<Record>>, m: nat,
                    primary: InsertionMap<Key, Node>, included: InsertionMap<Key, Resource>,
                    before: InsertionMap<Key, Resource>, after: InsertionMap<Key, Resource>,
                    newData0: seq<Record>, newData: seq<Record>, added: bool)
    requires Visited(reg, rel, items, m, primary, included, before, newData0)
    requires m < |items| && items[m].Some?
    requires var k := TargetKey(reg, rel, items[m].value);
      && (added <==> k !in CoveredKeys(primary, before))
      && CoveredKeys(primary, after) == CoveredKeys(primary, before) + {k}
    requires newData == if added then newData0 + [items[m].value] else newData0
    ensures Visited(reg, rel, items, m + 1, primary, included, after, newData)
  {
    assert None !in items[..m + 1] by {
      assert items[..m + 1] == items[..m] + [items[m]];
    }
    NewlyIncludedStep(reg, rel, items, m, CoveredKeys(primary, included));
  }

  /**
   * The keys present after the first `n` relators of a batch have been visited, starting
   * from `covered`: a relator with a related serializer adds the keys of its related data.
   */
  function CoveredAfter(reg: Registry, records: seq<Record>, relators: seq<Relator>, n: nat, covered: set<Key>): set<Key>
    requires n <= |relators|
  {
    if n == 0 then covered
    else CoveredAfter(reg, records, relators, n - 1, covered) + RelatorKeys(reg, records, relators[n - 1])
  }

  /** The keys a relator with a related serializer adds for a batch: those of its related data. */
  function RelatorKeys(reg: Registry, records: seq<Record>, rel: Relator): set<Key>
  {
    if TargetIndex(reg, rel).Some? then ItemKeys(reg, rel, RelatedData(rel, records)) else {}
  }

  /**
   * The queue entries the first `n` relators of a batch append, starting from `covered`:
   * for each relator with a related serializer, the records it newly includes together
   * with that serializer's relators, when there are such records and relators.
   */
  function QueuedAfter(reg: Registry, records: seq<Record>, relators: seq<Relator>, n: nat, covered: set<Key>)
    : seq<(seq<Record>, seq<Relator>)>
    requires n <= |relators|
  {
    if n == 0 then []
    else
      var rel := relators[n - 1];
      QueuedAfter(reg, records, relators, n - 1, covered) +
        if TargetIndex(reg, rel).None? then []
        else
          var target := reg[TargetIndex(reg, rel).value];
          var newData := NewlyIncluded(reg, rel, RelatedData(rel, records),
                                       CoveredAfter(reg, records, relators, n - 1, covered));
          if |newData| > 0 && target.options.relators.Some? then [(newData, target.options.relators.value)] else []
  }

  /**
   * `included` after the first `n` relators of a batch have been visited, starting from
   * `included` with the keys `covered` present: each relator with a related serializer
   * appends, in order, the resources of the records it newly includes.
   */
  function IncludedAfter(reg: Registry, records: seq<Record>, relators: seq<Relator>, n: nat, covered: set<Key>,
                         included: InsertionMap<Key, Resource>): (r: InsertionMap<Key, Resource>)
    requires n <= |relators| && included.Valid()
    ensures r.Valid()
  {
    if n == 0 then included
    else
      var rel := relators[n - 1];
      var prev := IncludedAfter(reg, records, relators, n - 1, covered, included);
      if TargetIndex(reg, rel).None? then prev
      else IncludeAll(reg, rel, prev, NewlyIncluded(reg, rel, RelatedData(rel, records),
                                                    CoveredAfter(reg, records, relators, n - 1, covered)))
  }

  /**
   * One queued batch at walk level `level`: every relator of the batch with a related
   * serializer is visited in order, and each non-empty batch of newly included records
   * whose serializer has relators is appended to the queue.
   */
  method VisitBatch(reg: Registry, o: Options, data: seq<Record>, primary: InsertionMap<Key, Node>,
                    included0: InsertionMap<Key, Resource>, included: InsertionMap<Key, Resource>,
                    ghost level: nat, queue: seq<(seq<Record>, seq<Relator>)>, ghost srcs: seq<Src>,
                    i: nat, ghost len: nat)
    returns (included': InsertionMap<Key, Resource>, queue': seq<(seq<Record>, seq<Relator>)>,
             ghost srcs': seq<Src>, failed: bool)
    requires i < len
    requires WalkState(reg, o, data, primary, included0, level, len, queue, srcs, included)
    ensures queue <= queue' && srcs <= srcs' && |queue'| == |srcs'|
    ensures WalkState(reg, o, data, primary, included0, level, len, queue', srcs', included')
    ensures Extends(included, included')
    ensures failed ==> MayFail(reg, o, data)
    ensures failed <==> BatchFails(reg, queue[i].0, queue[i].1, |queue[i].1|)
    ensures !failed ==> RelatorsCovered(reg, queue[i].0, queue[i].1, |queue[i].1|, CoveredKeys(primary, included'))
    ensures !failed ==>
      BatchTracked(reg, queue[i].0, queue[i].1, |queue[i].1|, CoveredKeys(primary, included), CoveredKeys(primary, included'),
                   queue, queue', included, included')
  {
    var (records, relators) := queue[i];
    ghost var src := srcs[i];
    assert relators == RelatorsAt(reg, o, src);
    assert forall p :: p in records ==> Within(reg, o, data, level - 1, p, src);
    included', queue', srcs', failed := VisitRelators(reg, o, data, primary, included0, included, level, records, relators,
                                                      src, queue, srcs, len);
  }

  /** The relators of one batch, visited in order until one hits `null` or `undefined` data. */
  method VisitRelators(reg: Registry, o: Options, data: seq<Record>, primary: InsertionMap<Key, Node>,
                       included0: InsertionMap<Key, Resource>, included: InsertionMap<Key, Resource>,
                       ghost level: nat, records: seq<Record>, relators: seq<Relator>, ghost src: Src,
                       queue: seq<(seq<Record>, seq<Relator>)>, ghost srcs: seq<Src>, ghost len: nat)
    returns (included': InsertionMap<Key, Resource>, queue': seq<(seq<Record>, seq<Relator>)>,
             ghost srcs': seq<Src>, failed: bool)
    requires WalkState(reg, o, data, primary, included0, level, len, queue, srcs, included)
    requires relators == RelatorsAt(reg, o, src)
    requires forall p :: p in records ==> Within(reg, o, data, level - 1, p, src)
    ensures queue <= queue' && srcs <= srcs' && |queue'| == |srcs'|
    ensures WalkState(reg, o, data, primary, included0, level, len, queue', srcs', included')
    ensures Extends(included, included')
    ensures failed ==> MayFail(reg, o, data)
    ensures failed <==> BatchFails(reg, records, relators, |relators|)
    ensures !failed ==> RelatorsCovered(reg, records, relators, |relators|, CoveredKeys(primary, included'))
    ensures !failed ==>
      BatchTracked(reg, records, relators, |relators|, CoveredKeys(primary, included), CoveredKeys(primary, included'),
                   queue, queue', included, included')
  {
    included', queue', srcs', failed := included, queue, srcs, false;
    for j := 0 to |relators|
      invariant queue <= queue' && srcs <= srcs' && |queue'| == |srcs'|
      invariant WalkState(reg, o, data, primary, included0, level, len, queue', srcs', included')
      invariant Extends(included, included')
      invariant !BatchFails(reg, records, relators, j)
      invariant BatchTracked(reg, records, relators, j, CoveredKeys(primary, included), CoveredKeys(primary, included'),
                             queue, queue', included, included')
    {
      var hit;
      included', queue', srcs', hit :=
        VisitAt(reg, o, data, primary, included0, included', level, records, relators, src, j, queue', srcs', len,
                CoveredKeys(primary, included), queue, included);
      if hit {
        BatchFailsAt(reg, records, relators, j);
        failed := true;
        return;
      }
      BatchFailsStep(reg, records, relators, j);
    }
    CoveredAfterCovers(reg, records, relators, |relators|, CoveredKeys(primary, included));
  }

  /**
   * One relator of a batch: skipped when it has no related serializer, visited otherwise; a visit
   * that hits `null` or `undefined` data fails the walk.
   */
  method VisitAt(reg: Registry, o: Options, data: seq<Record>, primary: InsertionMap<Key, Node>,
                 included0: InsertionMap<Key, Resource>, included: InsertionMap<Key, Resource>,
                 ghost level: nat, records: seq<Record>, relators: seq<Relator>, ghost src: Src, j: nat,
                 queue: seq<(seq<Record>, seq<Relator>)>, ghost srcs: seq<Src>, ghost len: nat,
                 ghost covered0: set<Key>, ghost queue0: seq<(seq<Record>, seq<Relator>)>,
                 ghost start: InsertionMap<Key, Resource>)
    returns (included': InsertionMap<Key, Resource>, queue': seq<(seq<Record>, seq<Relator>)>,
             ghost srcs': seq<Src>, failed: bool)
    requires WalkState(reg, o, data, primary, included0, level, len, queue, srcs, included)
    requires relators == RelatorsAt(reg, o, src) && j < |relators|
    requires forall p :: p in records ==> Within(reg, o, data, level - 1, p, src)
    requires BatchTracked(reg, records, relators, j, covered0, CoveredKeys(primary, included), queue0, queue, start, included)
    ensures WalkState(reg, o, data, primary, included0, level, len, queue', srcs', included')
    ensures Extends(included, included')
    ensures queue <= queue' && srcs <= srcs' && |queue'| == |srcs'|
    ensures failed <==> HitsUnreadable(reg, relators[j], records)
    ensures failed ==> MayFail(reg, o, data)
    ensures !failed ==>
      BatchTracked(reg, records, relators, j + 1, covered0, CoveredKeys(primary, included'), queue0, queue', start, included')
  {
    var serializer := RelatedSerializer(reg, relators[j]);
    if serializer.None? {
      BatchTrackedSkip(reg, records, relators, j, covered0, CoveredKeys(primary, included), queue0, queue, start, included);
      return included, queue, srcs, false;
    }
    var newData;
    included', newData, queue', srcs', failed :=
      VisitRelator(reg, o, data, primary, included0, included, level, records, relators, src, j, queue, srcs, len,
                   covered0, queue0, start);
    if failed {
      FailureReachable(reg, o, data, level, records, src, j);
    }
  }

  /** Every related record of an element of the related data has its key among `ItemKeys`. */
  lemma {:induction false} ItemKeysHas(reg: Registry, rel: Relator, items: seq<Option<Record>>, x: Record)
    requires TargetIndex(reg, rel).Some? && Some(x) in items
    ensures TargetKey(reg, rel, x) in ItemKeys(reg, rel, items)
    decreases |items|
  {
    var init := items[..|items| - 1];
    assert items == init + [items[|items| - 1]];
    if items[|items| - 1] != Some(x) {
      ItemKeysHas(reg, rel, init, x);
    }
  }

  /** The keys of the related data of each of the first `n` relators are among the keys `CoveredAfter` gives. */
  lemma {:induction false} CoveredAfterHas(reg: Registry, records: seq<Record>, relators: seq<Relator>, n: nat,
                                           covered0: set<Key>, l: nat)
    requires l < n <= |relators|
    ensures RelatorKeys(reg, records, relators[l]) <= CoveredAfter(reg, records, relators, n, covered0)
    decreases n
  {
    assert CoveredAfter(reg, records, relators, n, covered0) ==
      CoveredAfter(reg, records, relators, n - 1, covered0) + RelatorKeys(reg, records, relators[n - 1]);
    if l < n - 1 {
      CoveredAfterHas(reg, records, relators, n - 1, covered0, l);
    }
  }

  /** The keys `CoveredAfter` gives cover every record related to the batch by the first `n` relators. */
  lemma CoveredAfterCovers(reg: Registry, records: seq<Record>, relators: seq<Relator>, n: nat, covered0: set<Key>)
    requires n <= |relators|
    ensures RelatorsCovered(reg, records, relators, n, CoveredAfter(reg, records, relators, n, covered0))
  {
    forall l, x | 0 <= l < n && TargetIndex(reg, relators[l]).Some? && Some(x) in RelatedData(relators[l], records)
      ensures TargetKey(reg, relators[l], x) in CoveredAfter(reg, records, relators, n, covered0)
    {
      CoveredAfterHas(reg, records, relators, n, covered0, l);
      ItemKeysHas(reg, relators[l], RelatedData(relators[l], records), x);
    }
  }

  /**
   * After the first `j` relators of a batch, the present keys and the queue are the ones
   * `CoveredAfter` and `QueuedAfter` give.
   */
  ghost predicate BatchTracked(reg: Registry, records: seq<Record>, relators: seq<Relator>, j: nat,
                               covered0: set<Key>, covered: set<Key>,
                               queue: seq<(seq<Record>, seq<Relator>)>, queue': seq<(seq<Record>, seq<Relator>)>,
                               start: InsertionMap<Key, Resource>, now: InsertionMap<Key, Resource>)
  {
    && j <= |relators|
    && start.Valid()
    && now == IncludedAfter(reg, records, relators, j, covered0, start)
    && covered == CoveredAfter(reg, records, relators, j, covered0)
    && queue' == queue + QueuedAfter(reg, records, relators, j, covered0)
  }

  /** A relator without a related serializer changes neither the present keys nor the queue. */
  lemma BatchTrackedSkip(reg: Registry, records: seq<Record>, relators: seq<Relator>, j: nat,
                         covered0: set<Key>, covered: set<Key>,
                         queue: seq<(seq<Record>, seq<Relator>)>, queue': seq<(seq<Record>, seq<Relator>)>,
                         start: InsertionMap<Key, Resource>, now: InsertionMap<Key, Resource>)
    requires BatchTracked(reg, records, relators, j, covered0, covered, queue, queue', start, now)
    requires j < |relators| && TargetIndex(reg, relators[j]).None?
    ensures BatchTracked(reg, records, relators, j + 1, covered0, covered, queue, queue', start, now)
  {
  }

  /** A visited relator adds the keys of its related data and queues the records it newly included. */
  lemma BatchTrackedVisit(reg: Registry, records: seq<Record>, relators: seq<Relator>, j: nat,
                          covered0: set<Key>, covered: set<Key>, covered': set<Key>,
                          queue: seq<(seq<Record>, seq<Relator>)>, queue1: seq<(seq<Record>, seq<Relator>)>,
                          queue2: seq<(seq<Record>, seq<Relator>)>, newData: seq<Record>,
                          start: InsertionMap<Key, Resource>, now: InsertionMap<Key, Resource>,
                          now': InsertionMap<Key, Resource>)
    requires BatchTracked(reg, records, relators, j, covered0, covered, queue, queue1, start, now)
    requires j < |relators| && TargetIndex(reg, relators[j]).Some?
    requires newData == NewlyIncluded(reg, relators[j], RelatedData(relators[j], records), covered)
    requires covered' == covered + ItemKeys(reg, relators[j], RelatedData(relators[j], records))
    requires var target := reg[TargetIndex(reg, relators[j]).value];
      queue2 == queue1 + if |newData| > 0 && target.options.relators.Some?
        then [(newData, target.options.relators.value)] else []
    requires now' == IncludeAll(reg, relators[j], now, newData)
    ensures BatchTracked(reg, records, relators, j + 1, covered0, covered', queue, queue2, start, now')
  {
    assert covered == CoveredAfter(reg, records, relators, j, covered0);
  }

  /**
   * `recurseResources`: nothing happens when `depth <= 0` or no relators are set; otherwise
   * a queue seeded with the primary records and the call's relators is walked level by
   * level, at most `depth` times. The queue is never dequeued: every level re-walks all
   * entries queued so far, starting with the primary records. `failed` is the walk
   * throwing on related data that is `null` or `undefined`.
   */
  method RecurseResources(reg: Registry, o: Options, data: seq<Record>, primary: InsertionMap<Key, Node>,
                          included0: InsertionMap<Key, Resource>)
    returns (included: InsertionMap<Key, Resource>, failed: bool)
    requires included0.Valid() && KeyedResources(included0)
    ensures (o.depth <= 0 || o.relators.None?) ==> included == included0 && !failed
    ensures IncludedSound(reg, o, data, primary, included0, included)
    ensures failed ==> MayFail(reg, o, data)
    ensures RootFails(reg, o, data) ==> failed
    ensures !failed && o.depth >= 1 ==> RootCovered(reg, o, data, CoveredKeys(primary, included))
  {
    included, failed := included0, false;
    if o.depth <= 0 || o.relators.None? {
      return;
    }
    var rels := o.relators.value;
    var queue: seq<(seq<Record>, seq<Relator>)> := [(data, rels)];
    ghost var srcs: seq<Src> := [Root];
    var depth := o.depth;
    ghost var level: nat := 0;
    while |queue| > 0 && depth > 0
      invariant 0 <= depth && level + depth == o.depth
      invariant |queue| > 0 && |srcs| == |queue| && queue[0] == (data, rels) && srcs[0] == Root
      invariant QueueReached(reg, o, data, queue, srcs, |queue|, level)
      invariant IncludedSound(reg, o, data, primary, included0, included)
      invariant level >= 1 ==> !RootFails(reg, o, data)
      invariant level >= 1 ==> RootCovered(reg, o, data, CoveredKeys(primary, included))
      decreases depth
    {
      depth, level := depth - 1, level + 1;
      var len := |queue|;
      for i := 0 to len
        invariant len <= |queue| == |srcs| && queue[0] == (data, rels) && srcs[0] == Root
        invariant QueueReached(reg, o, data, queue, srcs, len, level - 1)
        invariant QueueReached(reg, o, data, queue, srcs, |queue|, level)
        invariant IncludedSound(reg, o, data, primary, included0, included)
        invariant level > 1 || i > 0 ==> !RootFails(reg, o, data)
        invariant level > 1 || i > 0 ==> RootCovered(reg, o, data, CoveredKeys(primary, included))
      {
        ghost var before := included;
        ghost var queue0 := queue;
        var hit;
        included, queue, srcs, hit := VisitBatch(reg, o, data, primary, included0, included, level, queue, srcs, i, len);
        if hit {
          failed := true;
          return;
        }
        assert queue[0] == queue0[0];
        CoveredKeysGrow(primary, before, included);
        if level > 1 || i > 0 {
          RelatorsCoveredGrows(reg, data, rels, |rels|, CoveredKeys(primary, before), CoveredKeys(primary, included));
        }
      }
    }
  }
}
