/**
 * `Serializer.serialize`: option layering and validation, the choice between the
 * null-data, identifier-only, relationship-only, as-included and default modes, and
 * the shaping of top-level `data` and `included`.
 */
module Serialization {
  import opened Wrappers
  import opened JsonApi
  import opened InsertionMaps
  import opened Configuration
  import opened Builders
  import opened Traversal

  /** What the caller passes as data: `undefined`, `null`, one record or a collection. */
  datatype Input = Absent | NullInput | One(record: Record) | Collection(records: seq<Record>)

  /** The host-language class of a thrown error. */
  datatype ErrorClass = RangeError | TypeError

  /** The exceptions `serialize` throws. */
  datatype Error =
    | DepthError | MissingDataError | RelatorsUndefinedError | MultipleDataError | UnknownRelationshipError
    | RelatedDataError
  {
    function Class(): ErrorClass
    {
      if DepthError? then RangeError else TypeError
    }

    function Message(): string
    {
      match this
      case DepthError => "\"depth\" must be greater than or equal to 0"
      case MissingDataError => "Data or a \"document\" metaizer must be given"
      case RelatorsUndefinedError => "\"relators\" must be defined when using \"onlyRelationship\""
      case MultipleDataError => "Cannot serialize multiple primary datum using \"onlyRelationship\""
      case UnknownRelationshipError =>
        "\"onlyRelationship\" is not the name of any collection name among the relators listed in \"relators\""
      case RelatedDataError => "related data is null or undefined"
    }
  }

  /** Host-language truthiness of the data argument: a record or a collection (even empty). */
  predicate Truthy(data: Input)
  {
    data.One? || data.Collection?
  }

  /** The data normalised to a list of records. */
  function Records(data: Input): seq<Record>
  {
    match data
    case One(r) => [r]
    case Collection(rs) => rs
    case _ => []
  }

  /** The keys the input records get under a serializer. */
  function InputKeys(collectionName: string, o: Options, records: seq<Record>): set<Key>
  {
    set r | r in records :: KeyOf(collectionName, o, r)
  }

  /** The keys of the document's `included` member; none when it is absent. */
  function IncludedKeys(doc: Document): set<Key>
  {
    if doc.included.Some? then ResourceKeys(doc.included.value) else {}
  }

  /** The `jsonapi` member: the version, when a truthy version string is configured. */
  function VersionMember(o: Options): Option<string>
  {
    if TruthyString(o.version) then o.version else None
  }

  predicate OnlyIdentifiers(d: PrimaryData)
  {
    forall n :: n in DataNodes(d) ==> n.IdentifierNode?
  }

  /** Every entry of the `primary` dictionary is stored under its own key. */
  ghost predicate KeyedNodes(m: InsertionMap<Key, Node>)
  {
    forall k :: k in m.entries ==> m.entries[k].GetKey() == k
  }

  /**
   * `getArray(relators).find(...)`: the first relator whose related serializer has the
   * given collection name.
   */
  function FindRelator(reg: Registry, rels: seq<Relator>, name: string): (j: Option<nat>)
    ensures j.Some? ==> j.value < |rels| && RelatedName(reg, rels[j.value]) == Some(name)
    ensures j.Some? ==> forall i :: 0 <= i < j.value ==> RelatedName(reg, rels[i]) != Some(name)
    ensures j.None? ==> forall i :: 0 <= i < |rels| ==> RelatedName(reg, rels[i]) != Some(name)
    decreases |rels|
  {
    if rels == [] then None
    else if RelatedName(reg, rels[0]) == Some(name) then Some(0)
    else
      match FindRelator(reg, rels[1..], name)
      case None => None
      case Some(j) => Some(j + 1)
  }

  /**
   * Top-level `data` from the `primary` dictionary: its first value or `null` for
   * singular data, the list of its values otherwise.
   */
  function ShapeData(primary: InsertionMap<Key, Node>, singular: bool): (d: PrimaryData)
    requires primary.Valid() && KeyedNodes(primary)
    requires singular ==> primary.Size() <= 1
    ensures singular && primary.Size() == 0 ==> d.NullData?
    ensures singular && primary.Size() == 1 ==> d.Single?
    ensures !singular ==> d.Many?
    ensures |DataNodes(d)| == primary.Size()
    ensures forall i :: 0 <= i < |DataNodes(d)| ==> DataNodes(d)[i] == primary.entries[primary.order[i]]
    ensures forall n :: n in DataNodes(d) ==> n.GetKey() in primary.entries && primary.entries[n.GetKey()] == n
    ensures DataKeys(d) == primary.entries.Keys
    ensures NodeKeySeq(DataNodes(d)) == primary.order
    ensures DistinctNodes(DataNodes(d))
  {
    var vs := primary.Values();
    NodesKeyed(primary);
    if primary.Size() > 0 then (if singular then Single(vs[0]) else Many(vs))
    else (if singular then NullData else Many([]))
  }

  /** The values of a keyed `primary` dictionary, in order, carry the keys of the key order. */
  lemma NodesKeyed(primary: InsertionMap<Key, Node>)
    requires primary.Valid() && KeyedNodes(primary)
    ensures forall i :: 0 <= i < primary.Size() ==> primary.Values()[i].GetKey() == primary.order[i]
    ensures forall n :: n in primary.Values() ==> n.GetKey() in primary.entries && primary.entries[n.GetKey()] == n
    ensures (set n | n in primary.Values() :: n.GetKey()) == primary.entries.Keys
    ensures DistinctNodes(primary.Values())
  {
  }

  /** The position of a key in the key order. */
  function IndexOf(order: seq<Key>, k: Key): (i: nat)
    requires k in order
    ensures i < |order| && order[i] == k
  {
    if order[0] == k then 0 else 1 + IndexOf(order[1..], k)
  }

  /** The values of a keyed `included` dictionary, in order, carry each of its keys once. */
  lemma ResourcesKeyedValues(included: InsertionMap<Key, Resource>)
    requires included.Valid() && KeyedResources(included)
    ensures forall x :: x in included.Values() ==> x.GetKey() in included.entries && included.entries[x.GetKey()] == x
    ensures ResourceKeys(included.Values()) == included.entries.Keys
    ensures DistinctResources(included.Values())
  {
    var vs := included.Values();
    forall k | k in included.entries ensures k in ResourceKeys(vs) {
      assert k == vs[IndexOf(included.order, k)].GetKey();
    }
  }

  /**
   * The `included` member: the values of the `included` dictionary in insertion order,
   * each stored under its own key, absent when there are none.
   */
  function IncludedMember(included: InsertionMap<Key, Resource>): (r: Option<seq<Resource>>)
    requires included.Valid() && KeyedResources(included)
    ensures r.Some? <==> included.Size() > 0
    ensures r.Some? ==> r.value == included.Values()
    ensures r.Some? ==> ResourceKeySeq(r.value) == included.order
    ensures r.Some? ==> forall x :: x in r.value ==> x.GetKey() in included.entries && included.entries[x.GetKey()] == x
    ensures r.Some? ==> ResourceKeys(r.value) == included.entries.Keys && DistinctResources(r.value)
  {
    ResourcesKeyedValues(included);
    if included.Size() > 0 then Some(included.Values()) else None
  }

  /** The resources of the document's `included` member; none when it is absent. */
  function IncludedList(doc: Document): seq<Resource>
  {
    if doc.included.Some? then doc.included.value else []
  }

  /** The keys of the records under a serializer, in record order. */
  function RecordKeys(collectionName: string, o: Options, records: seq<Record>): seq<Key>
  {
    seq(|records|, i requires 0 <= i < |records| => KeyOf(collectionName, o, records[i]))
  }

  /** The keys of a list of resources, in order. */
  function ResourceKeySeq(resources: seq<Resource>): seq<Key>
  {
    seq(|resources|, i requires 0 <= i < |resources| => resources[i].GetKey())
  }

  /** The keys of a list of data elements, in order. */
  function NodeKeySeq(nodes: seq<Node>): seq<Key>
  {
    seq(|nodes|, i requires 0 <= i < |nodes| => nodes[i].GetKey())
  }

  /** The keys of a list of identifiers. */
  function IdentifierKeys(identifiers: seq<Identifier>): set<Key>
  {
    set i | i in identifiers :: i.GetKey()
  }

  /** The keys of a list of identifiers, in order. */
  function IdentifierKeySeq(identifiers: seq<Identifier>): seq<Key>
  {
    seq(|identifiers|, i requires 0 <= i < |identifiers| => identifiers[i].GetKey())
  }

  /**
   * `res` is the resource the serializer builds from the last record carrying its key:
   * the one a dictionary keeps when every record's resource is set under its key in turn.
   */
  ghost predicate RendersLast(reg: Registry, collectionName: string, o: Options, records: seq<Record>, res: Resource)
  {
    var i := LastIndex(RecordKeys(collectionName, o, records), res.GetKey());
    i.Some? && res == ResourceOf(reg, collectionName, o, records[i.value])
  }

  /**
   * Every entry of a dictionary filled from `resources` is the resource at the last
   * position carrying its key.
   */
  ghost predicate KeepsLast(resources: seq<Resource>, m: map<Key, Resource>)
  {
    forall k :: k in m ==>
      && LastIndex(ResourceKeySeq(resources), k).Some?
      && m[k] == resources[LastIndex(ResourceKeySeq(resources), k).value]
  }

  /** As `KeepsLast`, for a `primary` dictionary of full resources. */
  ghost predicate KeepsLastNode(resources: seq<Resource>, m: map<Key, Node>)
  {
    forall k :: k in m ==>
      && LastIndex(ResourceKeySeq(resources), k).Some?
      && m[k] == ResourceNode(resources[LastIndex(ResourceKeySeq(resources), k).value])
  }

  /** A single record has a single key. */
  lemma SingleInputKey(collectionName: string, o: Options, records: seq<Record>)
    requires |records| == 1
    ensures InputKeys(collectionName, o, records) == {KeyOf(collectionName, o, records[0])}
  {
    assert records[0] in records;
  }

  /** Where the last occurrence of each key lies after one more resource is appended. */
  lemma LastIndexStep(resources: seq<Resource>, i: nat, k: Key)
    requires i < |resources|
    ensures LastIndex(ResourceKeySeq(resources[..i + 1]), k) ==
      if resources[i].GetKey() == k then Some(i) else LastIndex(ResourceKeySeq(resources[..i]), k)
  {
    assert ResourceKeySeq(resources[..i + 1]) == ResourceKeySeq(resources[..i]) + [resources[i].GetKey()];
    LastIndexAppend(ResourceKeySeq(resources[..i]), resources[i].GetKey(), k);
  }

  /** Setting the next resource under its key keeps `KeepsLast`. */
  lemma KeepsLastStep(resources: seq<Resource>, i: nat, m: map<Key, Resource>, m': map<Key, Resource>)
    requires i < |resources| && KeepsLast(resources[..i], m)
    requires m' == m[resources[i].GetKey() := resources[i]]
    ensures KeepsLast(resources[..i + 1], m')
  {
    forall k | k in m'
      ensures LastIndex(ResourceKeySeq(resources[..i + 1]), k).Some?
      ensures m'[k] == resources[..i + 1][LastIndex(ResourceKeySeq(resources[..i + 1]), k).value]
    {
      LastIndexStep(resources, i, k);
    }
  }

  /** Setting the next resource under its key keeps `KeepsLastNode`. */
  lemma KeepsLastNodeStep(resources: seq<Resource>, i: nat, m: map<Key, Node>, m': map<Key, Node>)
    requires i < |resources| && KeepsLastNode(resources[..i], m)
    requires m' == m[resources[i].GetKey() := ResourceNode(resources[i])]
    ensures KeepsLastNode(resources[..i + 1], m')
  {
    forall k | k in m'
      ensures LastIndex(ResourceKeySeq(resources[..i + 1]), k).Some?
      ensures m'[k] == ResourceNode(resources[..i + 1][LastIndex(ResourceKeySeq(resources[..i + 1]), k).value])
    {
      LastIndexStep(resources, i, k);
    }
  }

  /** `getIdentifiers` followed by setting each identifier in `primary`. */
  method IdentifierPrimary(collectionName: string, o: Options, records: seq<Record>)
    returns (primary: InsertionMap<Key, Node>)
    ensures primary.Valid() && KeyedNodes(primary)
    ensures primary.entries.Keys == InputKeys(collectionName, o, records)
    ensures primary.order == FirstKeys(RecordKeys(collectionName, o, records))
    ensures forall k :: k in primary.entries ==> primary.entries[k].IdentifierNode?
  {
    primary := EmptyMap();
    for i := 0 to |records|
      invariant IdentifiersFilled(collectionName, o, records[..i], primary)
    {
      var identifier := CreateIdentifier(collectionName, o, records[i]);
      IdentifiersFilledStep(collectionName, o, records[..i], records[i], primary);
      primary := primary.Set(identifier.GetKey(), IdentifierNode(identifier));
      assert records[..i + 1] == records[..i] + [records[i]];
    }
    assert records[..|records|] == records;
  }

  /** `primary` holds the identifiers of `records`, in first-occurrence order of their keys. */
  ghost predicate IdentifiersFilled(collectionName: string, o: Options, records: seq<Record>,
                                    primary: InsertionMap<Key, Node>)
  {
    && primary.Valid() && KeyedNodes(primary)
    && primary.entries.Keys == InputKeys(collectionName, o, records)
    && primary.order == FirstKeys(RecordKeys(collectionName, o, records))
    && forall k :: k in primary.entries ==> primary.entries[k].IdentifierNode?
  }

  lemma IdentifiersFilledStep(collectionName: string, o: Options, records: seq<Record>, r: Record,
                              primary: InsertionMap<Key, Node>)
    requires IdentifiersFilled(collectionName, o, records, primary)
    ensures IdentifiersFilled(collectionName, o, records + [r],
      primary.Set(KeyOf(collectionName, o, r), IdentifierNode(CreateIdentifier(collectionName, o, r))))
  {
    KeysAppend(collectionName, o, records, r);
    IdentifierNodesStep(primary, RecordKeys(collectionName, o, records), CreateIdentifier(collectionName, o, r));
  }

  /** Setting one more identifier under its own key keeps a dictionary of identifiers in first-occurrence order. */
  lemma IdentifierNodesStep(primary: InsertionMap<Key, Node>, keys: seq<Key>, identifier: Identifier)
    requires primary.Valid() && KeyedNodes(primary) && primary.order == FirstKeys(keys)
    requires forall k :: k in primary.entries ==> primary.entries[k].IdentifierNode?
    ensures var primary' := primary.Set(identifier.GetKey(), IdentifierNode(identifier));
      && primary'.Valid() && KeyedNodes(primary')
      && primary'.entries.Keys == primary.entries.Keys + {identifier.GetKey()}
      && primary'.order == FirstKeys(keys + [identifier.GetKey()])
      && forall k :: k in primary'.entries ==> primary'.entries[k].IdentifierNode?
  {
    SetFirstKeys(primary, keys, identifier.GetKey(), IdentifierNode(identifier));
  }

  /** One more record adds its key to the keys of a list of records, and appends it to their sequence. */
  lemma KeysAppend(collectionName: string, o: Options, records: seq<Record>, r: Record)
    ensures InputKeys(collectionName, o, records + [r]) ==
      InputKeys(collectionName, o, records) + {KeyOf(collectionName, o, r)}
    ensures RecordKeys(collectionName, o, records + [r]) ==
      RecordKeys(collectionName, o, records) + [KeyOf(collectionName, o, r)]
  {
  }

  /** Resources built from the records, in order, carry the records' keys in the same order. */
  lemma ResourcesKeyed(reg: Registry, collectionName: string, o: Options, records: seq<Record>,
                       resources: seq<Resource>)
    requires |resources| == |records|
    requires forall i :: 0 <= i < |records| ==> resources[i] == ResourceOf(reg, collectionName, o, records[i])
    ensures ResourceKeySeq(resources) == RecordKeys(collectionName, o, records)
    ensures ResourceKeys(resources) == InputKeys(collectionName, o, records)
  {
    forall k | k in InputKeys(collectionName, o, records) ensures k in ResourceKeys(resources) {
      var r :| r in records && k == KeyOf(collectionName, o, r);
      var i :| 0 <= i < |records| && records[i] == r;
      assert resources[i] in resources;
    }
  }

  /** The resources of the records under a serializer, in order. */
  function ResourcesOf(reg: Registry, collectionName: string, o: Options, records: seq<Record>): seq<Resource>
    decreases |records|
  {
    if records == [] then []
    else
      var init := ResourcesOf(reg, collectionName, o, records[..|records| - 1]);
      init + [ResourceOf(reg, collectionName, o, records[|records| - 1])]
  }

  /** `ResourcesOf` holds one resource per record, each `ResourceOf` of the record at its position. */
  lemma {:induction false} ResourcesOfAt(reg: Registry, collectionName: string, o: Options, records: seq<Record>)
    ensures |ResourcesOf(reg, collectionName, o, records)| == |records|
    ensures forall i :: 0 <= i < |records| ==>
      ResourcesOf(reg, collectionName, o, records)[i] == ResourceOf(reg, collectionName, o, records[i])
    decreases |records|
  {
    if records != [] {
      var init := records[..|records| - 1];
      ResourcesOfAt(reg, collectionName, o, init);
      assert forall i :: 0 <= i < |init| ==> init[i] == records[i];
    }
  }

  /** `getResources`: one resource per record, in order, each the one `ResourceOf` describes. */
  method GetResources(reg: Registry, collectionName: string, o: Options, records: seq<Record>)
    returns (resources: seq<Resource>)
    ensures resources == ResourcesOf(reg, collectionName, o, records)
    ensures |resources| == |records|
    ensures forall i :: 0 <= i < |records| ==> resources[i] == ResourceOf(reg, collectionName, o, records[i])
    ensures ResourceKeySeq(resources) == RecordKeys(collectionName, o, records)
    ensures ResourceKeys(resources) == InputKeys(collectionName, o, records)
  {
    resources := [];
    for i := 0 to |records|
      invariant resources == ResourcesOf(reg, collectionName, o, records[..i])
    {
      var resource := CreateResource(reg, collectionName, o, records[i]);
      resources := resources + [resource];
      assert records[..i + 1][..i] == records[..i];
    }
    assert records[..|records|] == records;
    ResourcesOfAt(reg, collectionName, o, records);
    ResourcesKeyed(reg, collectionName, o, records, resources);
  }

  /** One more resource adds its key to the keys of a prefix. */
  lemma ResourceKeysStep(resources: seq<Resource>, i: nat)
    requires i < |resources|
    ensures ResourceKeys(resources[..i + 1]) == ResourceKeys(resources[..i]) + {resources[i].GetKey()}
    ensures ResourceKeySeq(resources[..i + 1]) == ResourceKeySeq(resources[..i]) + [resources[i].GetKey()]
  {
    assert resources[..i + 1] == resources[..i] + [resources[i]];
  }

  /** `primary` holds, under its key, the last of the first `i` resources with that key. */
  ghost predicate PrimaryFilled(resources: seq<Resource>, i: nat, primary: InsertionMap<Key, Node>)
  {
    && i <= |resources|
    && primary.Valid() && KeyedNodes(primary)
    && primary.entries.Keys == ResourceKeys(resources[..i])
    && primary.order == FirstKeys(ResourceKeySeq(resources[..i]))
    && KeepsLastNode(resources[..i], primary.entries)
  }

  lemma PrimaryFilledStep(resources: seq<Resource>, i: nat, primary: InsertionMap<Key, Node>)
    requires i < |resources| && PrimaryFilled(resources, i, primary)
    ensures PrimaryFilled(resources, i + 1, primary.Set(resources[i].GetKey(), ResourceNode(resources[i])))
  {
    var primary' := primary.Set(resources[i].GetKey(), ResourceNode(resources[i]));
    KeepsLastNodeStep(resources, i, primary.entries, primary'.entries);
    ResourceKeysStep(resources, i);
    SetFirstKeys(primary, ResourceKeySeq(resources[..i]), resources[i].GetKey(), ResourceNode(resources[i]));
  }

  /** `included` holds, under its key, the last of the first `i` resources with that key. */
  ghost predicate IncludedFilled(resources: seq<Resource>, i: nat, included: InsertionMap<Key, Resource>)
  {
    && i <= |resources|
    && included.Valid() && KeyedResources(included)
    && included.entries.Keys == ResourceKeys(resources[..i])
    && included.order == FirstKeys(ResourceKeySeq(resources[..i]))
    && KeepsLast(resources[..i], included.entries)
  }

  lemma IncludedFilledStep(resources: seq<Resource>, i: nat, included: InsertionMap<Key, Resource>)
    requires i < |resources| && IncludedFilled(resources, i, included)
    ensures IncludedFilled(resources, i + 1, included.Set(resources[i].GetKey(), resources[i]))
  {
    var included' := included.Set(resources[i].GetKey(), resources[i]);
    KeepsLastStep(resources, i, included.entries, included'.entries);
    ResourceKeysStep(resources, i);
    SetFirstKeys(included, ResourceKeySeq(resources[..i]), resources[i].GetKey(), resources[i]);
  }

  /**
   * Setting each resource in `primary` under its key: one full resource per distinct key,
   * the last resource with that key.
   */
  method ResourcePrimary(resources: seq<Resource>) returns (primary: InsertionMap<Key, Node>)
    ensures primary.Valid() && KeyedNodes(primary)
    ensures primary.entries.Keys == ResourceKeys(resources)
    ensures primary.order == FirstKeys(ResourceKeySeq(resources))
    ensures KeepsLastNode(resources, primary.entries)
  {
    primary := EmptyMap();
    for i := 0 to |resources|
      invariant PrimaryFilled(resources, i, primary)
    {
      PrimaryFilledStep(resources, i, primary);
      primary := primary.Set(resources[i].GetKey(), ResourceNode(resources[i]));
    }
    assert resources[..|resources|] == resources;
  }

  /**
   * Setting each resource in `included` under its key (with `asIncluded`): one resource
   * per distinct key, the last resource with that key.
   */
  method IncludeResources(resources: seq<Resource>) returns (included: InsertionMap<Key, Resource>)
    ensures included.Valid() && KeyedResources(included)
    ensures included.entries.Keys == ResourceKeys(resources)
    ensures included.order == FirstKeys(ResourceKeySeq(resources))
    ensures KeepsLast(resources, included.entries)
  {
    included := EmptyMap();
    for i := 0 to |resources|
      invariant IncludedFilled(resources, i, included)
    {
      IncludedFilledStep(resources, i, included);
      included := included.Set(resources[i].GetKey(), resources[i]);
    }
    assert resources[..|resources|] == resources;
  }

  /** Setting each identifier of a to-many relationship in `primary`. */
  method LinkagePrimary(identifiers: seq<Identifier>) returns (primary: InsertionMap<Key, Node>)
    ensures primary.Valid() && KeyedNodes(primary)
    ensures primary.entries.Keys == IdentifierKeys(identifiers)
    ensures primary.order == FirstKeys(IdentifierKeySeq(identifiers))
    ensures forall k :: k in primary.entries ==> primary.entries[k].IdentifierNode?
  {
    primary := EmptyMap();
    for i := 0 to |identifiers|
      invariant LinkageFilled(identifiers, i, primary)
    {
      LinkageFilledStep(identifiers, i, primary);
      primary := primary.Set(identifiers[i].GetKey(), IdentifierNode(identifiers[i]));
    }
    assert identifiers[..|identifiers|] == identifiers;
  }

  /** `primary` holds the first `i` identifiers of a to-many linkage, in first-occurrence order. */
  ghost predicate LinkageFilled(identifiers: seq<Identifier>, i: nat, primary: InsertionMap<Key, Node>)
  {
    && i <= |identifiers|
    && primary.Valid() && KeyedNodes(primary)
    && primary.entries.Keys == IdentifierKeys(identifiers[..i])
    && primary.order == FirstKeys(IdentifierKeySeq(identifiers[..i]))
    && forall k :: k in primary.entries ==> primary.entries[k].IdentifierNode?
  }

  lemma LinkageFilledStep(identifiers: seq<Identifier>, i: nat, primary: InsertionMap<Key, Node>)
    requires i < |identifiers| && LinkageFilled(identifiers, i, primary)
    ensures LinkageFilled(identifiers, i + 1, primary.Set(identifiers[i].GetKey(), IdentifierNode(identifiers[i])))
  {
    IdentifierKeysStep(identifiers, i);
    IdentifierNodesStep(primary, IdentifierKeySeq(identifiers[..i]), identifiers[i]);
  }

  /** One more identifier adds its key to the keys of a prefix, and appends it to their sequence. */
  lemma IdentifierKeysStep(identifiers: seq<Identifier>, i: nat)
    requires i < |identifiers|
    ensures IdentifierKeys(identifiers[..i + 1]) ==
      IdentifierKeys(identifiers[..i]) + {identifiers[i].GetKey()}
    ensures IdentifierKeySeq(identifiers[..i + 1]) == IdentifierKeySeq(identifiers[..i]) + [identifiers[i].GetKey()]
  {
    assert identifiers[..i + 1] == identifiers[..i] + [identifiers[i]];
  }

  /** Shaping the `primary` dictionary of the identifier-only mode gives distinct identifiers for the input keys. */
  lemma ShapeIdentifierData(collectionName: string, o: Options, records: seq<Record>, singular: bool,
                            primary: InsertionMap<Key, Node>)
    requires singular ==> |records| == 1
    requires primary.Valid() && KeyedNodes(primary)
    requires primary.entries.Keys == InputKeys(collectionName, o, records)
    requires primary.order == FirstKeys(RecordKeys(collectionName, o, records))
    requires forall k :: k in primary.entries ==> primary.entries[k].IdentifierNode?
    ensures singular ==> primary.Size() == 1
    ensures var d := ShapeData(primary, singular);
      && OnlyIdentifiers(d)
      && DataKeys(d) == InputKeys(collectionName, o, records)
      && NodeKeySeq(DataNodes(d)) == FirstKeys(RecordKeys(collectionName, o, records))
      && DistinctNodes(DataNodes(d))
      && (singular ==> d.Single?)
      && (!singular ==> d.Many?)
  {
    SizeIsKeyCount(primary);
    if singular {
      SingleInputKey(collectionName, o, records);
    }
  }

  /** The options a call runs with: the serializer's own, overridden by the call's. */
  function Effective(self: Serializer, ov: Overrides): Options
  {
    Merge(self.options, ov)
  }

  /** Validation passes: depth is non-negative, and data or a document metaizer is given. */
  predicate Accepted(o: Options, data: Input)
  {
    o.depth >= 0 && (data.Absent? ==> o.documentMetaizer)
  }

  /** `data` is forced to `null`: by `nullData`, or because the data is `undefined` or `null`. */
  predicate NullMode(o: Options, data: Input)
  {
    o.nullData || !Truthy(data)
  }

  predicate IdentifierMode(o: Options, data: Input)
  {
    !NullMode(o, data) && o.onlyIdentifier
  }

  predicate RelationshipMode(o: Options, data: Input)
  {
    !NullMode(o, data) && !o.onlyIdentifier && TruthyString(o.onlyRelationship)
  }

  predicate DefaultMode(o: Options, data: Input)
  {
    !NullMode(o, data) && !o.onlyIdentifier && !TruthyString(o.onlyRelationship)
  }

  /** The relationship `onlyRelationship` selects for a single record. */
  function SelectedRelationship(reg: Registry, o: Options, record: Record): Relationship
    requires o.relators.Some? && TruthyString(o.onlyRelationship)
    requires FindRelator(reg, o.relators.value, o.onlyRelationship.value).Some?
  {
    var relator := o.relators.value[FindRelator(reg, o.relators.value, o.onlyRelationship.value).value];
    RelationshipOf(RelatedSerializer(reg, relator).value, relator, record)
  }

  /**
   * The document of a relationship-only call: a to-one linkage becomes the single
   * identifier, a to-many linkage a list of its identifiers with duplicates collapsed,
   * and a null or unresolved linkage an empty list with nothing included.
   */
  predicate LinkageDocument(linkage: Linkage, doc: Document)
  {
    && OnlyIdentifiers(doc.data)
    && DistinctNodes(DataNodes(doc.data))
    && match linkage
       case ToOne(identifier) => doc.data == Single(IdentifierNode(identifier))
       case ToMany(identifiers) =>
         && doc.data.Many?
         && DataKeys(doc.data) == IdentifierKeys(identifiers)
         && NodeKeySeq(DataNodes(doc.data)) == FirstKeys(IdentifierKeySeq(identifiers))
       case _ => doc.data == Many([]) && doc.included.None?
  }

  /** `included` is non-empty when present, and no key appears in it twice. */
  predicate IncludedWellFormed(doc: Document)
  {
    (doc.included.Some? ==> |doc.included.value| > 0) && DistinctResources(IncludedList(doc))
  }

  /**
   * The `data` of the default and `asIncluded` modes: its keys are the input keys, in the
   * input's shape; with `asIncluded` it holds identifiers, otherwise each datum is the
   * resource of the last record with its key.
   */
  ghost predicate ResourceDataOk(reg: Registry, collectionName: string, o: Options, records: seq<Record>,
                                 singular: bool, d: PrimaryData)
  {
    && DataKeys(d) == InputKeys(collectionName, o, records)
    && NodeKeySeq(DataNodes(d)) == FirstKeys(RecordKeys(collectionName, o, records))
    && DistinctNodes(DataNodes(d))
    && (singular ==> d.Single?)
    && (!singular ==> d.Many?)
    && (o.asIncluded ==> OnlyIdentifiers(d))
    && (!o.asIncluded ==> forall n :: n in DataNodes(d) ==>
          n.ResourceNode? && RendersLast(reg, collectionName, o, records, n.resource))
  }

  /**
   * The `included` of the default and `asIncluded` modes: with `asIncluded` it holds the
   * resource of the last record with each input key, otherwise no input key; every other
   * resource in it was reached through relators within `depth` hops.
   */
  ghost predicate ResourceIncludedOk(reg: Registry, collectionName: string, o: Options, records: seq<Record>,
                                     doc: Document)
  {
    var keys := InputKeys(collectionName, o, records);
    && IncludedWellFormed(doc)
    && (o.asIncluded ==> keys <= IncludedKeys(doc))
    && (o.asIncluded ==> FirstKeys(RecordKeys(collectionName, o, records)) <= ResourceKeySeq(IncludedList(doc)))
    && (!o.asIncluded ==> keys !! IncludedKeys(doc))
    && (forall r :: r in IncludedList(doc) ==>
          if o.asIncluded && r.GetKey() in keys then RendersLast(reg, collectionName, o, records, r)
          else Reached(reg, o, records, r))
    && (o.depth == 0 && !o.asIncluded ==> doc.included.None?)
  }

  /**
   * The document of the default and `asIncluded` modes: the data and `included` above,
   * and, with `depth >= 1`, every record one hop from the primary records, through a
   * relator with a related serializer, present: included, or a full resource in `data`.
   */
  ghost predicate ResourceDocumentOk(reg: Registry, collectionName: string, o: Options, records: seq<Record>,
                                     singular: bool, doc: Document)
  {
    && doc.jsonapi == VersionMember(o)
    && ResourceDataOk(reg, collectionName, o, records, singular, doc.data)
    && ResourceIncludedOk(reg, collectionName, o, records, doc)
    && (o.depth >= 1 ==> RootCovered(reg, o, records,
          IncludedKeys(doc) + (if o.asIncluded then {} else InputKeys(collectionName, o, records))))
  }

  /**
   * The outcome of the default and `asIncluded` modes: the walk throws exactly when it
   * meets `null` or `undefined` related data, which a relator of the call does for a
   * primary record only if it throws, and otherwise the document above.
   */
  ghost predicate ResourceDocument(reg: Registry, collectionName: string, o: Options, records: seq<Record>,
                                   singular: bool, res: Result<Document, Error>)
  {
    && (res.Failure? ==> res.error == RelatedDataError && MayFail(reg, o, records))
    && (RootFails(reg, o, records) ==> res.Failure?)
    && (res.Success? ==> ResourceDocumentOk(reg, collectionName, o, records, singular, res.value))
  }

  /** The `primary` dictionary of the default and `asIncluded` modes. */
  ghost predicate PrimaryMapOk(reg: Registry, collectionName: string, o: Options, records: seq<Record>,
                               primary: InsertionMap<Key, Node>)
  {
    && primary.Valid() && KeyedNodes(primary)
    && primary.entries.Keys == InputKeys(collectionName, o, records)
    && primary.order == FirstKeys(RecordKeys(collectionName, o, records))
    && (o.asIncluded ==> forall k :: k in primary.entries ==> primary.entries[k].IdentifierNode?)
    && (!o.asIncluded ==> forall k :: k in primary.entries ==>
          primary.entries[k].ResourceNode? && RendersLast(reg, collectionName, o, records, primary.entries[k].resource))
  }

  /** The `included` dictionary of the default and `asIncluded` modes, once walked. */
  ghost predicate IncludedMapOk(reg: Registry, collectionName: string, o: Options, records: seq<Record>,
                                included: InsertionMap<Key, Resource>)
  {
    var keys := InputKeys(collectionName, o, records);
    && included.Valid() && KeyedResources(included)
    && (o.asIncluded ==> forall k :: k in keys ==>
          k in included.entries && RendersLast(reg, collectionName, o, records, included.entries[k]))
    && (o.asIncluded ==> FirstKeys(RecordKeys(collectionName, o, records)) <= included.order)
    && (!o.asIncluded ==> keys !! included.entries.Keys)
    && (forall k :: k in included.entries ==>
          (o.asIncluded && k in keys) || Reached(reg, o, records, included.entries[k]))
    && (o.depth <= 0 && !o.asIncluded ==> included.Size() == 0)
  }

  /** The resources of the records, set in `primary` in turn, are each the last one with its key. */
  lemma PrimaryRendersLast(reg: Registry, collectionName: string, o: Options, records: seq<Record>,
                           resources: seq<Resource>, primary: InsertionMap<Key, Node>)
    requires !o.asIncluded
    requires |resources| == |records|
    requires forall i :: 0 <= i < |records| ==> resources[i] == ResourceOf(reg, collectionName, o, records[i])
    requires ResourceKeySeq(resources) == RecordKeys(collectionName, o, records)
    requires ResourceKeys(resources) == InputKeys(collectionName, o, records)
    requires primary.Valid() && KeyedNodes(primary)
    requires primary.entries.Keys == ResourceKeys(resources)
    requires primary.order == FirstKeys(ResourceKeySeq(resources))
    requires KeepsLastNode(resources, primary.entries)
    ensures PrimaryMapOk(reg, collectionName, o, records, primary)
  {
    forall k | k in primary.entries
      ensures primary.entries[k].ResourceNode?
      ensures RendersLast(reg, collectionName, o, records, primary.entries[k].resource)
    {
      assert primary.entries[k].GetKey() == k;
    }
  }

  /** The resources of the records, set in `included` in turn, are each the last one with its key. */
  lemma IncludedRendersLast(reg: Registry, collectionName: string, o: Options, records: seq<Record>,
                            resources: seq<Resource>, included: InsertionMap<Key, Resource>)
    requires |resources| == |records|
    requires forall i :: 0 <= i < |records| ==> resources[i] == ResourceOf(reg, collectionName, o, records[i])
    requires ResourceKeySeq(resources) == RecordKeys(collectionName, o, records)
    requires included.Valid() && KeyedResources(included)
    requires KeepsLast(resources, included.entries)
    ensures forall k :: k in included.entries ==> RendersLast(reg, collectionName, o, records, included.entries[k])
  {
    forall k | k in included.entries ensures RendersLast(reg, collectionName, o, records, included.entries[k]) {
      assert included.entries[k].GetKey() == k;
    }
  }

  /** The walk keeps the `included` dictionary of the default and `asIncluded` modes in shape. */
  lemma WalkedIncluded(reg: Registry, collectionName: string, o: Options, records: seq<Record>,
                       primary: InsertionMap<Key, Node>, included0: InsertionMap<Key, Resource>,
                       included: InsertionMap<Key, Resource>)
    requires PrimaryMapOk(reg, collectionName, o, records, primary)
    requires included0.Valid() && KeyedResources(included0)
    requires o.asIncluded ==> included0.entries.Keys == InputKeys(collectionName, o, records)
    requires o.asIncluded ==> included0.order == FirstKeys(RecordKeys(collectionName, o, records))
    requires o.asIncluded ==> forall k :: k in included0.entries ==>
      RendersLast(reg, collectionName, o, records, included0.entries[k])
    requires !o.asIncluded ==> included0.Size() == 0
    requires o.depth <= 0 ==> included == included0
    requires IncludedSound(reg, o, records, primary, included0, included)
    ensures IncludedMapOk(reg, collectionName, o, records, included)
  {
    SizeIsKeyCount(included0);
    WalkedEntries(reg, o, records, primary, included0, included);
    var keys := InputKeys(collectionName, o, records);
    if o.asIncluded {
      assert included0.order <= included.order;
      forall k | k in keys ensures k in included.entries && RendersLast(reg, collectionName, o, records, included.entries[k]) {
        assert k in included0.entries;
      }
    } else {
      forall k | k in included.entries ensures k !in keys {
        assert k !in included0.entries;
      }
    }
  }

  /** Each key the walk added is reached, and is not a full resource in `primary`. */
  lemma WalkedEntries(reg: Registry, o: Options, records: seq<Record>, primary: InsertionMap<Key, Node>,
                      included0: InsertionMap<Key, Resource>, included: InsertionMap<Key, Resource>)
    requires IncludedSound(reg, o, records, primary, included0, included)
    ensures forall k :: k in included.entries && k !in included0.entries ==>
      && (k !in primary.entries || primary.entries[k].IdentifierNode?)
      && Reached(reg, o, records, included.entries[k])
  {
    forall k | k in included.entries && k !in included0.entries
      ensures k !in primary.entries || primary.entries[k].IdentifierNode?
      ensures Reached(reg, o, records, included.entries[k])
    {
      assert NewEntryOk(reg, o, records, primary, included.entries[k]);
      assert included.entries[k].GetKey() == k;
    }
  }

  /** Shaping `primary` gives the data of the default and `asIncluded` modes. */
  lemma ShapeResourceData(reg: Registry, collectionName: string, o: Options, records: seq<Record>,
                          singular: bool, primary: InsertionMap<Key, Node>)
    requires PrimaryMapOk(reg, collectionName, o, records, primary)
    requires singular ==> primary.Size() == 1
    ensures ResourceDataOk(reg, collectionName, o, records, singular, ShapeData(primary, singular))
  {
    var d := ShapeData(primary, singular);
    if !o.asIncluded {
      forall n | n in DataNodes(d)
        ensures n.ResourceNode? && RendersLast(reg, collectionName, o, records, n.resource)
      {
        assert primary.entries[n.GetKey()] == n;
      }
    }
  }

  /** The `included` member built from the walked dictionary is the one of the default and `asIncluded` modes. */
  lemma ShapeResourceIncluded(reg: Registry, collectionName: string, o: Options, records: seq<Record>,
                              included: InsertionMap<Key, Resource>, doc: Document)
    requires IncludedMapOk(reg, collectionName, o, records, included)
    requires doc.included == IncludedMember(included)
    ensures IncludedKeys(doc) == included.entries.Keys
    ensures ResourceIncludedOk(reg, collectionName, o, records, doc)
  {
    SizeIsKeyCount(included);
    forall r | r in IncludedList(doc)
      ensures r.GetKey() in included.entries && included.entries[r.GetKey()] == r
    {
    }
  }

  /** The keys the walk treats as present are the included keys and, without `asIncluded`, the input keys. */
  lemma CoveredResourceKeys(reg: Registry, collectionName: string, o: Options, records: seq<Record>,
                            primary: InsertionMap<Key, Node>, included: InsertionMap<Key, Resource>)
    requires PrimaryMapOk(reg, collectionName, o, records, primary)
    ensures CoveredKeys(primary, included) ==
      included.entries.Keys + (if o.asIncluded then {} else InputKeys(collectionName, o, records))
  {
  }

  /** Shaping the walked dictionaries of the default and `asIncluded` modes gives their document. */
  lemma ShapeResourceDocument(reg: Registry, collectionName: string, o: Options, records: seq<Record>,
                              singular: bool, primary: InsertionMap<Key, Node>, included: InsertionMap<Key, Resource>)
    requires singular ==> |records| == 1
    requires PrimaryMapOk(reg, collectionName, o, records, primary)
    requires IncludedMapOk(reg, collectionName, o, records, included)
    requires o.depth >= 1 ==> RootCovered(reg, o, records, CoveredKeys(primary, included))
    ensures singular ==> primary.Size() == 1
    ensures ResourceDocumentOk(reg, collectionName, o, records, singular,
      Document(VersionMember(o), ShapeData(primary, singular), IncludedMember(included)))
  {
    SizeIsKeyCount(primary);
    if singular {
      SingleInputKey(collectionName, o, records);
    }
    var doc := Document(VersionMember(o), ShapeData(primary, singular), IncludedMember(included));
    CoveredResourceKeys(reg, collectionName, o, records, primary, included);
    ShapeResourceData(reg, collectionName, o, records, singular, primary);
    ShapeResourceIncluded(reg, collectionName, o, records, included, doc);
  }

  /**
   * The dictionaries of the default and `asIncluded` modes: every record rendered as a
   * resource, set in `included` (with identifiers in `primary`) with `asIncluded` and in
   * `primary` otherwise, then the relators walked.
   */
  method ResourceMaps(reg: Registry, collectionName: string, o: Options, records: seq<Record>)
    returns (primary: InsertionMap<Key, Node>, included: InsertionMap<Key, Resource>, failed: bool)
    ensures PrimaryMapOk(reg, collectionName, o, records, primary)
    ensures IncludedMapOk(reg, collectionName, o, records, included)
    ensures failed ==> MayFail(reg, o, records)
    ensures RootFails(reg, o, records) ==> failed
    ensures !failed && o.depth >= 1 ==> RootCovered(reg, o, records, CoveredKeys(primary, included))
  {
    included := EmptyMap();
    var resources := GetResources(reg, collectionName, o, records);
    if o.asIncluded {
      included := IncludeResources(resources);
      IncludedRendersLast(reg, collectionName, o, records, resources, included);
      primary := IdentifierPrimary(collectionName, o, records);
    } else {
      primary := ResourcePrimary(resources);
      PrimaryRendersLast(reg, collectionName, o, records, resources, primary);
    }
    ghost var included0 := included;
    included, failed := RecurseResources(reg, o, records, primary, included);
    WalkedIncluded(reg, collectionName, o, records, primary, included0, included);
  }

  /** The default and `asIncluded` modes: build the dictionaries, then shape the document. */
  method ResourceMode(reg: Registry, collectionName: string, o: Options, records: seq<Record>, singular: bool)
    returns (res: Result<Document, Error>)
    requires singular ==> |records| == 1
    ensures ResourceDocument(reg, collectionName, o, records, singular, res)
  {
    var primary, included, failed := ResourceMaps(reg, collectionName, o, records);
    if failed {
      return Failure(RelatedDataError);
    }
    ShapeResourceDocument(reg, collectionName, o, records, singular, primary, included);
    res := Success(Document(VersionMember(o), ShapeData(primary, singular), IncludedMember(included)));
  }

  /** The linkage is one the walk starts from: to-one or to-many. */
  predicate Walks(linkage: Linkage)
  {
    linkage.ToOne? || linkage.ToMany?
  }

  /**
   * The document of the `onlyRelationship` mode for the linkage of the single record:
   * the linkage as data, every included resource reached within `depth` hops, and, with
   * `depth >= 1` and a linkage the walk starts from, every record one hop from the record
   * included.
   */
  ghost predicate RelationshipDocumentOk(reg: Registry, o: Options, record: Record, linkage: Linkage, doc: Document)
  {
    && doc.jsonapi == VersionMember(o)
    && LinkageDocument(linkage, doc)
    && IncludedWellFormed(doc)
    && (forall r :: r in IncludedList(doc) ==> Reached(reg, o, [record], r))
    && (o.depth == 0 ==> doc.included.None?)
    && (Walks(linkage) && o.depth >= 1 ==> RootCovered(reg, o, [record], IncludedKeys(doc)))
  }

  /**
   * The outcome of the `onlyRelationship` mode: a to-one or to-many linkage starts the
   * walk, which throws only if some reachable record yields `null` or `undefined` related
   * data, and does if a relator of the call does so for the record; otherwise the
   * document above.
   */
  ghost predicate RelationshipDocument(reg: Registry, o: Options, record: Record, linkage: Linkage,
                                       res: Result<Document, Error>)
  {
    && (res.Failure? ==> res.error == RelatedDataError && Walks(linkage) && MayFail(reg, o, [record]))
    && (Walks(linkage) && RootFails(reg, o, [record]) ==> res.Failure?)
    && (res.Success? ==> RelationshipDocumentOk(reg, o, record, linkage, res.value))
  }

  /** The `primary` dictionary of the `onlyRelationship` mode holds the linkage's identifiers. */
  ghost predicate LinkageMapOk(linkage: Linkage, primary: InsertionMap<Key, Node>, singular: bool)
  {
    && primary.Valid() && KeyedNodes(primary)
    && (forall k :: k in primary.entries ==> primary.entries[k].IdentifierNode?)
    && match linkage
       case ToOne(identifier) =>
         && singular && primary.order == [identifier.GetKey()]
         && identifier.GetKey() in primary.entries
         && primary.entries[identifier.GetKey()] == IdentifierNode(identifier)
       case ToMany(identifiers) =>
         && !singular
         && primary.entries.Keys == IdentifierKeys(identifiers)
         && primary.order == FirstKeys(IdentifierKeySeq(identifiers))
       case _ => !singular && primary.Size() == 0
  }

  /** Shaping the `primary` dictionary of the `onlyRelationship` mode gives the linkage as data. */
  lemma ShapeLinkageData(linkage: Linkage, primary: InsertionMap<Key, Node>, singular: bool, doc: Document)
    requires LinkageMapOk(linkage, primary, singular)
    requires singular ==> primary.Size() == 1
    requires doc.data == ShapeData(primary, singular)
    requires !Walks(linkage) ==> doc.included.None?
    ensures LinkageDocument(linkage, doc)
  {
  }

  /** The `included` member built from a walk that started empty holds only reached resources. */
  lemma ShapeWalkedIncluded(reg: Registry, o: Options, data: seq<Record>, primary: InsertionMap<Key, Node>,
                            included: InsertionMap<Key, Resource>, doc: Document)
    requires IncludedSound(reg, o, data, primary, EmptyMap(), included)
    requires doc.included == IncludedMember(included)
    ensures IncludedKeys(doc) == included.entries.Keys
    ensures IncludedWellFormed(doc)
    ensures forall r :: r in IncludedList(doc) ==> Reached(reg, o, data, r)
  {
    SizeIsKeyCount(included);
    forall r | r in IncludedList(doc) ensures Reached(reg, o, data, r) {
      assert included.entries[r.GetKey()] == r;
    }
  }

  /** When `primary` holds identifiers only, the walk treats exactly the included keys as present. */
  lemma CoveredIdentifiersOnly(primary: InsertionMap<Key, Node>, included: InsertionMap<Key, Resource>)
    requires forall k :: k in primary.entries ==> primary.entries[k].IdentifierNode?
    ensures CoveredKeys(primary, included) == included.entries.Keys
  {
  }

  /** Shaping the dictionaries of the `onlyRelationship` mode gives its document. */
  lemma ShapeLinkageDocument(reg: Registry, o: Options, record: Record, linkage: Linkage,
                             primary: InsertionMap<Key, Node>, included: InsertionMap<Key, Resource>, singular: bool)
    requires LinkageMapOk(linkage, primary, singular)
    requires IncludedSound(reg, o, [record], primary, EmptyMap(), included)
    requires o.depth <= 0 || !Walks(linkage) ==> included == EmptyMap()
    requires Walks(linkage) && o.depth >= 1 ==> RootCovered(reg, o, [record], CoveredKeys(primary, included))
    ensures singular ==> primary.Size() == 1
    ensures RelationshipDocumentOk(reg, o, record, linkage,
      Document(VersionMember(o), ShapeData(primary, singular), IncludedMember(included)))
  {
    assert singular ==> primary.Size() == 1;
    var doc := Document(VersionMember(o), ShapeData(primary, singular), IncludedMember(included));
    ShapeWalkedIncluded(reg, o, [record], primary, included, doc);
    ShapeLinkageData(linkage, primary, singular, doc);
    CoveredIdentifiersOnly(primary, included);
  }

  /**
   * The `onlyRelationship` mode once validated: the selected relator's relationship for
   * the single record becomes the primary data (singular for a to-one linkage), and the
   * relators are walked from the record when the linkage is not null or unresolved.
   */
  method RelationshipOnlyMode(reg: Registry, o: Options, record: Record, relator: Relator)
    returns (res: Result<Document, Error>)
    requires RelatedSerializer(reg, relator).Some?
    ensures RelationshipDocument(reg, o, record,
      RelationshipOf(RelatedSerializer(reg, relator).value, relator, record).data, res)
  {
    var relationship := RelationshipOf(RelatedSerializer(reg, relator).value, relator, record);
    var primary: InsertionMap<Key, Node> := EmptyMap();
    var singular := false;
    match relationship.data {
      case ToOne(identifier) =>
        singular := true;
        primary := primary.Set(identifier.GetKey(), IdentifierNode(identifier));
      case ToMany(identifiers) =>
        primary := LinkagePrimary(identifiers);
      case _ =>
    }
    var included: InsertionMap<Key, Resource> := EmptyMap();
    var failed := false;
    if Walks(relationship.data) {
      included, failed := RecurseResources(reg, o, [record], primary, included);
    }
    if failed {
      return Failure(RelatedDataError);
    }
    ShapeLinkageDocument(reg, o, record, relationship.data, primary, included, singular);
    res := Success(Document(VersionMember(o), ShapeData(primary, singular), IncludedMember(included)));
  }

  /**
   * `serialize`: validate the layered options, then build the data document of the
   * selected mode; `included` holds each key at most once and only resources reached
   * through relators within `depth` hops (or, with `asIncluded`, the primary resources).
   */
  method Serialize(reg: Registry, self: Serializer, data: Input, ov: Overrides)
    returns (res: Result<Document, Error>)
    // validation happens first
    ensures Effective(self, ov).depth < 0 <==> res == Failure(DepthError)
    ensures res == Failure(MissingDataError) <==>
      Effective(self, ov).depth >= 0 && data.Absent? && !Effective(self, ov).documentMetaizer
    ensures res.Success? ==> Accepted(Effective(self, ov), data)
    ensures res.Success? ==> res.value.jsonapi == VersionMember(Effective(self, ov))
    // null data
    ensures Accepted(Effective(self, ov), data) && NullMode(Effective(self, ov), data) ==>
      res == Success(Document(VersionMember(Effective(self, ov)), NullData, None))
    // identifiers only
    ensures Accepted(Effective(self, ov), data) && IdentifierMode(Effective(self, ov), data) ==>
      && res.Success?
      && res.value.included.None?
      && OnlyIdentifiers(res.value.data)
      && DataKeys(res.value.data) == InputKeys(self.collectionName, Effective(self, ov), Records(data))
      && NodeKeySeq(DataNodes(res.value.data)) == FirstKeys(RecordKeys(self.collectionName, Effective(self, ov), Records(data)))
      && DistinctNodes(DataNodes(res.value.data))
      && (data.One? ==> res.value.data.Single?)
      && (data.Collection? ==> res.value.data.Many?)
    // relationship only
    ensures Accepted(Effective(self, ov), data) && RelationshipMode(Effective(self, ov), data) ==>
      && (Effective(self, ov).relators.None? ==> res == Failure(RelatorsUndefinedError))
      && (Effective(self, ov).relators.Some? && data.Collection? ==> res == Failure(MultipleDataError))
    ensures (Accepted(Effective(self, ov), data) && RelationshipMode(Effective(self, ov), data) &&
             Effective(self, ov).relators.Some? && data.One?) ==>
      var o := Effective(self, ov);
      && (FindRelator(reg, o.relators.value, o.onlyRelationship.value).None? ==>
            res == Failure(UnknownRelationshipError))
      && (FindRelator(reg, o.relators.value, o.onlyRelationship.value).Some? ==>
            RelationshipDocument(reg, o, data.record, SelectedRelationship(reg, o, data.record).data, res))
    // default and as-included
    ensures Accepted(Effective(self, ov), data) && DefaultMode(Effective(self, ov), data) ==>
      ResourceDocument(reg, self.collectionName, Effective(self, ov), Records(data), data.One?, res)
    // the walk's failure
    ensures res == Failure(RelatedDataError) ==>
      Accepted(Effective(self, ov), data) &&
      (DefaultMode(Effective(self, ov), data) || RelationshipMode(Effective(self, ov), data))
    // included
    ensures res.Success? ==> IncludedWellFormed(res.value)
    ensures res.Success? && Effective(self, ov).depth == 0 && !Effective(self, ov).asIncluded ==>
      res.value.included.None?
    ensures res.Success? ==> forall r :: r in IncludedList(res.value) ==>
      || (Effective(self, ov).asIncluded &&
          r.GetKey() in InputKeys(self.collectionName, Effective(self, ov), Records(data)))
      || Reached(reg, Effective(self, ov), Records(data), r)
  {
    var o := Merge(self.options, ov);
    if o.depth < 0 {
      return Failure(DepthError);
    }
    if data.Absent? && !o.documentMetaizer {
      return Failure(MissingDataError);
    }
    var jsonapi := if TruthyString(o.version) then o.version else None;
    if o.nullData || !Truthy(data) {
      return Success(Document(jsonapi, NullData, None));
    }
    var records := Records(data);
    var singular := data.One?;
    if o.onlyIdentifier {
      var primary := IdentifierPrimary(self.collectionName, o, records);
      ShapeIdentifierData(self.collectionName, o, records, singular, primary);
      res := Success(Document(jsonapi, ShapeData(primary, singular), None));
    } else if TruthyString(o.onlyRelationship) {
      if o.relators.None? {
        return Failure(RelatorsUndefinedError);
      }
      if !singular {
        return Failure(MultipleDataError);
      }
      var found := FindRelator(reg, o.relators.value, o.onlyRelationship.value);
      if found.None? {
        return Failure(UnknownRelationshipError);
      }
      res := RelationshipOnlyMode(reg, o, records[0], o.relators.value[found.value]);
    } else {
      res := ResourceMode(reg, self.collectionName, o, records, singular);
    }
  }
}
