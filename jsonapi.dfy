/**
 * The value shapes of a JSON:API document as the serializer produces them:
 * caller records, resource keys, resource identifier objects, resource objects,
 * relationships and the top-level data document.
 */
module JsonApi {
  import opened Wrappers

  /** A field value of a caller's record; `Undefined` is what reading a missing field yields. */
  datatype Value = Undefined | Null | Bool(b: bool) | Num(n: int) | Str(s: string)

  /** A caller-supplied record: field name to value. */
  type Record = map<string, Value>

  /** `record[name]` in the host language: a missing field reads as `Undefined`. */
  function Field(record: Record, name: string): Value
  {
    if name in record then record[name] else Undefined
  }

  /** The deduplication key of a resource: its (type, id) pair. */
  datatype Key = Key(typeName: string, id: Value)

  /** A resource identifier object. */
  datatype Identifier = Identifier(typeName: string, id: Value) {
    function GetKey(): Key { Key(typeName, id) }
  }

  /**
   * The data of a relationship: not resolved (absent), resolved to nothing (null),
   * a to-one identifier, or a to-many list of identifiers.
   */
  datatype Linkage = Unresolved | Empty | ToOne(identifier: Identifier) | ToMany(identifiers: seq<Identifier>)

  /** A relationship object; its links and meta are not part of this model. */
  datatype Relationship = Relationship(data: Linkage)

  /** A resource object; its links and meta are not part of this model. */
  datatype Resource = Resource(
    typeName: string,
    id: Value,
    attributes: map<string, Value>,
    relationships: Option<map<string, Relationship>>)
  {
    /** The identifier sub-shape every resource carries. */
    function AsIdentifier(): Identifier { Identifier(typeName, id) }

    function GetKey(): Key { AsIdentifier().GetKey() }
  }

  /** An element of the primary data: an identifier or a full resource. */
  datatype Node = IdentifierNode(identifier: Identifier) | ResourceNode(resource: Resource) {
    function GetKey(): Key
    {
      match this
      case IdentifierNode(i) => i.GetKey()
      case ResourceNode(r) => r.GetKey()
    }
  }

  /** Top-level `data`: `null`, one element, or a list of elements. */
  datatype PrimaryData = NullData | Single(node: Node) | Many(nodes: seq<Node>)

  /**
   * A data document. `jsonapi` holds the version string when one is emitted;
   * `included` is absent when no resource was included.
   */
  datatype Document = Document(jsonapi: Option<string>, data: PrimaryData, included: Option<seq<Resource>>)

  /** The elements of the primary data, as a list. */
  function DataNodes(d: PrimaryData): seq<Node>
  {
    match d
    case NullData => []
    case Single(n) => [n]
    case Many(ns) => ns
  }

  /** The keys of the elements of the primary data. */
  function DataKeys(d: PrimaryData): set<Key>
  {
    set n | n in DataNodes(d) :: n.GetKey()
  }

  /** The keys of a list of resources. */
  function ResourceKeys(rs: seq<Resource>): set<Key>
  {
    set r | r in rs :: r.GetKey()
  }

  /** No two elements share a key. */
  predicate DistinctNodes(ns: seq<Node>)
  {
    forall i, j :: 0 <= i < j < |ns| ==> ns[i].GetKey() != ns[j].GetKey()
  }

  /** No two resources share a key. */
  predicate DistinctResources(rs: seq<Resource>)
  {
    forall i, j :: 0 <= i < j < |rs| ==> rs[i].GetKey() != rs[j].GetKey()
  }
}
