/**
 * Serializer configuration: the options record, the call-time overrides layered on
 * top of it, relators, and the registry of serializers that relators point into.
 */
module Configuration {
  import opened Wrappers
  import opened JsonApi

  /**
   * What a relator's data function yields for one owning record: nothing resolved
   * (`undefined`), resolved to nothing (`null`), one related record or a list of them.
   */
  datatype Related = RelatedUndefined | RelatedNull | RelatedOne(record: Record) | RelatedMany(records: seq<Record>)

  /**
   * A relator: the function that fetches related data from an owning record, and the
   * serializer of the related records as an index into the registry. A missing index,
   * or one outside the registry, is a relator without a related serializer.
   */
  datatype Relator = Relator(fetch: Record -> Related, target: Option<nat>)

  /** The recognised serializer options (links, meta and pagination strategies are not modelled). */
  datatype Options = Options(
    idKey: string,
    version: Option<string>,
    nullData: bool,
    onlyIdentifier: bool,
    onlyRelationship: Option<string>,
    asIncluded: bool,
    depth: int,
    projection: Option<map<string, int>>,
    relators: Option<seq<Relator>>,
    documentMetaizer: bool)

  /** A serializer: the collection name of its resources and its own options. */
  datatype Serializer = Serializer(collectionName: string, options: Options)

  /** Every serializer a relator may point to; replaces the object graph between serializers. */
  type Registry = seq<Serializer>

  /** Call-time options: each field, when present, replaces the serializer's own. */
  datatype Overrides = Overrides(
    idKey: Option<string>,
    version: Option<Option<string>>,
    nullData: Option<bool>,
    onlyIdentifier: Option<bool>,
    onlyRelationship: Option<Option<string>>,
    asIncluded: Option<bool>,
    depth: Option<int>,
    projection: Option<Option<map<string, int>>>,
    relators: Option<Option<seq<Relator>>>,
    documentMetaizer: Option<bool>)

  const NoOverrides: Overrides :=
    Overrides(None, None, None, None, None, None, None, None, None, None)

  /** The process-wide defaults, as an immutable constant. */
  const DefaultOptions: Options :=
    Options("id", Some("1.0"), false, false, None, false, 0, None, None, false)

  /** Option layering: every field an override gives replaces the base's. */
  function Merge(base: Options, ov: Overrides): Options
  {
    Options(
      if ov.idKey.Some? then ov.idKey.value else base.idKey,
      if ov.version.Some? then ov.version.value else base.version,
      if ov.nullData.Some? then ov.nullData.value else base.nullData,
      if ov.onlyIdentifier.Some? then ov.onlyIdentifier.value else base.onlyIdentifier,
      if ov.onlyRelationship.Some? then ov.onlyRelationship.value else base.onlyRelationship,
      if ov.asIncluded.Some? then ov.asIncluded.value else base.asIncluded,
      if ov.depth.Some? then ov.depth.value else base.depth,
      if ov.projection.Some? then ov.projection.value else base.projection,
      if ov.relators.Some? then ov.relators.value else base.relators,
      if ov.documentMetaizer.Some? then ov.documentMetaizer.value else base.documentMetaizer)
  }

  /** Layering with no overrides leaves the options unchanged. */
  lemma MergeNothing(base: Options)
    ensures Merge(base, NoOverrides) == base
  {
  }

  /**
   * Creating a serializer: its options are the defaults, each replaced by the given
   * option when there is one.
   */
  function NewSerializer(collectionName: string, ov: Overrides): (s: Serializer)
    ensures s.collectionName == collectionName
    ensures s.options.idKey == if ov.idKey.Some? then ov.idKey.value else "id"
    ensures s.options.version == if ov.version.Some? then ov.version.value else Some("1.0")
    ensures s.options.nullData == (ov.nullData.Some? && ov.nullData.value)
    ensures s.options.onlyIdentifier == (ov.onlyIdentifier.Some? && ov.onlyIdentifier.value)
    ensures s.options.onlyRelationship == if ov.onlyRelationship.Some? then ov.onlyRelationship.value else None
    ensures s.options.asIncluded == (ov.asIncluded.Some? && ov.asIncluded.value)
    ensures s.options.depth == if ov.depth.Some? then ov.depth.value else 0
    ensures s.options.projection == if ov.projection.Some? then ov.projection.value else None
    ensures s.options.relators == if ov.relators.Some? then ov.relators.value else None
    ensures s.options.documentMetaizer == (ov.documentMetaizer.Some? && ov.documentMetaizer.value)
    ensures ov == NoOverrides ==> s.options.idKey == "id" && s.options.version == Some("1.0")
    ensures ov == NoOverrides ==> s.options.depth == 0 && s.options.projection.None? && s.options.relators.None?
    ensures ov == NoOverrides ==> !s.options.nullData && !s.options.onlyIdentifier && !s.options.asIncluded
    ensures ov == NoOverrides ==> s.options.onlyRelationship.None? && !s.options.documentMetaizer
  {
    Serializer(collectionName, Merge(DefaultOptions, ov))
  }

  /** The relators of a configuration as a list (`getArray`); none when unset. */
  function RelatorList(o: Options): seq<Relator>
  {
    if o.relators.Some? then o.relators.value else []
  }

  /** The registry index of a relator's related serializer, when it has one. */
  function TargetIndex(reg: Registry, rel: Relator): (t: Option<nat>)
    ensures t.Some? ==> t.value < |reg|
  {
    if rel.target.Some? && rel.target.value < |reg| then rel.target else None
  }

  /** `relator.getRelatedSerializer()`. */
  function RelatedSerializer(reg: Registry, rel: Relator): Option<Serializer>
  {
    if TargetIndex(reg, rel).Some? then Some(reg[TargetIndex(reg, rel).value]) else None
  }

  /** The collection name of a relator's related serializer, when it has one. */
  function RelatedName(reg: Registry, rel: Relator): Option<string>
  {
    if TargetIndex(reg, rel).Some? then Some(reg[TargetIndex(reg, rel).value].collectionName) else None
  }

  /** Host-language truthiness of an optional string: present and non-empty. */
  predicate TruthyString(s: Option<string>)
  {
    s.Some? && s.value != ""
  }
}
