/**
 * Building the two value shapes of a resource from a caller's record: the resource
 * identifier object and the full resource object (attribute projection and
 * relationships), plus the relationship a relator yields for one owning record.
 */
module Builders {
  import opened Wrappers
  import opened JsonApi
  import opened Configuration

  /** `createIdentifier`: the collection name paired with the record's id field. */
  function CreateIdentifier(collectionName: string, o: Options, record: Record): (r: Identifier)
    ensures r.typeName == collectionName
    ensures o.idKey in record ==> r.id == record[o.idKey]
    ensures o.idKey !in record ==> r.id == Undefined
  {
    Identifier(collectionName, Field(record, o.idKey))
  }

  /** The key a record gets under a serializer's collection name and id field. */
  function KeyOf(collectionName: string, o: Options, record: Record): Key
  {
    CreateIdentifier(collectionName, o, record).GetKey()
  }

  /** A projection value is truthy: the field is listed with a non-zero flag. */
  predicate Shown(projection: map<string, int>, field: string)
  {
    field in projection && projection[field] != 0
  }

  /** Whether a record field becomes an attribute, before the id field is removed. */
  predicate Projected(o: Options, field: string)
  {
    o.projection.None? || Shown(o.projection.value, field)
  }

  /** The related records a relator's result stands for, as a list. */
  function Flatten(related: Related): seq<Record>
  {
    match related
    case RelatedUndefined => []
    case RelatedNull => []
    case RelatedOne(r) => [r]
    case RelatedMany(rs) => rs
  }

  /**
   * `relator.getRelationship(record)`: the related data rendered as identifiers by the
   * related serializer, keeping the distinction between unresolved, null, one and many.
   */
  function RelationshipOf(target: Serializer, rel: Relator, record: Record): (r: Relationship)
    ensures rel.fetch(record).RelatedUndefined? <==> r.data.Unresolved?
    ensures rel.fetch(record).RelatedNull? <==> r.data.Empty?
    ensures rel.fetch(record).RelatedOne? <==> r.data.ToOne?
    ensures r.data.ToOne? ==>
      r.data.identifier.GetKey() == KeyOf(target.collectionName, target.options, rel.fetch(record).record)
    ensures r.data.ToMany? ==>
      |r.data.identifiers| == |rel.fetch(record).records| &&
      forall i :: 0 <= i < |r.data.identifiers| ==>
        r.data.identifiers[i].GetKey() == KeyOf(target.collectionName, target.options, rel.fetch(record).records[i])
  {
    match rel.fetch(record)
    case RelatedUndefined => Relationship(Unresolved)
    case RelatedNull => Relationship(Empty)
    case RelatedOne(x) => Relationship(ToOne(CreateIdentifier(target.collectionName, target.options, x)))
    case RelatedMany(xs) =>
      Relationship(ToMany(seq(|xs|, i requires 0 <= i < |xs| =>
        CreateIdentifier(target.collectionName, target.options, xs[i]))))
  }

  /** The attributes of a record's resource: every projected field but the id field. */
  function AttributesOf(o: Options, record: Record): map<string, Value>
  {
    map k | k in record && k != o.idKey && Projected(o, k) :: record[k]
  }

  /**
   * The attribute projection of `createResource`: every field, or only the fields whose
   * projection value is truthy, copied from the record; then the id field is deleted.
   */
  method ProjectAttributes(o: Options, record: Record) returns (attributes: map<string, Value>)
    ensures o.idKey !in attributes
    ensures forall k :: k in attributes <==> k in record && k != o.idKey && Projected(o, k)
    ensures forall k :: k in attributes ==> attributes[k] == record[k]
    ensures attributes == AttributesOf(o, record)
  {
    attributes := map[];
    var remaining := record.Keys;
    while remaining != {}
      invariant remaining <= record.Keys
      invariant forall k :: k in attributes <==> k in record && k !in remaining && Projected(o, k)
      invariant forall k :: k in attributes ==> attributes[k] == record[k]
      decreases remaining
    {
      var k :| k in remaining;
      if o.projection.Some? {
        if Shown(o.projection.value, k) {
          attributes := attributes[k := record[k]];
        }
      } else {
        attributes := attributes[k := record[k]];
      }
      remaining := remaining - {k};
    }
    attributes := attributes - {o.idKey};
  }

  /**
   * The relationships of `createResource`: for every relator with a related serializer,
   * its relationship under that serializer's collection name, relators taken in order so
   * that a later relator with the same name overwrites an earlier one.
   */
  function Relationships(reg: Registry, rels: seq<Relator>, record: Record): (m: map<string, Relationship>)
    ensures forall name :: name in m <==>
      exists j :: 0 <= j < |rels| && RelatedName(reg, rels[j]) == Some(name)
    decreases |rels|
  {
    if rels == [] then map[]
    else
      var init := rels[..|rels| - 1];
      var last := rels[|rels| - 1];
      var m := Relationships(reg, init, record);
      assert forall j :: 0 <= j < |init| ==> init[j] == rels[j];
      match RelatedSerializer(reg, last)
      case None => m
      case Some(s) => m[s.collectionName := RelationshipOf(s, last, record)]
  }

  /** The relationship stored under a name is the one of the last relator with that name. */
  lemma {:induction false} RelationshipsLastWins(reg: Registry, rels: seq<Relator>, record: Record, j: nat)
    requires j < |rels| && RelatedName(reg, rels[j]).Some?
    requires forall l :: j < l < |rels| ==> RelatedName(reg, rels[l]) != RelatedName(reg, rels[j])
    ensures RelatedName(reg, rels[j]).value in Relationships(reg, rels, record)
    ensures Relationships(reg, rels, record)[RelatedName(reg, rels[j]).value]
      == RelationshipOf(RelatedSerializer(reg, rels[j]).value, rels[j], record)
    decreases |rels|
  {
    var init := rels[..|rels| - 1];
    if j < |rels| - 1 {
      assert init[j] == rels[j];
      forall l | j < l < |init| ensures RelatedName(reg, init[l]) != RelatedName(reg, init[j]) {
        assert init[l] == rels[l];
      }
      RelationshipsLastWins(reg, init, record, j);
    }
  }

  /**
   * Building the relationships dictionary relator by relator, as the source's loop over
   * `getArray(options.relators)` does.
   */
  method BuildRelationships(reg: Registry, rels: seq<Relator>, record: Record)
    returns (relationships: map<string, Relationship>)
    ensures relationships == Relationships(reg, rels, record)
  {
    relationships := map[];
    for j := 0 to |rels|
      invariant relationships == Relationships(reg, rels[..j], record)
    {
      var serializer := RelatedSerializer(reg, rels[j]);
      assert rels[..j + 1][..j] == rels[..j];
      if serializer.Some? {
        relationships := relationships[serializer.value.collectionName := RelationshipOf(serializer.value, rels[j], record)];
      }
    }
    assert rels[..|rels|] == rels;
  }

  /**
   * The resource `createResource` builds for a record: its identifier, its projected
   * attributes, and its relationships when there is at least one.
   */
  function ResourceOf(reg: Registry, collectionName: string, o: Options, record: Record): (r: Resource)
    ensures r.AsIdentifier() == CreateIdentifier(collectionName, o, record)
    ensures r.GetKey() == KeyOf(collectionName, o, record)
  {
    var relationships := Relationships(reg, RelatorList(o), record);
    Resource(collectionName, Field(record, o.idKey), AttributesOf(o, record),
      if |relationships| > 0 then Some(relationships) else None)
  }

  /**
   * What the resource of a record holds: the attributes are the record's fields minus the
   * id field, filtered by the projection, with the record's values; `relationships` is
   * present exactly when some relator has a related serializer, and is then `Relationships`.
   */
  lemma ResourceOfContents(reg: Registry, collectionName: string, o: Options, record: Record)
    ensures var r := ResourceOf(reg, collectionName, o, record);
      && o.idKey !in r.attributes
      && (forall k :: k in r.attributes <==> k in record && k != o.idKey && Projected(o, k))
      && (forall k :: k in r.attributes ==> r.attributes[k] == record[k])
      && (r.relationships.Some? <==>
            exists j :: 0 <= j < |RelatorList(o)| && RelatedName(reg, RelatorList(o)[j]).Some?)
      && (r.relationships.Some? ==> r.relationships.value == Relationships(reg, RelatorList(o), record))
  {
    var relationships := Relationships(reg, RelatorList(o), record);
    if |relationships| > 0 {
      var name :| name in relationships;
    } else {
      assert forall name :: name !in relationships;
    }
  }

  /**
   * `createResource`: the identifier of the record, its projected attributes without the
   * id field, and its relationships keyed by related collection name (absent when there
   * are none).
   */
  method CreateResource(reg: Registry, collectionName: string, o: Options, record: Record)
    returns (r: Resource)
    ensures r == ResourceOf(reg, collectionName, o, record)
  {
    var id := Field(record, o.idKey);
    var attributes := ProjectAttributes(o, record);
    var relationships: map<string, Relationship> := map[];
    if o.relators.Some? {
      relationships := BuildRelationships(reg, o.relators.value, record);
    }
    assert relationships == Relationships(reg, RelatorList(o), record);
    if |relationships| > 0 {
      r := Resource(collectionName, id, attributes, Some(relationships));
    } else {
      r := Resource(collectionName, id, attributes, None);
    }
  }
}
