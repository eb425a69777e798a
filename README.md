# ts-japi serializer and document cache, modelled in Dafny

This project models the core of the ts-japi library. The library turns application records into JSON:API data documents. The model covers two classes.

- `Serializer` (`src/classes/serializer.ts`):
  - `createIdentifier` builds a resource identifier (type and id) from a record.
  - `createResource` builds a full resource. Its attributes are the record's fields, kept or dropped by the `projection` option, with the id field removed. Its relationships come from one relator per related collection.
  - `serialize` layers the call-time options over the serializer's own and validates them. It then runs one of four modes: null data, identifiers only, a single relationship (`onlyRelationship`), or full resources with or without `asIncluded`. The result is a document with `jsonapi`, `data` and an optional `included`.
  - `recurseResources` walks relators breadth-first, up to `depth` levels. It fills `included` with each related resource at most once, and skips resources already in the primary data as full resources. Related data that is `null` or `undefined` makes the walk, and so `serialize`, fail with a `TypeError`.
- `Cache` (`src/classes/cache.ts`) is a bounded FIFO store of (data, options, document) entries.
  - `get` returns the document of the first entry whose data matches under the resolver and whose options are the very same object.
  - `set` evicts the oldest entry when the store is over the limit, then appends.

Modules:

- `Wrappers`: `Option` and `Result`.
- `JsonApi`: values, records, keys, identifiers, resources, relationships and the document shape.
- `InsertionMaps`: the host language's insertion-ordered `Map`, as a value with an invariant.
- `Configuration`: options, call-time overrides, relators, and the registry of serializers that relators point into.
- `Builders`: `createIdentifier`, `createResource` and the relationships of a record.
- `Traversal`: `recurseResources`, plus `Within`/`Reached`, which say which records the walk may reach, and `RootCovered`, which says which records it must include.
- `Serialization`: `serialize` and its modes.
- `DocumentCache`: the `Cache` class and the functions that specify it.

Serializers point at each other through relators, so the object graph may have cycles. The model replaces those references with indices into a `Registry` sequence. A relator becomes a pure function from a record to its related data, plus the registry index of its related serializer.

Three behaviours follow the code as written, and one follows the code where its interface documentation says otherwise:

- `serialize` with `undefined` data and no document metaizer fails with a `TypeError` (serializer.ts:140-142). It does not produce a document with null data.
- `.flat()` keeps a `null` or `undefined` result of a relator's data function as an element (serializer.ts:289). The next `createResource` then reads a field of it and throws (serializer.ts:78, 293). The model returns `RelatedDataError` there rather than skipping the element.
- The cache checks `storage.length > limit` before appending (cache.ts:63-66). It therefore holds `limit + 1` documents, and the first document stored survives `limit + 1` insertions, its own included (`FirstEntryLifetime`).
- The `projection` option is documented (src/interfaces/serializer.interface.ts:93-97) as an object of 0s, which hide fields, or of 1s, which show them; an option set to `undefined` is documented to leave `attributes` undefined. The code (serializer.ts:82-89) copies only the fields whose projection value is truthy, and treats an `undefined` option as no projection. So `{secret: 0}` hides every attribute, not just `secret`, and an `undefined` option shows every field. The model follows the code (`Builders.Shown`).

## Model

| member | source | states |
|---|---|---|
| Configuration.NewSerializer | src/classes/serializer.ts:25-59 | A new serializer keeps its collection name. Each option is the one given, or else its default: id key "id", version "1.0", depth 0, no projection, no relators, no `onlyRelationship`, and every flag off, including the document metaizer. With no options given, the options are exactly these defaults. |
| Configuration.MergeNothing | src/classes/serializer.ts:129-134 | A call without options runs with the serializer's own options, unchanged. |
| InsertionMaps.FirstKeys | src/classes/serializer.ts:253-258 | The key order of a dictionary filled by setting a value under each key in turn: exactly the keys of the sequence, each once. |
| InsertionMaps.FirstKeysOrder | src/classes/serializer.ts:253-258 | A key earlier in that order first occurs in the sequence before any occurrence of a later key. |
| Builders.CreateIdentifier | src/classes/serializer.ts:62-70 | The identifier's type is the collection name and its id is the record's id field. A missing field gives an undefined id. |
| Builders.RelationshipOf | src/classes/serializer.ts:98-102 | A relator's relationship keeps the four cases: unresolved, null, to-one and to-many. Each identifier in it carries the key the related serializer gives the related record, in order. |
| Builders.ProjectAttributes | src/classes/serializer.ts:78-109 | A key is an attribute exactly when it is a record field, is not the id field, and is either unprojected or has a truthy projection value. Each attribute holds the record's value, and the id field is never an attribute. The result is `AttributesOf`. |
| Builders.Relationships | src/classes/serializer.ts:92-106 | The relationship names are exactly the collection names of the relators that have a related serializer. |
| Builders.RelationshipsLastWins | src/classes/serializer.ts:96-102 | When two relators share a collection name, the later relator's relationship is the one kept. |
| Builders.BuildRelationships | src/classes/serializer.ts:92-106 | The loop over the relators builds exactly the `Relationships` dictionary. |
| Builders.ResourceOf | src/classes/serializer.ts:73-121 | The resource of a record has `CreateIdentifier` of the record as its identifier part, so its key is the record's key under that serializer. |
| Builders.ResourceOfContents | src/classes/serializer.ts:78-115 | The resource's attributes are the projected record fields without the id field, with the record's values. `relationships` is present exactly when some relator has a related serializer, and then equals `Relationships`. |
| Builders.CreateResource | src/classes/serializer.ts:73-121 | The method builds exactly `ResourceOf` of the record. |
| InsertionMaps.LastIndex | src/classes/serializer.ts:256-259 | Finds the last position of a key in a key sequence: none exactly when the key is absent, otherwise a position holding the key with no later position holding it. This is the entry a dictionary keeps when values are set in that order. |
| Traversal.Items | src/classes/serializer.ts:289 | Flattening one record's related data gives its related records, plus a `null`/`undefined` element exactly when the data itself is `null` or `undefined`. |
| Traversal.RelatedData | src/classes/serializer.ts:289 | The flattened related data of a batch holds exactly the records the relator yields for some record of the batch. |
| Traversal.RelatedDataUnreadable | src/classes/serializer.ts:289 | The flattened related data holds a `null`/`undefined` element exactly when the relator yields `null` or `undefined` for some record of the batch. |
| Traversal.WithinMono | src/classes/serializer.ts:282-283 | A record reachable within n relator hops is also reachable within any larger bound. |
| Traversal.ReachedByStep | src/classes/serializer.ts:286-300 | A record related to a batch lying within level-1 hops lies within level hops, under the related serializer. |
| Traversal.IncludeRelated | src/classes/serializer.ts:293-301 | One related record: `included` gains the record's `ResourceOf` under its key exactly when the key was neither included nor a full primary resource, and is otherwise unchanged. Afterwards the present keys are the earlier ones plus this key. The added resource is reached. |
| Traversal.NewlyIncludedFrom | src/classes/serializer.ts:292-301 | The records the loop over related data includes are related records whose keys were not present before. |
| Traversal.NewlyIncludedDistinct | src/classes/serializer.ts:292-301 | The records the loop includes have pairwise distinct keys. |
| Traversal.NewlyIncludedCovers | src/classes/serializer.ts:292-301 | The keys present before plus the keys of all related records are the keys present before plus the keys of the records the loop includes. |
| Traversal.NewlyIncludedFirst | src/classes/serializer.ts:292-300 | Each record the loop includes is the first element of the related data that carries its key, so a later record with the same key never replaces it. |
| Traversal.IncludeAllAppends | src/classes/serializer.ts:293-300 | Setting, in turn, the resource of each of some records with distinct keys not yet in `included` appends exactly those keys, in the records' order, after the earlier key order. Each key holds its record's resource, and earlier entries never move or change. |
| Traversal.NewlyIncludedAppends | src/classes/serializer.ts:292-300 | After the loop over related data, the key order of `included` is the earlier order followed by the keys of the newly included records, in discovery order. Each new key holds the resource of the first related record with that key, and earlier entries stay. |
| Traversal.IncludeRelatedData | src/classes/serializer.ts:289-301 | The loop over one relator's related data fails exactly when the relator yields `null` or `undefined` for a record of the batch. Otherwise the records it returns are exactly `NewlyIncluded`, in order: each related record whose key is not yet present, first occurrence only. `included` afterwards is exactly `IncludeAll` of those records: each record's resource set under its key, in that order (so, by `NewlyIncludedAppends`, appended in discovery order with the first record found kept). The present keys grow by exactly the keys of the related data. The returned records lie within the level. |
| Traversal.IncludeItems | src/classes/serializer.ts:290-301 | The related data, when non-empty, goes through the loop element by element. It fails exactly when an element is `null` or `undefined`. Otherwise the same three facts as `IncludeRelatedData` hold for the elements given: the returned records are `NewlyIncluded`, `included` is `IncludeAll` of them, and the present keys grow by the elements' keys. |
| Traversal.IncludeItem | src/classes/serializer.ts:292-300 | One element of the related data keeps the loop's state: after it, the returned records are `NewlyIncluded` of the elements so far, `included` is `IncludeAll` of them over the dictionary the loop started from, the present keys are the earlier ones plus the elements' keys, and the dictionary has only grown soundly. |
| Traversal.VisitRelator | src/classes/serializer.ts:286-306 | One relator with a related serializer over one batch fails exactly when the relator yields `null` or `undefined` for a record of the batch (the only unreadable data the model has; see Left out). Otherwise the newly included records are exactly `NewlyIncluded`, `included` afterwards is exactly `IncludeAll` of them (appended in discovery order, first record found kept), and the present keys grow by exactly the related data's keys. The queue gains exactly one entry, those records with the related serializer's relators, when there are such records and relators, and nothing otherwise. Queued records lie within the level. The batch's running state `BatchTracked` advances by this relator. |
| Traversal.Enqueue | src/classes/serializer.ts:303-305 | The queue gains the newly included records with the related serializer's relators exactly when there are records and the serializer has relators, and is unchanged otherwise. The new entry lies within the level and earlier entries keep their reach. |
| Traversal.VisitAt | src/classes/serializer.ts:286-306 | One relator of a batch: without a related serializer nothing changes. Otherwise it fails exactly when the relator yields `null` or `undefined` for a record of the batch, a failure implies `MayFail`, and without failure the batch's running state `BatchTracked` advances by this relator. |
| Traversal.VisitBatch | src/classes/serializer.ts:284-307 | One queue entry: the queue only grows and its new entries are reachable. It fails exactly when some relator of the batch hits `null` or `undefined` data, and a failure implies `MayFail`. Without failure the batch's state is `BatchTracked`: the present keys are exactly `CoveredAfter` (the earlier keys plus every related record's key), the queue gains exactly `QueuedAfter`, one entry per relator in relator order, and `included` is exactly `IncludedAfter`: relator by relator, the newly included records' resources appended in discovery order, first record found kept. |
| Traversal.VisitRelators | src/classes/serializer.ts:286-306 | The loop over the relators of one batch states the same as `VisitBatch`, for the batch's records and relators. |
| Traversal.CoveredAfterCovers | src/classes/serializer.ts:284-307 | Every related record of every relator of the batch has its key among the keys present after the batch. |
| Traversal.RecurseResources | src/classes/serializer.ts:279-310 | Nothing changes when depth is at most 0 or no relators are set. Otherwise `included` only grows, by distinct keys. Each new entry is the `ResourceOf` of a record reachable within depth hops, and no new key is a full resource in the primary data. The walk fails only if some reachable record's relator yields `null` or `undefined`, and it does fail if a relator of the call does so for a primary record. Without failure and with depth at least 1, every record one hop from the primary records is present: included, or a full primary resource. |
| Serialization.FindRelator | src/classes/serializer.ts:215-217 | Returns the first relator whose related collection name equals `onlyRelationship`, or none when no relator's does. |
| Serialization.ShapeData | src/classes/serializer.ts:268-275 | Singular input gives the one primary value, or null when there is none. Plural input gives a list of all primary values in insertion order: their keys are the dictionary's key order, so distinct, and equal the dictionary's keys. |
| Serialization.NodesKeyed | src/classes/serializer.ts:268-272 | The values of the primary dictionary, in order, carry the keys of its key order, so no key appears twice. |
| Serialization.IncludedMember | src/classes/serializer.ts:265-267 | `included` is present exactly when the dictionary is non-empty. It is then the dictionary's values in insertion order, each the entry stored under its own key, each key exactly once. |
| Serialization.IdentifierPrimary | src/classes/serializer.ts:199-205 | In identifier-only mode, the primary dictionary holds one identifier per distinct input key, and nothing else. Its keys are ordered by first occurrence in the input. |
| Serialization.ShapeIdentifierData | src/classes/serializer.ts:199-205 | Identifier-only data holds distinct identifiers for exactly the input keys, in order of first occurrence, singular for a single record. |
| Serialization.ResourcesOfAt | src/classes/serializer.ts:174-176 | The resources of a list of records hold one resource per record, each `ResourceOf` of the record at the same position. |
| Serialization.GetResources | src/classes/serializer.ts:174-176 | The loop builds exactly `ResourcesOf` the records: one resource per record, in order, each exactly `ResourceOf` of its record. Their keys are the records' keys, in the same order. |
| Serialization.ResourcePrimary | src/classes/serializer.ts:256-259 | The primary dictionary holds one full resource per distinct key: the last resource in the list with that key. The keys are ordered by first occurrence in the list. |
| Serialization.IncludeResources | src/classes/serializer.ts:249-252 | With `asIncluded`, `included` starts out with one resource per distinct key: the last resource in the list with that key. The keys are ordered by first occurrence in the list. |
| Serialization.LinkagePrimary | src/classes/serializer.ts:235-242 | The primary dictionary holds exactly one identifier per distinct key of a to-many linkage, ordered by first occurrence. |
| Serialization.ResourceMaps | src/classes/serializer.ts:247-262 | The primary keys are the input keys, ordered by first occurrence in the input. With `asIncluded`, they are identifiers, and `included` holds the resource of the last record with each input key, and those keys come first in `included`, in the same order. Without it, each is the resource of the last record with that key, and no input key is included. Every other included entry was reached within depth hops. The failure and one-hop coverage facts are those of `RecurseResources`. |
| Serialization.ShapeResourceDocument | src/classes/serializer.ts:263-275 | Shaping those dictionaries gives the document `ResourceDocumentOk` describes. |
| Serialization.ResourceMode | src/classes/serializer.ts:247-275 | The default and `asIncluded` modes fail with `RelatedDataError` only when `MayFail` holds, and do fail when a relator of the call yields `null`/`undefined` for a primary record. Otherwise the data keys are the input keys, ordered by first occurrence in the input, in the input's shape. Without `asIncluded`, each datum is the `ResourceOf` of the last record with its key. With `asIncluded`, the data are identifiers and `included` starts with those resources, in the same order. Every other included resource is reached, `included` has distinct keys, and at depth 1 or more every record one hop from the primary records is present. |
| Serialization.ShapeLinkageDocument | src/classes/serializer.ts:235-275 | Shaping the relationship-only dictionaries gives the linkage as data and only reached resources in `included`. |
| Serialization.RelationshipOnlyMode | src/classes/serializer.ts:224-245 | A to-one linkage gives singular data holding that identifier, and a to-many linkage gives its identifiers, with repeated keys collapsed to their first occurrence. A null or unresolved linkage gives no data and no walk. Included resources are reached from the single record. Failure happens only on `null`/`undefined` related data after a to-one or to-many linkage. With depth 1 or more, every record one hop from the record is included. |
| Serialization.Serialize | src/classes/serializer.ts:129-277 | A negative depth fails with the range error. Missing data without a document metaizer fails with the type error. `jsonapi` carries the version when it is non-empty. Null mode gives null data and no `included`. Identifier mode gives distinct identifiers for exactly the input keys, in order of first occurrence, and no `included`. The `onlyRelationship` errors come in source order; otherwise the outcome is that of `RelationshipOnlyMode` for the selected relator. Default mode's outcome is that of `ResourceMode`. `RelatedDataError` arises only in these two modes. `included` is non-empty when present, has distinct keys, and is absent at depth 0 without `asIncluded`. |
| DocumentCache.Find | src/classes/cache.ts:49-54 | Returns nothing exactly when no entry matches (resolver on the data, identity on the options). Otherwise returns the document of the earliest matching entry. |
| DocumentCache.InsertWithinCapacity | src/classes/cache.ts:63-66 | Storing a document never takes the store beyond limit + 1 entries. |
| DocumentCache.InsertKeepsNewest | src/classes/cache.ts:63-66 | One insertion keeps exactly the newest limit + 1 entries. |
| DocumentCache.InsertAllKeepsNewest | src/classes/cache.ts:58-68 | Any sequence of insertions keeps exactly the newest limit + 1 entries, oldest first (strict FIFO, no promotion). |
| DocumentCache.FirstEntryLifetime | src/classes/cache.ts:63-66 | In a fresh cache, the first entry survives limit + 1 insertions, its own included, and the next insertion evicts it. |
| DocumentCache.FindAfterInsert | src/classes/cache.ts:49-66 | With a reflexive resolver, looking up the pair just stored finds a document: the one of the earliest matching entry, which may be an older entry. |
| DocumentCache.OptionsByReference | src/classes/cache.ts:51 | A lookup with a different options object misses every entry stored with another options object, whatever the data. |
| DocumentCache.Cache.constructor | src/classes/cache.ts:39-42 | The store starts empty. A falsy limit keeps the default 10, and no resolver keeps identity on the data. |
| DocumentCache.Cache.Get | src/classes/cache.ts:45-55 | The lookup loop returns exactly `Find` over the stored entries, and it changes nothing. |
| DocumentCache.Cache.Set | src/classes/cache.ts:58-68 | Returns the given document. Drops the oldest entry exactly when the store is over the limit, then appends the new entry. Keeps the store within limit + 1 entries. |

## Left out

- Links, meta and pagination (linkers, metaizers, the paginator, a relationship's links and meta) are not modelled. The only part kept is whether a document metaizer is set, because the missing-data check depends on it.
- The `Relator`, `Linker`, `Metaizer`, `Resource` and `ResourceIdentifier` classes, the `merge` and `getArray` helpers, and the error interfaces are not part of this model. A relator is reduced to its data function and related serializer. A resource or identifier is reduced to its type, id, attributes and relationships.
- The walk's guard (serializer.ts:297) lets a key already in `primary` be included again when its entry is an instance of `ResourceIdentifier`. The model takes a full resource not to be such an instance, so only a primary identifier lets its key be included. If `Resource` subclassed `ResourceIdentifier`, the guard would reduce to `!included.has(key)`, and full primary resources would be included again.
- Configuration.Related: a to-many result is a list of records. A `null` or `undefined` element inside that list is not modelled. `.flat()` would keep it, and `createResource` would throw on it as it does on a `null` or `undefined` result. So the walk's failure is stated only for results that are themselves `null` or `undefined`.
- Configuration.Merge: a call-time option replaces the serializer's whole field. The deep merge of object-valued options, such as two projection objects, is not modelled.
- Record: a map from field names to values. The order of `Object.entries` is not modelled, so attribute order is not either.
- Key: a (type, id) pair rather than the `type:id` string. Two pairs that render to the same string are distinct here.
- Value: host values are reduced to undefined, null, booleans, integers and strings. Nested objects, floats, NaN and `Infinity` (as a depth) are not modelled.
- Truthiness: only the forms the modelled options take are covered. A version or `onlyRelationship` counts only when it is a non-empty string, and a projection value only when it is non-zero.
- Asynchrony: every `await` and `Promise.all` is taken as sequential, in list order.
- Traversal.RecurseResources: completeness is stated for records one hop from the primary records. Records further away are described by reachability (every included resource was reached), not by a statement that each of them is included.
- Traversal.RecurseResources: the failure is stated as implied by `MayFail` (some reachable record hits `null` or `undefined` data) and as implied by a hit one hop from the primary records. Exactly which deeper hits the walk meets before it stops is not stated.
- Traversal.RecurseResources: the order of the keys the walk appends to `included`, and which record's resource is kept when several records share a key (the first one found), are stated per relator visit and per batch (`VisitRelator`, `VisitBatch`), not for the whole walk.
- Serialization.ResourceMaps: the order and first-found-wins of the entries the walk adds after the input keys are stated only per relator visit and per batch, as for `RecurseResources`.
- Serialization.ResourceMode: the order of the walked part of `included`, and which record's resource it holds for a shared key, are stated only per relator visit and per batch, as for `RecurseResources`.
- Serialization.RelationshipOnlyMode: the order and first-found-wins of the walked `included` entries are stated only per relator visit and per batch, as for `RecurseResources`.
- Serialization.Serialize: the order and first-found-wins of the walked `included` entries are stated only per relator visit and per batch, as for `RecurseResources`.
- Serialization.Serialize: the `included` bound states that every added key is reachable within `depth` hops. It does not count how many times the never-dequeued queue is re-walked.
- Serialization.Error: errors are an enumeration with their class and message. No stack or exception object is modelled. `RelatedDataError` stands for the `TypeError` the host engine throws when `createResource` reads a field of `null` or `undefined`; the engine's own message text is not modelled.
- The cache is not used by `serialize` in this version of the code, so it is modelled on its own, generic in its data, options and document types. Options are compared by equality, which stands for reference identity when the options type is a class.
- DocumentCache.Cache.constructor: the default resolver is `Object.is`, modelled as equality. The difference on NaN and signed zero is not modelled. A limit that is not a number is not modelled.
