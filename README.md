# Morphia polygon value object and lazy list reference, in Dafny

This project models two pieces of the Morphia object-document mapper.

- `dev.morphia.geo.Polygon` (`polygon.dfy`, module `Geo`): a GeoJSON polygon.
  Its coordinates are a list of linear rings. The first ring is the exterior
  boundary and every further ring is a hole (section 3.1.6 of RFC 7946). The
  Java fields are final, so the polygon is a datatype and its operations are
  functions. A ring (`LineString`) is a type parameter `L`. Its `equals` is
  Dafny's `==` and its `hashCode` is a function `h: L -> Int32` that callers
  supply. `List.equals` and `List.hashCode` follow the contracts that
  `java.util.List` documents. `int` overflow in the hash is modelled as
  two's-complement truncation (`Wrap32`).
- `dev.morphia.mapping.experimental.ListReference` (`list_reference.dfy`,
  module `Reference`): a reference to a list of entities that is resolved on
  first read and then cached. It is a class with one mutable field, `values`,
  which is `None` while the reference is unresolved. What the superclass's
  `find()` returns is given by the class `Datastore`. It answers each call
  through an oracle `answer(ids, k)`, where `k` is the number of calls of
  `find()` made before, and it counts the calls. A `None` answer stands for
  Java's null.
- `wrappers.dfy` holds the `Option` and `Result` datatypes.

`get()` assigns the result of `find()` directly (`ListReference.java:56`),
not through `setValues`, so a fetch never invokes `resolve()`. A null answer
is not cached and is returned as it is, so `Get` returns an `Option`.
`setValues` can overwrite a cached list, so the cached list is not fixed after
the first fetch.

## Model

| member | source | states |
|---|---|---|
| `Geo.FromBoundaries` | core/src/main/java/dev/morphia/geo/Polygon.java:47-54 | An empty list fails with an index error, and only an empty list fails. Otherwise the first element is the exterior and the remaining elements, in order, are the holes. A one-element list gives no holes. |
| `Geo.Coordinates` | core/src/main/java/dev/morphia/geo/Polygon.java:57-62 | The coordinates have length 1 + the number of holes. The exterior comes first, then every hole in stored order. |
| `Geo.ExteriorBoundary` | core/src/main/java/dev/morphia/geo/Polygon.java:70-72 | The getter returns the first ring of the coordinates. |
| `Geo.InteriorBoundaries` | core/src/main/java/dev/morphia/geo/Polygon.java:79-81 | The getter returns the possibly empty rings that follow the exterior in the coordinates. |
| `Geo.Wrap32` | core/src/main/java/dev/morphia/geo/Polygon.java:84-88 | Java `int` arithmetic: the result is in 32-bit range and congruent to the exact value modulo 2^32. It is the exact value when that value fits. |
| `Geo.ListEquals` | core/src/main/java/dev/morphia/geo/Polygon.java:105 | `List.equals` of the hole lists holds exactly when both have the same length and every pair of corresponding rings is equal. |
| `Geo.ListEqualsIsStructural` | core/src/main/java/dev/morphia/geo/Polygon.java:105 | Pairwise `List.equals` of the hole lists holds exactly when the two sequences are equal. |
| `Geo.Equals` | core/src/main/java/dev/morphia/geo/Polygon.java:92-106 | `equals` is false for null. It holds exactly when both exteriors are equal and both hole lists are equal, that is, exactly when the argument is the same polygon value. |
| `Geo.EqualsIsEquivalence` | core/src/main/java/dev/morphia/geo/Polygon.java:92-106 | `equals` is reflexive, symmetric and transitive. |
| `Geo.ListHash` | core/src/main/java/dev/morphia/geo/Polygon.java:86 | `List.hashCode` of the holes: start from 1, then for each ring multiply by 31 and add the ring's hash, in `int` arithmetic. The result is that exact sum truncated once to 32 bits. |
| `Geo.ListHashFromTruncatesOnce` | core/src/main/java/dev/morphia/geo/Polygon.java:86 | Truncating to 32 bits at every step of the `List.hashCode` loop gives the same result as truncating the exact sum once at the end. |
| `Geo.HashCode` | core/src/main/java/dev/morphia/geo/Polygon.java:84-88 | `hashCode` is 31 times the exterior's hash plus the holes' `List.hashCode`, in `int` arithmetic. That equals the exact value `31*h(exterior) + (exact list hash)` truncated once to 32 bits. |
| `Geo.ListHashFromRespectsElementHashes` | core/src/main/java/dev/morphia/geo/Polygon.java:86 | Two hole lists of equal length whose rings hash alike position by position have the same `List.hashCode`. |
| `Geo.HashCodeDependsOnRingHashes` | core/src/main/java/dev/morphia/geo/Polygon.java:84-88 | The polygon hash depends only on the hashes of its rings. It is therefore consistent with any ring equality that the ring hash respects. |
| `Geo.HashCodeConsistentWithRingEquality` | core/src/main/java/dev/morphia/geo/Polygon.java:84-106 | For any ring equality that the ring hash respects, polygons whose rings are equal under it position by position have the same `hashCode`. |
| `Geo.HashCodeConsistentWithEquals` | core/src/main/java/dev/morphia/geo/Polygon.java:84-106 | Polygons that are equal under `equals` have equal `hashCode`. |
| `Geo.CoordinatesOfFromBoundaries` | core/src/main/java/dev/morphia/geo/Polygon.java:47-62 | Round trip: building from a non-empty list and reading `getCoordinates` gives the list back. |
| `Geo.FromBoundariesOfCoordinates` | core/src/main/java/dev/morphia/geo/Polygon.java:47-62 | Round trip: rebuilding a polygon from its coordinates gives the same polygon. |
| `Geo.CoordinatesInjective` | core/src/main/java/dev/morphia/geo/Polygon.java:57-62 | Two polygons with the same coordinates are the same polygon. |
| `Geo.ConstructorsAgree` | core/src/main/java/dev/morphia/geo/Polygon.java:42-54 | `Polygon(e, holes...)` and `Polygon([e] + holes)` build the same polygon. The two are equal under `equals`, hash alike and have the same coordinates. |
| `Reference.Datastore.Find` | core/src/main/java/dev/morphia/mapping/experimental/ListReference.java:56 | One call of `find()` for the reference's ids returns the oracle's answer for that call and adds one to the call count. |
| `Reference.ListReference.FromIds` | core/src/main/java/dev/morphia/mapping/experimental/ListReference.java:28-30 | A reference built from ids keeps the datastore and the ids. Its values start absent and nothing is fetched. |
| `Reference.ListReference.FromValues` | core/src/main/java/dev/morphia/mapping/experimental/ListReference.java:37-39 | A reference built from values holds exactly those values and has no datastore. |
| `Reference.ListReference.GetValues` | core/src/main/java/dev/morphia/mapping/experimental/ListReference.java:42-44 | `getValues()` reports the cached list, or its absence, without fetching. |
| `Reference.ListReference.Resolve` | core/src/main/java/dev/morphia/mapping/experimental/ListReference.java:50 | The superclass's `resolve()` step is recorded as invoked and changes nothing else. |
| `Reference.ListReference.SetValues` | core/src/main/java/dev/morphia/mapping/experimental/ListReference.java:47-51 | `setValues(xs)` replaces the cached list with xs, in order, and invokes `resolve()` once. Nothing else changes and nothing is fetched. |
| `Reference.ListReference.Get` | core/src/main/java/dev/morphia/mapping/experimental/ListReference.java:54-59 | When a list is cached, `get()` returns it unchanged and the datastore is not queried. When no list is cached, `get()` queries exactly once and stores the answer. The cached field always equals the result. |
| `Reference.PrepopulatedGet` | core/src/main/java/dev/morphia/mapping/experimental/ListReference.java:37-59 | Built from values, repeated `get()` calls and `getValues()` return exactly those values. That no fetch happens is `Get`'s contract for a reference whose list is present. |
| `Reference.FirstGetFetchesOnce` | core/src/main/java/dev/morphia/mapping/experimental/ListReference.java:28-59 | Built from ids, the values start absent. The first `get()` fetches once and caches a non-null answer. A second `get()` returns the same list, `getValues()` reports it, and the fetch count stays 1. |
| `Reference.NullAnswerIsNotCached` | core/src/main/java/dev/morphia/mapping/experimental/ListReference.java:55-57 | A null answer from `find()` is returned but not cached, so the next `get()` fetches again. |
| `Reference.SetValuesPreemptsFetch` | core/src/main/java/dev/morphia/mapping/experimental/ListReference.java:47-59 | After `setValues(xs)` on an unresolved reference, `get()` returns xs and the datastore is never queried. |
| `Reference.SetValuesReplacesCachedList` | core/src/main/java/dev/morphia/mapping/experimental/ListReference.java:47-59 | `setValues(xs)` overrides a list that an earlier `get()` cached. The next `get()` returns xs without a second fetch. |

## Left out

- `Polygon.convert` (both overloads): builds MongoDB driver GeoJSON types through `GeoJson.convertLineStrings` and `LineString.convert`, which are not part of this model.
- `Polygon.toString`: string formatting of opaque ring objects.
- The private no-argument `Polygon()` constructor used by reflection: it leaves the exterior null, and null rings are not modelled. The `id` field plays no part in equality or hashing and is not modelled.
- Geo.Equals: the `this == o` identity shortcut is not modelled separately, because value identity implies structural equality, which `Equals` already covers. Arguments of a class other than `Polygon` are not modelled. Only null is.
- Aliasing: `Arrays.asList` and `subList` return views of the caller's array or list, and `getInteriorBoundaries` returns an unmodifiable view. The model uses immutable sequences, so later mutation of the caller's list through such a view is not captured.
- `ListReference.setValues` copies its argument into a fresh `ArrayList`. With sequences a copy is equal to its argument, so object identity of the cached list is not modelled.
- Reference.ListReference.FromValues: a null argument is not modelled. Java then holds a null list with no datastore, and a later `get()` calls the superclass's `find()`, whose behaviour is not part of this model. `Valid` describes only references built from a non-null list. The superclass's no-argument constructor is not part of this model either, so the model says nothing about the ids of such a reference.
- Reference.ListReference.FromValues: the constructor stores the caller's list without copying it, and `get()` returns the cached list object itself. Mutation of that list by the caller or by a receiver of `get()` changes what later calls return. Sequences cannot express this aliasing.
- Reference.ListReference.SetValues: a null argument is not modelled. In Java it first sets `values` to a new empty list, then `addAll` throws before `resolve()` runs, so an empty list stays cached.
- Reference.ListReference.Resolve: what the superclass's `resolve()` does is not visible. The model records only that it was invoked.
- Reference.Datastore.Find: the superclass's `find()` (`CollectionReference`), the `Datastore`, the `Mapper` and the `EntityModel` are not part of this model. Their combined effect is the oracle `answer(ids, k)`. No ordering or missing-document semantics are assumed for it. Exceptions raised by the datastore are not modelled.
- Concurrent first access to an unresolved reference is not modelled. The code is plain single-threaded field mutation.
