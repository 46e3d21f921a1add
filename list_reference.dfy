/**
 * The lazy, memoising list reference of dev.morphia.mapping.experimental.ListReference.
 *
 * A reference either starts out holding its values, or holds the ids of the
 * referenced entities and fetches the entities from the datastore on the
 * first `get()`. The one mutable field, `values`, is absent (Java's null)
 * until it is filled by `get()` or overwritten by `setValues`.
 */
module Reference {
  import opened Wrappers

  /**
   * What `find()` of the superclass CollectionReference returns, which is
   * not part of this model: an oracle of the ids and of how many calls of
   * `find()` were made before. `None` is a null result. `queries` counts
   * the calls of `find()`.
   */
  class Datastore<K, T> {
    const answer: (seq<K>, nat) -> Option<seq<T>>
    var queries: nat

    constructor (answer: (seq<K>, nat) -> Option<seq<T>>)
      ensures this.answer == answer && queries == 0
    {
      this.answer := answer;
      queries := 0;
    }

    /** `find()`: one call, answered by the oracle and counted. */
    method Find(ids: seq<K>) returns (r: Option<seq<T>>)
      modifies this
      ensures queries == old(queries) + 1
      ensures r == answer(ids, old(queries))
    {
      r := answer(ids, queries);
      queries := queries + 1;
    }
  }

  class ListReference<K, T> {
    /** The datastore given at construction; null when built from values. */
    const datastore: Datastore?<K, T>
    const ids: seq<K>
    /** The cached list; `None` while unresolved. */
    var values: Option<seq<T>>
    /** How often the superclass's `resolve()` step was invoked. */
    var resolutions: nat

    /** A reference without a datastore (built from a non-null list) always
        holds its values, so `get()` never needs to fetch for it. */
    ghost predicate Valid()
      reads this
    {
      datastore == null ==> values.Some?
    }

    /** `ListReference(datastore, mapper, model, ids)`: nothing is fetched yet. */
    constructor FromIds(datastore: Datastore<K, T>, ids: seq<K>)
      ensures Valid()
      ensures this.datastore == datastore && this.ids == ids
      ensures values == None && resolutions == 0
    {
      this.datastore := datastore;
      this.ids := ids;
      values := None;
      resolutions := 0;
    }

    /** `ListReference(List<T> values)`: prepopulated, with no datastore. */
    constructor FromValues(vs: seq<T>)
      ensures Valid()
      ensures datastore == null
      ensures values == Some(vs) && resolutions == 0
    {
      datastore := null;
      values := Some(vs);
      resolutions := 0;
    }

    /** `getValues()`: the cached list, absent or not, without fetching. */
    method GetValues() returns (r: Option<seq<T>>)
      ensures r == values
    {
      r := values;
    }

    /** The superclass's `resolve()` step, of which only the call is modelled. */
    method Resolve()
      modifies this`resolutions
      ensures resolutions == old(resolutions) + 1
    {
      resolutions := resolutions + 1;
    }

    /** `setValues(xs)`: a new list with the elements of xs in order, then `resolve()`. */
    method SetValues(xs: seq<T>)
      requires Valid()
      modifies this`values, this`resolutions
      ensures Valid()
      ensures values == Some(xs)
      ensures resolutions == old(resolutions) + 1
    {
      values := Some(xs);
      Resolve();
    }

    /**
     * `get()`: fetch only while the list is absent, then return the cached
     * list. A null answer from the datastore is not cached.
     */
    method Get() returns (r: Option<seq<T>>)
      requires Valid()
      modifies this`values, datastore
      ensures Valid()
      ensures values == r
      ensures old(values).Some? ==> r == old(values)
      ensures old(values).Some? && datastore != null ==> datastore.queries == old(datastore.queries)
      ensures old(values).None? ==>
        && datastore != null
        && r == datastore.answer(ids, old(datastore.queries))
        && datastore.queries == old(datastore.queries) + 1
    {
      if values == None {
        values := datastore.Find(ids);
      }
      r := values;
    }
  }

  /** Built with prepopulated values, `get()` returns them, every time.
      (That it never fetches is `Get`'s own contract: the list is present.) */
  method PrepopulatedGet<K, T>(vs: seq<T>) returns (r1: Option<seq<T>>, r2: Option<seq<T>>, cached: Option<seq<T>>)
    ensures r1 == Some(vs) && r2 == Some(vs)
    ensures cached == Some(vs)
  {
    var ref := new ListReference<K, T>.FromValues(vs);
    r1 := ref.Get();
    r2 := ref.Get();
    cached := ref.GetValues();
  }

  /** Built from ids, the first `get()` fetches exactly once and caches a
      non-null answer; the second returns the same list without fetching,
      and `getValues()` reports it. */
  method FirstGetFetchesOnce<K, T>(answer: (seq<K>, nat) -> Option<seq<T>>, ids: seq<K>)
    returns (unresolved: Option<seq<T>>, r1: Option<seq<T>>, r2: Option<seq<T>>, cached: Option<seq<T>>, fetches: nat)
    requires answer(ids, 0).Some?
    ensures unresolved == None
    ensures r1 == answer(ids, 0) && r2 == r1 && cached == r1
    ensures fetches == 1
  {
    var db := new Datastore(answer);
    var ref := new ListReference.FromIds(db, ids);
    unresolved := ref.GetValues();
    r1 := ref.Get();
    r2 := ref.Get();
    cached := ref.GetValues();
    fetches := db.queries;
  }

  /** A null answer leaves the list absent, so the next `get()` fetches again. */
  method NullAnswerIsNotCached<K, T>(answer: (seq<K>, nat) -> Option<seq<T>>, ids: seq<K>)
    returns (r1: Option<seq<T>>, r2: Option<seq<T>>, fetches: nat)
    requires answer(ids, 0) == None
    ensures r1 == None
    ensures r2 == answer(ids, 1)
    ensures fetches == 2
  {
    var db := new Datastore(answer);
    var ref := new ListReference.FromIds(db, ids);
    r1 := ref.Get();
    r2 := ref.Get();
    fetches := db.queries;
  }

  /** After `setValues(xs)` on an unresolved reference, `get()` returns xs
      and the datastore is never queried. */
  method SetValuesPreemptsFetch<K, T>(answer: (seq<K>, nat) -> Option<seq<T>>, ids: seq<K>, xs: seq<T>)
    returns (r: Option<seq<T>>, fetches: nat)
    ensures r == Some(xs)
    ensures fetches == 0
  {
    var db := new Datastore(answer);
    var ref := new ListReference.FromIds(db, ids);
    ref.SetValues(xs);
    r := ref.Get();
    fetches := db.queries;
  }

  /** `setValues` overwrites a list already cached by `get()`. */
  method SetValuesReplacesCachedList<K, T>(answer: (seq<K>, nat) -> Option<seq<T>>, ids: seq<K>, xs: seq<T>)
    returns (r1: Option<seq<T>>, r2: Option<seq<T>>, fetches: nat)
    ensures r1 == answer(ids, 0)
    ensures r2 == Some(xs)
    ensures fetches == 1
  {
    var db := new Datastore(answer);
    var ref := new ListReference.FromIds(db, ids);
    r1 := ref.Get();
    ref.SetValues(xs);
    r2 := ref.Get();
    fetches := db.queries;
  }
}
