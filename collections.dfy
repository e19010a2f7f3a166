/**
 * The mutable collections the SDK stores (`List<T>`, `Dictionary<TKey, TValue>`) and
 * `InternalCollectionExtensions.Clone`, the defensive copy its constructors make.
 */
module Collections {
  import opened Wrappers

  /** `ArgumentNullException` from an `Ensure.NotNull`/`NotNullOrEmpty` guard. */
  datatype ArgumentError = ArgumentNull(paramName: string)

  /** `List<T>`: its elements, in order. */
  class MutableList<T> {
    var items: seq<T>

    constructor (init: seq<T>)
      ensures items == init
    {
      items := init;
    }

    method Add(x: T)
      modifies this
      ensures items == old(items) + [x]
    {
      items := items + [x];
    }

    method Clear()
      modifies this
      ensures items == []
    {
      items := [];
    }
  }

  /** `Dictionary<TKey, TValue>`: its key-to-value mapping. */
  class MutableDictionary<K(==), V> {
    var entries: map<K, V>

    constructor ()
      ensures entries == map[]
    {
      entries := map[];
    }

    /** The indexer setter `this[key] = value`. */
    method Set(key: K, value: V)
      modifies this
      ensures entries == old(entries)[key := value]
    {
      entries := entries[key := value];
    }
  }

  /** `Clone(items)` for a list: a null source throws; otherwise a new list is filled by
      enumerating the source once, so it holds the same elements in the same order and
      shares no storage with the source. */
  method CloneList<T>(items: MutableList?<T>) returns (r: Result<MutableList<T>, ArgumentError>)
    ensures items == null ==> r == Failure(ArgumentNull("items"))
    ensures items != null ==> r.Success? && fresh(r.value) && r.value.items == items.items
  {
    if items == null {
      return Failure(ArgumentNull("items"));
    }
    var copy := new MutableList<T>([]);
    var i := 0;
    while i < |items.items|
      invariant 0 <= i <= |items.items|
      invariant copy.items == items.items[..i]
    {
      copy.Add(items.items[i]);
      i := i + 1;
    }
    assert items.items[..i] == items.items;
    return Success(copy);
  }

  /** `Clone(items)` for a dictionary: a null source throws; otherwise a new dictionary
      is filled entry by entry, so it has the same mapping and shares no storage with
      the source. */
  method CloneDictionary<K, V>(items: MutableDictionary?<K, V>)
    returns (r: Result<MutableDictionary<K, V>, ArgumentError>)
    ensures items == null ==> r == Failure(ArgumentNull("items"))
    ensures items != null ==> r.Success? && fresh(r.value) && r.value.entries == items.entries
  {
    if items == null {
      return Failure(ArgumentNull("items"));
    }
    var copy := new MutableDictionary<K, V>();
    var remaining := items.entries.Keys;
    while remaining != {}
      invariant remaining <= items.entries.Keys
      invariant copy.entries.Keys == items.entries.Keys - remaining
      invariant forall k :: k in copy.entries ==> copy.entries[k] == items.entries[k]
      decreases remaining
    {
      var k :| k in remaining;
      copy.Set(k, items.entries[k]);
      remaining := remaining - {k};
    }
    return Success(copy);
  }
}
