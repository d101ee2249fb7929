/** Keys and values of the cache: any types. A zero value stands for Go's. */
module CacheTypes {
  type Key(==, 0, !new)
  type Value(==, 0, !new)
  type LoadError(==, 0, !new)
}

/** The cache on values: a map of records and the keys from most to least recently used. */
module CacheSpec {
  import opened CacheTypes
  import opened Common

  /** ttl, staleExtension and times in nanoseconds; maxItems <= 0 means unbounded. */
  datatype Config = Config(ttl: int, staleExtension: int, maxItems: int)

  datatype Record = Record(value: Value, expiresAt: int, staleUntil: int)

  datatype Store = Store(records: map<Key, Record>, recency: seq<Key>)

  function NewRecord(cfg: Config, value: Value, now: int): Record
  {
    Record(value, now + cfg.ttl, now + (cfg.ttl + cfg.staleExtension))
  }

  function Removed(recency: seq<Key>, key: Key): seq<Key>
  {
    if recency == [] then []
    else if recency[0] == key then Removed(recency[1..], key)
    else [recency[0]] + Removed(recency[1..], key)
  }

  function Touched(recency: seq<Key>, key: Key): seq<Key> { [key] + Removed(recency, key) }

  function Touch(store: Store, key: Key): Store
  {
    if key in store.records then store.(recency := Touched(store.recency, key)) else store
  }

  function EvictOne(store: Store): Store
  {
    if store.recency == [] then store
    else
      var n := |store.recency| - 1;
      Store(Drop(store.records, store.recency[n]), store.recency[..n])
  }

  predicate IsFull(cfg: Config, store: Store)
  {
    cfg.maxItems > 0 && |store.records| >= cfg.maxItems
  }

  function Set(cfg: Config, store: Store, key: Key, value: Value, now: int): Store
  {
    var record := NewRecord(cfg, value, now);
    if key in store.records then Store(store.records[key := record], Touched(store.recency, key))
    else
      var room := if IsFull(cfg, store) then EvictOne(store) else store;
      Store(room.records[key := record], [key] + room.recency)
  }

  function Delete(store: Store, key: Key): Store
  {
    if key in store.records then Store(Drop(store.records, key), Removed(store.recency, key)) else store
  }

  function Purged(): Store { Store(map[], []) }

  datatype Lookup = Fresh | Stale | Miss

  function Find(store: Store, key: Key, now: int): Lookup
  {
    if key in store.records && now < store.records[key].expiresAt then Fresh
    else if key in store.records && now < store.records[key].staleUntil then Stale
    else Miss
  }

  /** The outcome of a call of the loader. */
  datatype Load = Loaded(value: Value) | Failed(err: LoadError)

  function Refreshed(cfg: Config, store: Store, key: Key, loader: Load, loadedAt: int): Store
  {
    match loader
    case Loaded(value) => Set(cfg, store, key, value, loadedAt)
    case Failed(_) => store
  }

  /** GetOrLoad on values: a hit touches the key, a miss stores what is loaded. */
  function Got(cfg: Config, store: Store, key: Key, now: int, loader: Load, loadedAt: int): Store
  {
    if Find(store, key, now) == Miss then Refreshed(cfg, store, key, loader, loadedAt) else Touch(store, key)
  }

  predicate Distinct(s: seq<Key>)
  {
    forall i, j :: 0 <= i < j < |s| ==> s[i] != s[j]
  }

  /** The recency sequence lists each stored key once, and a bounded cache keeps its bound. */
  ghost predicate WellFormed(cfg: Config, store: Store)
  {
    && Distinct(store.recency)
    && (forall key :: key in store.records <==> key in store.recency)
    && (cfg.maxItems > 0 ==> |store.records| <= cfg.maxItems)
  }

  // ---------------------------------------------------------------- removing a key from a sequence

  lemma {:induction false} RemovedAbsent(recency: seq<Key>, key: Key)
    requires key !in recency
    ensures Removed(recency, key) == recency
  {
    if recency != [] {
      RemovedAbsent(recency[1..], key);
    }
  }

  lemma {:induction false} RemovedAt(recency: seq<Key>, i: nat)
    requires Distinct(recency) && i < |recency|
    ensures Removed(recency, recency[i]) == recency[..i] + recency[i + 1..]
  {
    if i == 0 {
      RemovedAbsent(recency[1..], recency[0]);
    } else {
      RemovedAt(recency[1..], i - 1);
    }
  }

  lemma RemovedLast(recency: seq<Key>)
    requires Distinct(recency) && recency != []
    ensures Removed(recency, recency[|recency| - 1]) == recency[..|recency| - 1]
  {
    RemovedAt(recency, |recency| - 1);
  }

  lemma {:induction false} RemovedMembers(recency: seq<Key>, key: Key, other: Key)
    ensures other in Removed(recency, key) <==> other in recency && other != key
  {
    if recency != [] {
      RemovedMembers(recency[1..], key, other);
    }
  }

  lemma {:induction false} RemovedDistinct(recency: seq<Key>, key: Key)
    requires Distinct(recency)
    ensures Distinct(Removed(recency, key))
  {
    if recency != [] {
      RemovedDistinct(recency[1..], key);
      RemovedMembers(recency[1..], key, recency[0]);
    }
  }

  lemma {:induction false} RemovedPrefix(shorter: seq<Key>, longer: seq<Key>, key: Key)
    requires shorter <= longer
    ensures Removed(shorter, key) <= Removed(longer, key)
  {
    if shorter != [] {
      assert shorter[1..] <= longer[1..];
      RemovedPrefix(shorter[1..], longer[1..], key);
    }
  }
}
