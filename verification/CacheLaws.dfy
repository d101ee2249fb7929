/** What whole histories of updates of the store say about the cache. */
module CacheLaws {
  import opened CacheTypes
  import opened Common
  import opened CacheSpec

  /** What the holder of the write lock does to the store: touch, set, Delete, Purge. */
  datatype Update = Use(key: Key) | Put(key: Key, value: Value, at: int) | Forget(key: Key) | Clear | Nothing

  function Updated(cfg: Config, store: Store, update: Update): Store
  {
    match update
    case Use(key) => Touch(store, key)
    case Put(key, value, at) => Set(cfg, store, key, value, at)
    case Forget(key) => Delete(store, key)
    case Clear => Purged()
    case Nothing => store
  }

  /** The store after a history of updates of a new cache. */
  function StoreAfter(cfg: Config, trace: seq<Update>): Store
  {
    if trace == [] then Purged()
    else Updated(cfg, StoreAfter(cfg, trace[..|trace| - 1]), trace[|trace| - 1])
  }

  /** GetOrLoad and refreshAsync, run alone, come down to one such update each. */
  lemma CallsAreUpdates(cfg: Config, store: Store, key: Key, now: int, loader: Load, loadedAt: int)
    ensures var put := if loader.Loaded? then Put(key, loader.value, loadedAt) else Nothing;
      && Refreshed(cfg, store, key, loader, loadedAt) == Updated(cfg, store, put)
      && Got(cfg, store, key, now, loader, loadedAt)
         == Updated(cfg, store, if Find(store, key, now) == Miss then put else Use(key))
  {
  }

  // ---------------------------------------------------------------- windows

  /** A value set for a key at a time. */
  datatype Version = Version(key: Key, value: Value, at: int)

  /** The last set of the key in a history. */
  function LastPut(trace: seq<Update>, key: Key): Option<Version>
  {
    if trace == [] then None
    else
      match trace[|trace| - 1]
      case Put(k, value, at) => if k == key then Some(Version(k, value, at)) else LastPut(trace[..|trace| - 1], key)
      case _ => LastPut(trace[..|trace| - 1], key)
  }

  /** A stored key has the value of its last set, and windows that end ttl and ttl + staleExtension after it. */
  lemma {:induction false} StoredIsLastPut(cfg: Config, trace: seq<Update>, key: Key)
    requires key in StoreAfter(cfg, trace).records
    ensures LastPut(trace, key).Some?
    ensures var record, last := StoreAfter(cfg, trace).records[key], LastPut(trace, key).value;
      && record.value == last.value
      && record.expiresAt == last.at + cfg.ttl
      && record.staleUntil == last.at + cfg.ttl + cfg.staleExtension
  {
    if trace != [] {
      var before := trace[..|trace| - 1];
      if key in StoreAfter(cfg, before).records {
        StoredIsLastPut(cfg, before, key);
      }
    }
  }

  /** After any history a stored key is found fresh exactly until ttl after its last set, and found at all exactly
      until then or until staleExtension later. */
  lemma FoundIffInWindow(cfg: Config, trace: seq<Update>, key: Key, now: int)
    requires key in StoreAfter(cfg, trace).records
    ensures LastPut(trace, key).Some?
    ensures var store, at := StoreAfter(cfg, trace), LastPut(trace, key).value.at;
      && (Find(store, key, now) == Fresh <==> now < at + cfg.ttl)
      && (Find(store, key, now) == Stale <==> at + cfg.ttl <= now < at + cfg.ttl + cfg.staleExtension)
      && (Find(store, key, now) == Miss <==> at + cfg.ttl <= now && at + cfg.ttl + cfg.staleExtension <= now)
  {
    StoredIsLastPut(cfg, trace, key);
  }

  // ---------------------------------------------------------------- the bound, and keys listed once

  lemma {:induction false} DistinctSize(recency: seq<Key>)
    requires Distinct(recency)
    ensures |set key | key in recency| == |recency|
  {
    if recency != [] {
      var rest := recency[1..];
      DistinctSize(rest);
      assert (set key | key in recency) == {recency[0]} + (set key | key in rest);
      assert recency[0] !in rest;
    }
  }

  /** The map and the recency sequence have the same size. */
  lemma SameSize(cfg: Config, store: Store)
    requires WellFormed(cfg, store)
    ensures |store.records| == |store.recency|
  {
    DistinctSize(store.recency);
    assert store.records.Keys == set key | key in store.recency;
    assert |store.records| == |store.records.Keys|;
  }

  lemma TouchedMembers(recency: seq<Key>, key: Key, other: Key)
    ensures other in Touched(recency, key) <==> other in recency || other == key
  {
    RemovedMembers(recency, key, other);
  }

  lemma TouchedDistinct(recency: seq<Key>, key: Key)
    requires Distinct(recency)
    ensures Distinct(Touched(recency, key))
  {
    RemovedDistinct(recency, key);
    RemovedMembers(recency, key, key);
  }

  lemma TouchWellFormed(cfg: Config, store: Store, key: Key)
    requires WellFormed(cfg, store)
    ensures WellFormed(cfg, Touch(store, key))
  {
    TouchedDistinct(store.recency, key);
    forall other
      ensures other in Touched(store.recency, key) <==> other in store.recency || other == key
    {
      TouchedMembers(store.recency, key, other);
    }
  }

  lemma DeleteWellFormed(cfg: Config, store: Store, key: Key)
    requires WellFormed(cfg, store)
    ensures WellFormed(cfg, Delete(store, key))
  {
    RemovedDistinct(store.recency, key);
    forall other
      ensures other in Removed(store.recency, key) <==> other in store.recency && other != key
    {
      RemovedMembers(store.recency, key, other);
    }
  }

  /** An eviction deletes the last key. */
  lemma EvictIsDelete(cfg: Config, store: Store)
    requires WellFormed(cfg, store) && store.recency != []
    ensures EvictOne(store) == Delete(store, store.recency[|store.recency| - 1])
  {
    RemovedLast(store.recency);
  }

  lemma EvictWellFormed(cfg: Config, store: Store)
    requires WellFormed(cfg, store)
    ensures WellFormed(cfg, EvictOne(store))
    ensures store.recency != [] ==> |EvictOne(store).records| == |store.records| - 1
    ensures forall key :: key in EvictOne(store).records ==> key in store.records
  {
    if store.recency != [] {
      EvictIsDelete(cfg, store);
      DeleteWellFormed(cfg, store, store.recency[|store.recency| - 1]);
    }
  }

  lemma SetWellFormed(cfg: Config, store: Store, key: Key, value: Value, now: int)
    requires WellFormed(cfg, store)
    ensures WellFormed(cfg, Set(cfg, store, key, value, now))
  {
    if key in store.records {
      TouchWellFormed(cfg, store, key);
    } else {
      SameSize(cfg, store);
      EvictWellFormed(cfg, store);
    }
  }

  lemma UpdatedWellFormed(cfg: Config, store: Store, update: Update)
    requires WellFormed(cfg, store)
    ensures WellFormed(cfg, Updated(cfg, store, update))
  {
    match update
    case Use(key) => TouchWellFormed(cfg, store, key);
    case Put(key, value, at) => SetWellFormed(cfg, store, key, value, at);
    case Forget(key) => DeleteWellFormed(cfg, store, key);
    case Clear =>
    case Nothing =>
  }

  /** Every reachable store lists each key once and keeps its bound. */
  lemma {:induction false} StoreAfterWellFormed(cfg: Config, trace: seq<Update>)
    ensures WellFormed(cfg, StoreAfter(cfg, trace))
  {
    if trace != [] {
      var n := |trace| - 1;
      StoreAfterWellFormed(cfg, trace[..n]);
      UpdatedWellFormed(cfg, StoreAfter(cfg, trace[..n]), trace[n]);
    }
  }

  // ---------------------------------------------------------------- least recently used

  /** The key an update sets or touches, if it is stored then. */
  function UsedKey(store: Store, update: Update): Option<Key>
  {
    match update
    case Use(key) => if key in store.records then Some(key) else None
    case Put(key, _, _) => Some(key)
    case _ => None
  }

  /** The position in the history of the last set or touch of the key; -1 if there is none. */
  function LastUse(cfg: Config, trace: seq<Update>, key: Key): int
  {
    if trace == [] then -1
    else
      var n := |trace| - 1;
      if UsedKey(StoreAfter(cfg, trace[..n]), trace[n]) == Some(key) then n else LastUse(cfg, trace[..n], key)
  }

  /** Later used keys come first. */
  predicate ByLastUse(cfg: Config, trace: seq<Update>, recency: seq<Key>)
  {
    forall i, j :: 0 <= i < j < |recency| ==> LastUse(cfg, trace, recency[i]) > LastUse(cfg, trace, recency[j])
  }

  lemma {:induction false} LastUseInPast(cfg: Config, trace: seq<Update>, key: Key)
    ensures LastUse(cfg, trace, key) < |trace|
  {
    if trace != [] {
      LastUseInPast(cfg, trace[..|trace| - 1], key);
    }
  }

  lemma {:induction false} RemovedByLastUse(cfg: Config, trace: seq<Update>, recency: seq<Key>, key: Key)
    requires ByLastUse(cfg, trace, recency)
    ensures ByLastUse(cfg, trace, Removed(recency, key))
  {
    if recency != [] {
      var rest := recency[1..];
      assert forall i :: 0 <= i < |rest| ==> rest[i] == recency[i + 1];
      RemovedByLastUse(cfg, trace, rest, key);
      var kept := Removed(rest, key);
      forall i | 0 <= i < |kept|
        ensures kept[i] in rest
      {
        RemovedMembers(rest, key, kept[i]);
      }
    }
  }

  /** Keys other than the one used keep their last use, and the one used comes later than all. */
  lemma UsedKeyFirst(cfg: Config, trace: seq<Update>, recency: seq<Key>, key: Key)
    requires trace != []
    requires var n := |trace| - 1;
      UsedKey(StoreAfter(cfg, trace[..n]), trace[n]) == Some(key) && ByLastUse(cfg, trace[..n], recency)
    requires key !in recency
    ensures ByLastUse(cfg, trace, [key] + recency)
  {
    forall i | 0 <= i < |recency|
      ensures LastUse(cfg, trace, recency[i]) == LastUse(cfg, trace[..|trace| - 1], recency[i]) < |trace| - 1
    {
      LastUseInPast(cfg, trace[..|trace| - 1], recency[i]);
    }
  }

  lemma UnusedOrder(cfg: Config, trace: seq<Update>, recency: seq<Key>)
    requires trace != [] && ByLastUse(cfg, trace[..|trace| - 1], recency)
    requires UsedKey(StoreAfter(cfg, trace[..|trace| - 1]), trace[|trace| - 1]) == None
    ensures ByLastUse(cfg, trace, recency)
  {
  }

  /** What a use does to the recency sequence. */
  function Used(maxItems: int, recency: seq<Key>, key: Key): seq<Key>
  {
    if key in recency then Touched(recency, key)
    else if maxItems > 0 && |recency| >= maxItems && recency != [] then [key] + recency[..|recency| - 1]
    else [key] + recency
  }

  lemma UseMovesToFront(cfg: Config, store: Store, update: Update, key: Key)
    requires WellFormed(cfg, store) && UsedKey(store, update) == Some(key)
    ensures Updated(cfg, store, update).recency == Used(cfg.maxItems, store.recency, key)
  {
    SameSize(cfg, store);
  }

  lemma UseStep(cfg: Config, trace: seq<Update>, recency: seq<Key>, key: Key)
    requires trace != []
    requires var n := |trace| - 1;
      UsedKey(StoreAfter(cfg, trace[..n]), trace[n]) == Some(key) && ByLastUse(cfg, trace[..n], recency)
    ensures ByLastUse(cfg, trace, Used(cfg.maxItems, recency, key))
  {
    if key in recency {
      RemovedByLastUse(cfg, trace[..|trace| - 1], recency, key);
      RemovedMembers(recency, key, key);
      UsedKeyFirst(cfg, trace, Removed(recency, key), key);
    } else if cfg.maxItems > 0 && |recency| >= cfg.maxItems && recency != [] {
      UsedKeyFirst(cfg, trace, recency[..|recency| - 1], key);
    } else {
      UsedKeyFirst(cfg, trace, recency, key);
    }
  }

  lemma OtherStep(cfg: Config, store: Store, update: Update)
    requires WellFormed(cfg, store) && UsedKey(store, update) == None
    ensures Updated(cfg, store, update).recency == match update
                                                   case Forget(key) => Removed(store.recency, key)
                                                   case Clear => []
                                                   case _ => store.recency
  {
    if update.Forget? && update.key !in store.records {
      RemovedAbsent(store.recency, update.key);
    }
  }

  /** The recency sequence of every reachable store is ordered by last use. */
  lemma {:induction false} RecencyByLastUse(cfg: Config, trace: seq<Update>)
    ensures ByLastUse(cfg, trace, StoreAfter(cfg, trace).recency)
  {
    if trace != [] {
      var before, update := trace[..|trace| - 1], trace[|trace| - 1];
      RecencyByLastUse(cfg, before);
      StoreAfterWellFormed(cfg, before);
      var store := StoreAfter(cfg, before);
      match UsedKey(store, update)
      case Some(key) =>
        UseMovesToFront(cfg, store, update, key);
        UseStep(cfg, trace, store.recency, key);
      case None =>
        OtherStep(cfg, store, update);
        if update.Forget? {
          RemovedByLastUse(cfg, before, store.recency, update.key);
        }
        UnusedOrder(cfg, trace, StoreAfter(cfg, trace).recency);
    }
  }

  lemma OnlyTheLastLeaves(cfg: Config, store: Store, update: Update, victim: Key)
    requires WellFormed(cfg, store) && !update.Forget? && !update.Clear?
    requires victim in store.records && victim !in Updated(cfg, store, update).records
    ensures cfg.maxItems > 0 && |store.records| == cfg.maxItems
    ensures store.recency != [] && victim == store.recency[|store.recency| - 1]
    ensures forall other :: other in store.records && other != victim ==> other in Updated(cfg, store, update).records
  {
  }

  /** A key leaves the cache without a Delete or Purge only if it is the stored key whose last use is oldest,
      and only when a bounded cache is full. */
  lemma EvictsLeastRecentlyUsed(cfg: Config, trace: seq<Update>, update: Update, victim: Key, other: Key)
    requires !update.Forget? && !update.Clear?
    requires var store := StoreAfter(cfg, trace);
      && victim in store.records && victim !in Updated(cfg, store, update).records
      && other in store.records && other != victim
    ensures LastUse(cfg, trace, victim) < LastUse(cfg, trace, other)
    ensures other in Updated(cfg, StoreAfter(cfg, trace), update).records
    ensures cfg.maxItems > 0 && |StoreAfter(cfg, trace).records| == cfg.maxItems
  {
    hide Updated, LastUse, ByLastUse, Distinct;
    var store := StoreAfter(cfg, trace);
    StoreAfterWellFormed(cfg, trace);
    OnlyTheLastLeaves(cfg, store, update, victim);
    RecencyByLastUse(cfg, trace);
    LastIsOldest(cfg, trace, store.recency, other);
  }

  lemma LastIsOldest(cfg: Config, trace: seq<Update>, recency: seq<Key>, key: Key)
    requires ByLastUse(cfg, trace, recency) && key in recency && key != recency[|recency| - 1]
    ensures LastUse(cfg, trace, recency[|recency| - 1]) < LastUse(cfg, trace, key)
  {
    var i :| 0 <= i < |recency| && recency[i] == key;
  }
}
