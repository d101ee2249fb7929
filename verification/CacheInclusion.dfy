/** LRU inclusion: when a smaller cache holds the most recent keys of a larger one. */
module CacheInclusion {
  import opened CacheTypes
  import opened Common
  import opened CacheSpec
  import opened CacheLaws

  /** Requests served one at a time; every load on a miss succeeds. `Land` is the end of a background refresh,
      and does nothing if none of its key is pending. */
  datatype Request =
    | Fetch(key: Key, now: int, value: Value, loadedAt: int)
    | Land(key: Key, loader: Load, at: int)
    | Evict(key: Key)
    | Reset

  /** The store, and the keys of the refreshes that have started and not yet ended. */
  datatype Server = Server(store: Store, pending: seq<Key>)

  function WithoutFirst(keys: seq<Key>, key: Key): seq<Key>
  {
    if keys == [] then []
    else if keys[0] == key then keys[1..]
    else [keys[0]] + WithoutFirst(keys[1..], key)
  }

  function Serve(cfg: Config, s: Server, request: Request): Server
  {
    match request
    case Fetch(key, now, value, loadedAt) =>
      Server(Got(cfg, s.store, key, now, Loaded(value), loadedAt),
             if Find(s.store, key, now) == Stale then s.pending + [key] else s.pending)
    case Land(key, loader, at) =>
      if key in s.pending then Server(Refreshed(cfg, s.store, key, loader, at), WithoutFirst(s.pending, key)) else s
    case Evict(key) => s.(store := Delete(s.store, key))
    case Reset => s.(store := Purged())
  }

  function Served(cfg: Config, requests: seq<Request>): Server
  {
    if requests == [] then Server(Purged(), [])
    else Serve(cfg, Served(cfg, requests[..|requests| - 1]), requests[|requests| - 1])
  }

  /** Every refresh ends before the next request. */
  ghost predicate Prompt(cfg: Config, requests: seq<Request>)
  {
    forall i :: 0 <= i < |requests| && !requests[i].Land? ==> Served(cfg, requests[..i]).pending == []
  }

  lemma PromptPrefix(cfg: Config, requests: seq<Request>, n: nat)
    requires Prompt(cfg, requests) && n <= |requests|
    ensures Prompt(cfg, requests[..n])
  {
    forall i | 0 <= i < n && !requests[i].Land?
      ensures Served(cfg, requests[..n][..i]).pending == []
    {
      assert requests[..n][..i] == requests[..i];
    }
  }

  // ---------------------------------------------------------------- what a request does to the recency sequence

  lemma ServeWellFormed(cfg: Config, s: Server, request: Request)
    requires WellFormed(cfg, s.store)
    ensures WellFormed(cfg, Serve(cfg, s, request).store)
    ensures Serve(cfg, s, request).store.recency ==
      match request
      case Fetch(key, _, _, _) => Used(cfg.maxItems, s.store.recency, key)
      case Land(key, loader, _) =>
        if key in s.pending && loader.Loaded? then Used(cfg.maxItems, s.store.recency, key) else s.store.recency
      case Evict(key) => Removed(s.store.recency, key)
      case Reset => []
  {
    match request
    case Fetch(key, now, value, loadedAt) =>
      CallsAreUpdates(cfg, s.store, key, now, Loaded(value), loadedAt);
      UseServed(cfg, s.store, if Find(s.store, key, now) == Miss then Put(key, value, loadedAt) else Use(key), key);
    case Land(key, loader, at) =>
      if key in s.pending && loader.Loaded? {
        UseServed(cfg, s.store, Put(key, loader.value, at), key);
      }
    case Evict(key) =>
      UpdatedWellFormed(cfg, s.store, Forget(key));
      if key !in s.store.records {
        RemovedAbsent(s.store.recency, key);
      }
    case Reset =>
  }

  lemma UseServed(cfg: Config, store: Store, update: Update, key: Key)
    requires WellFormed(cfg, store) && UsedKey(store, update) == Some(key)
    ensures WellFormed(cfg, Updated(cfg, store, update))
    ensures Updated(cfg, store, update).recency == Used(cfg.maxItems, store.recency, key)
  {
    UpdatedWellFormed(cfg, store, update);
    UseMovesToFront(cfg, store, update, key);
  }

  lemma {:induction false} ServedWellFormed(cfg: Config, requests: seq<Request>)
    ensures WellFormed(cfg, Served(cfg, requests).store)
  {
    if requests != [] {
      ServedWellFormed(cfg, requests[..|requests| - 1]);
      ServeWellFormed(cfg, Served(cfg, requests[..|requests| - 1]), requests[|requests| - 1]);
    }
  }

  lemma UsedFirst(maxItems: int, recency: seq<Key>, key: Key)
    ensures Used(maxItems, recency, key) != [] && Used(maxItems, recency, key)[0] == key
  {
  }

  lemma UsedAgain(maxItems: int, recency: seq<Key>)
    requires Distinct(recency) && recency != []
    ensures Used(maxItems, recency, recency[0]) == recency
  {
    RemovedAt(recency, 0);
  }

  /** A pending refresh is that of the most recent key. */
  predicate OnlyTheLatest(s: Server)
  {
    s.pending == [] || (s.store.recency != [] && s.pending == [s.store.recency[0]])
  }

  lemma {:induction false} PromptPending(cfg: Config, requests: seq<Request>)
    requires Prompt(cfg, requests)
    ensures OnlyTheLatest(Served(cfg, requests))
  {
    if requests != [] {
      var n := |requests| - 1;
      var s, request := Served(cfg, requests[..n]), requests[n];
      PromptPrefix(cfg, requests, n);
      PromptPending(cfg, requests[..n]);
      ServedWellFormed(cfg, requests[..n]);
      ServeWellFormed(cfg, s, request);
      match request
      case Fetch(key, _, _, _) => UsedFirst(cfg.maxItems, s.store.recency, key);
      case Land(key, _, _) =>
      case Evict(_) =>
      case Reset =>
    }
  }

  /** So the end of a refresh leaves the recency sequence as it is. */
  lemma PromptLanding(cfg: Config, requests: seq<Request>)
    requires requests != [] && requests[|requests| - 1].Land? && Prompt(cfg, requests)
    ensures Served(cfg, requests).store.recency == Served(cfg, requests[..|requests| - 1]).store.recency
  {
    var before := requests[..|requests| - 1];
    var s, request := Served(cfg, before), requests[|requests| - 1];
    PromptPrefix(cfg, requests, |requests| - 1);
    PromptPending(cfg, before);
    ServedWellFormed(cfg, before);
    ServeWellFormed(cfg, s, request);
    if request.key in s.pending {
      UsedAgain(cfg.maxItems, s.store.recency);
    }
  }

  // ---------------------------------------------------------------- inclusion

  predicate AtMost(maxItems: int, recency: seq<Key>) { maxItems > 0 ==> |recency| <= maxItems }

  lemma UsedPrefix(m: int, n: int, smaller: seq<Key>, larger: seq<Key>, key: Key)
    requires 0 < m && (n <= 0 || m <= n) && smaller <= larger
    requires AtMost(m, smaller) && AtMost(n, larger)
    ensures Used(m, smaller, key) <= Used(n, larger, key)
  {
    if key in smaller {
      RemovedPrefix(smaller, larger, key);
    } else if key in larger {
      RemovedPrefix(smaller, larger, key);
      RemovedAbsent(smaller, key);
    }
  }

  /** If every refresh ends before the next request, the keys of a smaller cache are, in order, the most recent
      keys of a larger or unbounded one that serves the same requests. */
  lemma {:induction false} LruInclusion(cfg: Config, larger: Config, requests: seq<Request>)
    requires 0 < cfg.maxItems && (larger.maxItems <= 0 || cfg.maxItems <= larger.maxItems)
    requires Prompt(cfg, requests) && Prompt(larger, requests)
    ensures Served(cfg, requests).store.recency <= Served(larger, requests).store.recency
  {
    if requests != [] {
      var n := |requests| - 1;
      PromptPrefix(cfg, requests, n);
      PromptPrefix(larger, requests, n);
      LruInclusion(cfg, larger, requests[..n]);
      if requests[n].Land? {
        PromptLanding(cfg, requests);
        PromptLanding(larger, requests);
      } else {
        InclusionStep(cfg, larger, requests);
      }
    }
  }

  lemma InclusionStep(cfg: Config, larger: Config, requests: seq<Request>)
    requires 0 < cfg.maxItems && (larger.maxItems <= 0 || cfg.maxItems <= larger.maxItems)
    requires requests != [] && !requests[|requests| - 1].Land?
    requires var before := requests[..|requests| - 1];
      Served(cfg, before).store.recency <= Served(larger, before).store.recency
    ensures Served(cfg, requests).store.recency <= Served(larger, requests).store.recency
  {
    hide Serve, Used;
    var before, request := requests[..|requests| - 1], requests[|requests| - 1];
    var small, large := Served(cfg, before), Served(larger, before);
    ServedWellFormed(cfg, before);
    ServedWellFormed(larger, before);
    ServeWellFormed(cfg, small, request);
    ServeWellFormed(larger, large, request);
    SameSize(cfg, small.store);
    SameSize(larger, large.store);
    match request
    case Fetch(key, _, _, _) =>
      UsedPrefix(cfg.maxItems, larger.maxItems, small.store.recency, large.store.recency, key);
    case Evict(key) => RemovedPrefix(small.store.recency, large.store.recency, key);
    case Reset =>
  }

  // ---------------------------------------------------------------- without a stale window

  ghost predicate NeverStale(store: Store)
  {
    forall key :: key in store.records ==> store.records[key].staleUntil <= store.records[key].expiresAt
  }

  lemma NeverStaleSet(cfg: Config, store: Store, key: Key, value: Value, now: int)
    requires cfg.staleExtension <= 0 && NeverStale(store)
    ensures NeverStale(Set(cfg, store, key, value, now))
  {
  }

  lemma ServeNeverStale(cfg: Config, s: Server, request: Request)
    requires cfg.staleExtension <= 0 && s.pending == [] && NeverStale(s.store)
    ensures Serve(cfg, s, request).pending == [] && NeverStale(Serve(cfg, s, request).store)
  {
    hide Set;
    if request.Fetch? {
      NeverStaleSet(cfg, s.store, request.key, request.value, request.loadedAt);
    }
  }

  lemma {:induction false} NothingPending(cfg: Config, requests: seq<Request>)
    requires cfg.staleExtension <= 0
    ensures Served(cfg, requests).pending == [] && NeverStale(Served(cfg, requests).store)
  {
    if requests != [] {
      hide Serve, NeverStale;
      NothingPending(cfg, requests[..|requests| - 1]);
      ServeNeverStale(cfg, Served(cfg, requests[..|requests| - 1]), requests[|requests| - 1]);
    }
  }

  /** Without a stale window no refresh ever starts. */
  lemma AlwaysPrompt(cfg: Config, requests: seq<Request>)
    requires cfg.staleExtension <= 0
    ensures Prompt(cfg, requests)
  {
    forall i | 0 <= i < |requests| && !requests[i].Land?
      ensures Served(cfg, requests[..i]).pending == []
    {
      NothingPending(cfg, requests[..i]);
    }
  }

  // ---------------------------------------------------------------- a refresh that lands late

  function Fill(keys: seq<Key>, value: Value): seq<Request>
  {
    seq(|keys|, i requires 0 <= i < |keys| => Fetch(keys[i], 0, value, 0))
  }

  lemma FillStep(cfg: Config, keys: seq<Key>, value: Value)
    requires keys != []
    ensures Fill(keys, value) == Fill(keys[..|keys| - 1], value) + [Fetch(keys[|keys| - 1], 0, value, 0)]
    ensures Served(cfg, Fill(keys, value))
         == Serve(cfg, Served(cfg, Fill(keys[..|keys| - 1], value)), Fetch(keys[|keys| - 1], 0, value, 0))
  {
    assert Fill(keys, value)[..|keys| - 1] == Fill(keys[..|keys| - 1], value);
  }

  lemma FetchMissing(cfg: Config, s: Server, key: Key, value: Value)
    requires key !in s.store.records
    ensures Serve(cfg, s, Fetch(key, 0, value, 0)) == s.(store := Set(cfg, s.store, key, value, 0))
  {
  }

  lemma LastIsNew(keys: seq<Key>)
    requires Distinct(keys) && keys != []
    ensures Distinct(keys[..|keys| - 1]) && keys[|keys| - 1] !in keys[..|keys| - 1]
    ensures keys == keys[..|keys| - 1] + [keys[|keys| - 1]]
  {
  }

  /** The store holds exactly these keys, the first at the end of its recency sequence. */
  ghost predicate Filled(cfg: Config, store: Store, keys: seq<Key>, value: Value)
  {
    && |store.records| == |store.recency| == |keys|
    && (forall key :: key in store.records <==> key in keys)
    && (forall key :: key in keys ==> store.records[key] == NewRecord(cfg, value, 0))
    && (keys != [] ==> store.recency[|keys| - 1] == keys[0])
  }

  lemma FillsOne(cfg: Config, store: Store, keys: seq<Key>, key: Key, value: Value)
    requires Filled(cfg, store, keys, value) && key !in keys && (cfg.maxItems <= 0 || |keys| < cfg.maxItems)
    ensures Filled(cfg, Set(cfg, store, key, value, 0), keys + [key], value)
  {
  }

  /** A new cache with room for them takes in distinct keys. */
  lemma {:induction false} FillsUp(cfg: Config, keys: seq<Key>, value: Value)
    requires Distinct(keys) && (cfg.maxItems <= 0 || |keys| <= cfg.maxItems)
    ensures Served(cfg, Fill(keys, value)).pending == []
    ensures Filled(cfg, Served(cfg, Fill(keys, value)).store, keys, value)
  {
    if keys != [] {
      hide Set, Serve, Distinct, Fill;
      var before, last := keys[..|keys| - 1], keys[|keys| - 1];
      LastIsNew(keys);
      FillStep(cfg, keys, value);
      FillsUp(cfg, before, value);
      FetchMissing(cfg, Served(cfg, Fill(before, value)), last, value);
      FillsOne(cfg, Served(cfg, Fill(before, value)).store, before, last, value);
    }
  }

  lemma FullDropsFirst(cfg: Config, store: Store, keys: seq<Key>, key: Key, value: Value)
    requires Filled(cfg, store, keys, value) && key !in keys && 0 < cfg.maxItems == |keys|
    ensures keys[0] !in Set(cfg, store, key, value, 0).records
  {
  }

  /** One key more than there is room for drives the first one out. */
  lemma Overflows(cfg: Config, keys: seq<Key>, value: Value)
    requires Distinct(keys) && 0 < cfg.maxItems && |keys| == cfg.maxItems + 1
    ensures var s := Served(cfg, Fill(keys, value)); s.pending == [] && keys[0] !in s.store.records
  {
    hide Set, Serve, Distinct, Fill;
    var before, last := keys[..cfg.maxItems], keys[cfg.maxItems];
    LastIsNew(keys);
    FillStep(cfg, keys, value);
    FillsUp(cfg, before, value);
    FetchMissing(cfg, Served(cfg, Fill(before, value)), last, value);
    FullDropsFirst(cfg, Served(cfg, Fill(before, value)).store, before, last, value);
  }

  /** After filling the cache: the first key again, when it is stale where it is still stored; another key; and
      then the end of the refresh of the first, if there was one. */
  function LateLanding(cfg: Config, keys: seq<Key>, value: Value): seq<Request>
    requires keys != []
  {
    Fill(keys, value) + [Fetch(keys[0], cfg.ttl, value, cfg.ttl)] + [Fetch(keys[|keys| - 1], cfg.ttl, value, cfg.ttl)]
    + [Land(keys[0], Loaded(value), cfg.ttl)]
  }

  lemma ServedMore(cfg: Config, requests: seq<Request>, request: Request)
    ensures Served(cfg, requests + [request]) == Serve(cfg, Served(cfg, requests), request)
  {
    assert (requests + [request])[..|requests|] == requests;
  }

  /** The first key ends up in front if its refresh was pending, and the other one if not. */
  lemma LateLandingEnds(cfg: Config, keys: seq<Key>, value: Value)
    requires |keys| >= 2 && Distinct(keys)
    requires var s := Served(cfg, Fill(keys, value));
      && s.pending == []
      && Find(s.store, keys[0], cfg.ttl) != Fresh
    ensures var recency := Served(cfg, LateLanding(cfg, keys, value)).store.recency;
      && recency != []
      && recency[0] == if Find(Served(cfg, Fill(keys, value)).store, keys[0], cfg.ttl) == Stale then keys[0]
                       else keys[|keys| - 1]
  {
    hide Find, Used;
    var first, last, fill := keys[0], keys[|keys| - 1], Fill(keys, value);
    var again, other, land := Fetch(first, cfg.ttl, value, cfg.ttl), Fetch(last, cfg.ttl, value, cfg.ttl),
                              Land(first, Loaded(value), cfg.ttl);
    ServedMore(cfg, fill, again);
    ServedMore(cfg, fill + [again], other);
    ServedMore(cfg, fill + [again] + [other], land);
    var s := Served(cfg, fill + [again] + [other]);
    ServedWellFormed(cfg, fill + [again]);
    ServeWellFormed(cfg, Served(cfg, fill + [again]), other);
    ServeWellFormed(cfg, s, land);
    UsedFirst(cfg.maxItems, Served(cfg, fill + [again]).store.recency, last);
    UsedFirst(cfg.maxItems, s.store.recency, first);
  }

  /** A refresh that ends after another request can break inclusion, for any two sizes. */
  lemma LateLandingBreaksInclusion(cfg: Config, larger: Config, keys: seq<Key>, value: Value)
    requires 0 < cfg.maxItems && larger == cfg.(maxItems := larger.maxItems)
    requires larger.maxItems <= 0 || cfg.maxItems < larger.maxItems
    requires |keys| == cfg.maxItems + 1 && Distinct(keys) && cfg.staleExtension > 0
    ensures var requests := LateLanding(cfg, keys, value);
      !(Served(cfg, requests).store.recency <= Served(larger, requests).store.recency)
  {
    Overflows(cfg, keys, value);
    FillsUp(larger, keys, value);
    LateLandingEnds(cfg, keys, value);
    LateLandingEnds(larger, keys, value);
  }

  /** For caches that differ in size only, and enough keys to overflow the smaller one: inclusion holds in every
      history if and only if there is no stale window. */
  lemma LruInclusionIff(cfg: Config, larger: Config, keys: seq<Key>)
    requires 0 < cfg.maxItems && larger == cfg.(maxItems := larger.maxItems)
    requires larger.maxItems <= 0 || cfg.maxItems < larger.maxItems
    requires |keys| == cfg.maxItems + 1 && Distinct(keys)
    ensures cfg.staleExtension <= 0 <==>
            forall requests :: Served(cfg, requests).store.recency <= Served(larger, requests).store.recency
  {
    if cfg.staleExtension <= 0 {
      forall requests
        ensures Served(cfg, requests).store.recency <= Served(larger, requests).store.recency
      {
        AlwaysPrompt(cfg, requests);
        AlwaysPrompt(larger, requests);
        LruInclusion(cfg, larger, requests);
      }
    } else {
      var value: Value := *;
      LateLandingBreaksInclusion(cfg, larger, keys, value);
    }
  }
}
