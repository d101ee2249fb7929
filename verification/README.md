# Verified core of the weather service

A Dafny model of the stateful components of the service, with proofs of what they promise: the TTL,
stale-while-revalidate and LRU cache; the per-IP token bucket with idle eviction; the circuit breaker and the
retry loop, alone and as the two upstream clients compose them; the bounded job queue; the bounded fan-out of
the conditions handler; and the sharded hot-key counter. `dafny verify dfyconfig.toml` checks everything.

## What is modelled

**Cache** (`internal/cache/cache.go`), in three layers.

1. `LinkedLists` builds Go's `container/list` as a ring of heap nodes around a sentinel. `Caching.Cache` holds
   the source's three structures (`items`, `lruList`, `lruKeys`) and its methods change them in place, as the
   source does; each is proved to do to the abstract contents (`CacheSpec.Store`: a map of records and the keys
   from most to least recently used) what the operation on values does. `Valid()` says that the three
   structures are in bijection and that each entry's `lruElement` is the list node of its own key.
2. `CacheLaws` proves what histories of such updates give: the bound, and eviction in order of last use.
   `CacheInclusion` compares caches of different sizes that serve the same requests.
3. `CacheProtocol` is the concurrent cache: each call of `GetOrLoad` and each background `refreshAsync` is a
   thread whose lookups, unlocked reads of entry fields, touches, singleflight calls and field-by-field
   overwrites under the lock are separate atomic steps, interleaved in any way with other threads, `Delete`,
   `Purge` and a clock that only moves forward. `CacheSafety`, `CacheFreshness`, `CacheFlights` and
   `CacheRefinement` prove what every step keeps, `CacheRuns` what every run promises, `CacheHistory`,
   `CacheWindows`, `CacheDecisions` and `CacheEffects` what a call sees between its lookup and its end and what it
   leaves behind, and `CacheAnomalies` gives runs that break what one would expect. In every interleaving each
   completed critical section is one of the updates of layer 2.

**Limiter** (`internal/ratelimit/limiter.go`). `RateLimiting` has the mutable buckets and the limiter;
`RateLimitSpec` says what each step does to the table of buckets; `RateLimitLaws` characterises the answers over
whole histories of calls and sweeps, with timestamps in any order unless a lemma says otherwise.

**Breaker, retry, clients** (`internal/upstream`, `internal/weather/client.go`). `CircuitBreaking` has the class
and its state as a function of the outcomes reported to it. `Retrying` has the loop, with 64-bit wrap-around of
the shift and the product. `UpstreamCalling` has the two clients and the load they put on a dead dependency.

**Queue** (`internal/queue/queue.go`). `JobQueueing` is a transition system of producers, the channel and the
workers, and a class whose methods take its steps in place.

**Fan-out** (`internal/api/handlers.go`, `Conditions`). `FanOut` is a transition system for n distinctly named
tasks and c permits, with the handler's own three tasks and two permits as an instance.

**Counter** (`internal/hotkey/sharded_counter.go`). `ShardedCounting` has the decimal printer, the composite
keys and the counter with int64 wrap-around.

## Assumptions

- `singleflight`, `errgroup`, `semaphore`, channels, mutexes and timers behave as documented; what `select`, the
  scheduler, `rand` and the clock choose is arbitrary. Memory is sequentially consistent, and a read or write of
  one entry field is a single step, so a `value` or `time.Time` of several words is never torn.
- The singleflight key (`fmt.Sprint(key)`) is injective, as it is for the string keys the service uses.
- Times are integers (nanoseconds) in the cache and the breaker and reals (seconds) in the limiter. The zero
  `time.Time` is 0, and `now` in the breaker's laws is after it.
- Tokens and jitter are real numbers. Loaders, jobs and upstream calls are arbitrary results. Loaders and jobs
  return and do not panic.
- Jobs, keys, values, payloads and errors are opaque. The cache's value type is not an interface type: a nil
  interface from a caller's own loader would fail the assertion on line 115 as well.

## Findings

- A caller that misses while a background refresh of the same key is under way joins its flight; when that
  refresh succeeds the flight yields nil and the assertion on line 115 of `internal/cache/cache.go` panics.
  `CacheRuns.MissesGetTheirFlight` gives the exact condition. Such runs exist for every configuration
  (`CacheAnomalies.JoinerOfRefreshPanics`): without a stale window too, an overwrite between the two unlocked
  reads on lines 87 and 93 makes a stale hit.
- Loads are not limited to one per TTL window, because `Do` does not look at the cache again
  (`CacheDecisions.SecondLoadIff`). What remains true in every run is `CacheDecisions.LeaderFindsMiss`.
- A refresh in the background counts as a use when it ends, however late. With a stale window the keys of a
  smaller cache are therefore not always the most recent keys of a larger one (`CacheInclusion.LruInclusionIff`).
- Idle eviction is observable unless buckets refill within `evictIdle`, and always if timestamps may be out of
  lock order (`RateLimitLaws.EvictionUnobservableIff`, `RateLimitLaws.UnorderedEvictionUnobservableIff`).
- Delays shrink as soon as the backoff product overflows, and not before (`Retrying.DelaysGrowIff`); the upper
  bound on the total sleep still holds.
- With a negative `MaxRetries` the retry loop reports success without running anything
  (`Retrying.RetrySucceedsIff`).
- The comment on line 151 of `internal/weather/client.go` says that authentication errors are not retried; the
  retry loop retries every error, and the model follows the loop (`Retrying.EveryErrorIsRetried`).
- A queue with a buffer can leave accepted jobs behind when it stops (`JobQueueing.EveryJobRunsIff`).

## Model

| member | source | states |
|---|---|---|
| LinkedLists.List.Unlink | internal/cache/cache.go:234-243 | two pointer writes take one node out of the ring and keep it a ring; the order of the others stays |
| LinkedLists.List.LinkFront | internal/cache/cache.go:190-211 | a node spliced in behind the sentinel becomes the first of an otherwise unchanged ring |
| LinkedLists.List.PushFront | internal/cache/cache.go:190-211 | a fresh element for the value, at the front |
| LinkedLists.List.MoveToFront | internal/cache/cache.go:217-217 | moves an element of this list to the front; ignores elements of other lists |
| LinkedLists.List.Remove | internal/cache/cache.go:234-243 | removes an element of this list and clears its links; ignores elements of other lists |
| LinkedLists.List.Back | internal/cache/cache.go:221-224 | the last element, or null for an empty list |
| LinkedLists.List.Init | internal/cache/cache.go:138-138 | empties the list whatever it held |
| Caching.MoveInStep | internal/cache/cache.go:208-218 | moving a node to the front keeps list, reverse map and recency sequence in bijection |
| Caching.RemoveInStep | internal/cache/cache.go:239-246 | so does removing a node together with its key |
| Caching.PushInStep | internal/cache/cache.go:189-192 | so does adding a new node for a new key |
| Caching.Cache.constructor | internal/cache/cache.go:56-65 | a new cache is empty and its structures are in bijection |
| Caching.Cache.Len | internal/cache/cache.go:143-147 | the number of stored records, at most maxItems in a bounded cache |
| Caching.Cache.ContentsWellFormed | internal/cache/cache.go:33-42 | in every valid cache the recency sequence lists each stored key exactly once, and the bound holds |
| Caching.Cache.Touch | internal/cache/cache.go:197-206 | makes a stored key the most recent, changes no record, ignores a key that is not stored |
| Caching.Cache.TouchLocked | internal/cache/cache.go:208-218 | the same for an entry in hand; its nil branch is unreachable |
| Caching.Cache.EvictOneLocked | internal/cache/cache.go:220-237 | exactly the least recent key leaves all three structures; nothing happens to an empty cache; the fallback branch is unreachable |
| Caching.Cache.RemoveLRULocked | internal/cache/cache.go:239-246 | the key leaves the list and the reverse map and its entry forgets its node; the other keys keep theirs |
| Caching.Cache.Delete | internal/cache/cache.go:119-130 | removes the key's record and its place in the recency sequence, if it is stored |
| Caching.Cache.Purge | internal/cache/cache.go:133-140 | leaves a valid empty cache |
| Caching.Cache.Set | internal/cache/cache.go:162-195 | overwrites in place and touches, or evicts the least recent key of a full cache and inserts at the front; the key then expires at now + ttl and is stale until now + ttl + staleExtension |
| Caching.Cache.GetOrLoad | internal/cache/cache.go:74-116 | one call at a time, in any history: with at the time of the last set of the key, a stored key is a hit if and only if now < at + ttl or now < at + ttl + staleExtension, with the value of that set; the hit starts a refresh if and only if at + ttl <= now; a miss stores and returns what was loaded or returns its error |
| Caching.Cache.RefreshAsync | internal/cache/cache.go:149-160 | stores what was loaded; a failed load changes nothing |
| CacheLaws.CallsAreUpdates | internal/cache/cache.go:74-160 | a call run alone is one touch, one set, or nothing |
| CacheLaws.StoredIsLastPut | internal/cache/cache.go:162-195 | after any history a stored key has the value of its last set, and windows that end exactly ttl and ttl + staleExtension after it |
| CacheLaws.FoundIffInWindow | internal/cache/cache.go:86-97 | so it is fresh, stale or missing exactly by where now lies between these two times |
| CacheLaws.StoreAfterWellFormed | internal/cache/cache.go:118-246 | after any history of touches, sets, deletes and purges each key is listed once and the bound holds |
| CacheLaws.SameSize | internal/cache/cache.go:178-178 | the map and the recency sequence have the same size |
| CacheLaws.RecencyByLastUse | internal/cache/cache.go:41-41 | after any history the recency sequence is ordered by the time of the last set or touch |
| CacheLaws.EvictsLeastRecentlyUsed | internal/cache/cache.go:177-180 | a key leaves without Delete or Purge only if every other stored key has been set or touched later, and only when the cache is full |
| CacheInclusion.ServeWellFormed | internal/cache/cache.go:74-195 | what a request, or the end of a refresh, does to the recency sequence depends on the sequence, the bound and whether a refresh was pending |
| CacheInclusion.LruInclusion | internal/cache/cache.go:74-237 | for every history in which each refresh ends before the next request: the keys of a smaller cache are, in order, the most recent keys of a larger or unbounded one |
| CacheInclusion.LateLandingBreaksInclusion | internal/cache/cache.go:92-97 | with a stale window a refresh that ends after another request breaks this, for any two sizes and any ttl |
| CacheInclusion.LruInclusionIff | internal/cache/cache.go:74-237 | for caches that differ in size only: inclusion holds in every history if and only if there is no stale window |
| CacheSafety.LinkedStep | internal/cache/cache.go:82-116 | every step keeps: entries, flights and threads refer to what belongs to their key |
| CacheSafety.LedStep | internal/cache/cache.go:102-109 | every step keeps: a running flight has exactly one leader and is the one under way for its key |
| CacheSafety.LockedStep | internal/cache/cache.go:162-175 | every step keeps: one writer at a time, and its entry stays in the map while it writes |
| CacheFreshness.ClockedStep | internal/cache/cache.go:168-171 | every step keeps: an entry's windows never reach past those of the value it holds, even between two field writes |
| CacheFreshness.AllReadingStep | internal/cache/cache.go:87-96 | every step keeps: a reader past its check, and later its answer, has a value within its window |
| CacheFlights.FlyingStep | internal/cache/cache.go:102-115 | every step keeps: a flight stores at most one value, its outcome fits what it stored, and its callers started before it ended |
| CacheRefinement.InPlaceStep | internal/cache/cache.go:167-175 | every step keeps: in the middle of an overwrite the store differs from the one before only in the fields already written |
| CacheRefinement.StepRefines | internal/cache/cache.go:118-206 | every step changes the contents by exactly the touch, set, delete or purge it completes, and otherwise not at all |
| CacheRuns.RunKeepsInv | internal/cache/cache.go:74-195 | all of the above in every reachable state of every interleaving |
| CacheRuns.HitsAreFresh | internal/cache/cache.go:81-97 | a value returned as cached was stored for that key by a set at a time t with now < t + ttl, or now < t + ttl + staleExtension for a stale hit |
| CacheHistory.StoredIsLatest | internal/cache/cache.go:162-195 | in every reachable state a stored key's entry holds the value of the latest set of that key |
| CacheWindows.EntriesAreExact | internal/cache/cache.go:168-171 | in every reachable state an entry that is not being overwritten, stored or not, expires ttl after the set of its value and is stale until staleExtension later |
| CacheWindows.StoredWindows | internal/cache/cache.go:162-195 | while nobody overwrites it, a stored key has the value of its latest set, and windows that end ttl and ttl + staleExtension after that |
| CacheHistory.HitWasCurrent | internal/cache/cache.go:81-97 | the value of a hit was the latest set of its key at some moment between the lookup and the return, within its window: one overwritten before the lookup is never returned |
| CacheRuns.OneLeaderPerKey | internal/cache/cache.go:99-109 | two threads that run a load or a set at the same time have different keys |
| CacheRuns.MissesGetTheirFlight | internal/cache/cache.go:99-116 | a miss gets the one value stored by a flight of its key that ended during the call, or its error, when nothing was stored; it panics if and only if a refresh led the flight and succeeded |
| CacheRuns.BoundHolds | internal/cache/cache.go:177-194 | a bounded cache never holds more than maxItems entries, at any step |
| CacheRuns.RunsAreSerial | internal/cache/cache.go:118-206 | every run leaves the contents that its completed updates give one at a time |
| CacheRuns.EvictionsAreLeastRecent | internal/cache/cache.go:220-237 | in every interleaving the key evicted is the one whose last set or touch is oldest, and no other goes |
| CacheRuns.SomeThreadMoves | internal/cache/cache.go:82-116 | no deadlock: some thread can step until all calls have ended |
| CacheRuns.CallsEnd | internal/cache/cache.go:74-160 | every call returns: n calls and the refreshes they start take at most 19 n steps in any run |
| CacheAnomalies.JoinerOfRefreshPanics | internal/cache/cache.go:87-115 | for every configuration, even without a stale window, there is a run in which a caller panics on line 115 |
| CacheAnomalies.TwoLoadsInOneWindow | internal/cache/cache.go:81-109 | for every positive ttl there is a run in which a caller loads a key that is stored and fresh |
| CacheDecisions.SecondLoadIff | internal/cache/cache.go:81-109 | some run loads a key that is stored and fresh if and only if ttl > 0 |
| CacheDecisions.LeaderFindsMiss | internal/cache/cache.go:81-109 | in every run a caller about to lead a flight finds its key not stored, or past both windows of its latest set, at that moment, unless a set of the key was completed since its lookup |
| CacheDecisions.CallDecides | internal/cache/cache.go:81-100 | in every run, without a set of the key completed since the lookup or under way: a call is on its way to a fresh hit only before at + ttl, to a stale hit only from then to at + ttl + staleExtension, and to a load only after both, where at is the time of the latest set |
| CacheEffects.HitsUseTheirKey | internal/cache/cache.go:88-94 | in every run a call that ends with a hit has touched its key between its lookup and its return |
| CacheEffects.RefreshesAreStaleHits | internal/cache/cache.go:93-96 | in every reachable state as many refreshes of a key have been started as stale hits of it have got that far |
| CacheEffects.MissesReturnALoad | internal/cache/cache.go:102-115 | a miss answers with what the loader returned in its flight: the value, stored for the key under a time that the clock showed after the load, or the error |
| RateLimiting.TokenBucket.Spend | internal/ratelimit/limiter.go:45-59 | a call is admitted if and only if burst and tokens + (now - last) * rate are both at least 1; afterwards the tokens are the smaller of the two, less 1 if admitted, and both times are now |
| RateLimiting.IPLimiter.constructor | internal/ratelimit/limiter.go:24-33 | a new limiter has no buckets and the given settings |
| RateLimiting.IPLimiter.Allow | internal/ratelimit/limiter.go:35-60 | the same for the address's bucket, a new one being full; no other address's bucket changes |
| RateLimiting.IPLimiter.Sweep | internal/ratelimit/limiter.go:62-75 | in whatever order the map is visited, exactly the buckets with now - lastAccess <= evictIdle stay, unchanged |
| RateLimitLaws.LevelIsLeastAllowance | internal/ratelimit/limiter.go:47-58 | the tokens after the refill are the minimum over all earlier calls i of burst + rate * (t - t_i) - admitted since i |
| RateLimitLaws.AdmittedIffEveryWindowFits | internal/ratelimit/limiter.go:35-60 | a call is admitted if and only if no window ending at it would exceed its burst and refill, for timestamps in any order |
| RateLimitLaws.WindowBound | internal/ratelimit/limiter.go:35-60 | a bucket admits at most burst + rate * length calls in any time window |
| RateLimitLaws.TableIsLone | internal/ratelimit/limiter.go:40-44 | each address has the bucket that its own calls alone would give it |
| RateLimitLaws.AnswerIsLone | internal/ratelimit/limiter.go:35-60 | each address's answers are those of a lone bucket run on its own calls |
| RateLimitLaws.HistorySimulates | internal/ratelimit/limiter.go:35-75 | the limiter that evicts simulates the one that does not: a bucket that is gone would be full by now |
| RateLimitLaws.EvictionUnobservable | internal/ratelimit/limiter.go:62-75 | evicting at any times changes no answer, if buckets refill within evictIdle and timestamps are monotone |
| RateLimitLaws.EvictionObservable | internal/ratelimit/limiter.go:68-72 | otherwise some monotone history has a call that is answered differently |
| RateLimitLaws.EvictionUnobservableIff | internal/ratelimit/limiter.go:24-75 | for all settings: unobservable if and only if burst < 1, or rate >= 0 and evictIdle * rate >= burst |
| RateLimitLaws.OutOfOrderSweepObservable | internal/ratelimit/limiter.go:36-37 | for all settings with burst >= 1: a call stamped before a sweep that it follows is admitted by the limiter that evicts and refused by the one that does not |
| RateLimitLaws.UnorderedEvictionUnobservableIff | internal/ratelimit/limiter.go:35-75 | with timestamps in any order: unobservable if and only if burst < 1 |
| RateLimitLaws.LimiterWindowBound | internal/ratelimit/limiter.go:35-60 | the window bound for each address of a limiter shared by all |
| RateLimitLaws.EvictingWindowBound | internal/ratelimit/limiter.go:35-75 | the same for the limiter that evicts |
| CircuitBreaking.CircuitBreaker.constructor | internal/upstream/retry_breaker.go:27-32 | a new breaker is closed and has counted nothing |
| CircuitBreaking.CircuitBreaker.Allow | internal/upstream/retry_breaker.go:34-38 | admits exactly after the end of the open period |
| CircuitBreaking.CircuitBreaker.OnSuccess | internal/upstream/retry_breaker.go:40-44 | forgets the failures and leaves the open period alone |
| CircuitBreaking.CircuitBreaker.OnFailure | internal/upstream/retry_breaker.go:46-53 | counts the failure and opens for openFor from the threshold on |
| CircuitBreaking.CounterIsTrailingFailures | internal/upstream/retry_breaker.go:40-53 | the counter is the number of failures since the last success |
| CircuitBreaking.TripsIffCounterReaches | internal/upstream/retry_breaker.go:49-52 | a failure opens the breaker if and only if it ends a run of at least failThreshold failures |
| CircuitBreaking.OpenUntilIsLastTrip | internal/upstream/retry_breaker.go:46-53 | the end of the open period is that of the last such failure, or the zero time if there was none |
| CircuitBreaking.RefusedIffRecentTrip | internal/upstream/retry_breaker.go:34-53 | a call is refused if and only if some such failure is at most openFor old |
| CircuitBreaking.OpenPeriodNeverShortened | internal/upstream/retry_breaker.go:40-53 | a call refused at a time stays refused at that time whatever outcomes are reported later |
| Retrying.DoWithRetry | internal/upstream/retry_breaker.go:55-86 | fn runs 1 to MaxRetries + 1 times, never after a success or a cancelled wait; the last error, the context error or nil is reported; wait k is the wrapped and capped delay times the jitter drawn for it, cut to whole nanoseconds toward zero |
| Retrying.DelaysFollowJitter | internal/upstream/retry_breaker.go:73-75 | a wait differs from delay times jitter by less than a nanosecond, toward zero |
| Retrying.RetriedDeterminesReport | internal/upstream/retry_breaker.go:55-86 | that promise determines result, attempts and delays uniquely |
| Retrying.RetrySucceedsIff | internal/upstream/retry_breaker.go:57-62 | nil is reported if and only if some permitted attempt succeeds with no earlier wait cancelled, or MaxRetries is negative |
| Retrying.EveryErrorIsRetried | internal/upstream/retry_breaker.go:57-83 | another attempt follows if and only if this one failed, with any error, was not the last permitted, and its wait was not cancelled |
| Retrying.UnjitteredExact | internal/upstream/retry_breaker.go:69-72 | without overflow the delay before jitter is min(BaseDelay * 2^k, MaxDelay) |
| Retrying.UnjitteredWraps | internal/upstream/retry_breaker.go:69-72 | in any case it is BaseDelay * 2^k modulo 2^64, brought into the range of an int64 and then capped at MaxDelay |
| Retrying.DelaysGrow | internal/upstream/retry_breaker.go:69-72 | and these never decrease |
| Retrying.OverflowIsNegative | internal/upstream/retry_breaker.go:69-72 | the first doubling past 2^63 gives a negative delay |
| Retrying.DelaysGrowIff | internal/upstream/retry_breaker.go:69-72 | the first n + 1 delays never decrease if and only if BaseDelay * 2^n < 2^63 |
| Retrying.IdealTotalClosedForm | internal/upstream/retry_breaker.go:57-84 | the sum of the delays is a geometric series up to the cap and then the cap |
| Retrying.JitteredBounds | internal/upstream/retry_breaker.go:73-77 | a wait lasts between 0.5 and 1.5 times its delay, less a nanosecond; a negative delay is no wait |
| Retrying.SleepUpperBound | internal/upstream/retry_breaker.go:69-83 | n waits last at most 1.5 * n * MaxDelay even when the shift or the product wraps |
| Retrying.ExhaustedRetrySleep | internal/upstream/retry_breaker.go:55-86 | a retry that uses all attempts waits MaxRetries times, within that bound and, without overflow, between 0.5 and 1.5 times the closed form |
| UpstreamCalling.Client.constructor | internal/upstream/client.go:23-33 | threshold 5 for 5 s; 2 retries from 50 ms up to 200 ms |
| UpstreamCalling.Client.Call | internal/upstream/client.go:82-110 | a refused call runs nothing and reports nothing; an admitted one reports exactly one outcome to the breaker, that of the whole retry |
| UpstreamCalling.WeatherClient.constructor | internal/weather/client.go:41-54 | threshold 5 for 10 s; 2 retries from 100 ms up to 500 ms |
| UpstreamCalling.WeatherClient.Get | internal/weather/client.go:124-187 | the key is missing if and only if nothing is left of it when trimmed, and then nothing at all happens; otherwise as Call |
| UpstreamCalling.TrimSpaceCuts | internal/weather/client.go:125-125 | trimming cuts white space only, and all of it, at both ends |
| UpstreamCalling.MissingKeyIff | internal/weather/client.go:125-127 | nothing is left if and only if every character is one of the 25 white-space code points |
| UpstreamCalling.RunStateIsHistory | internal/upstream/client.go:82-103 | the breaker's state is that of the history of one outcome for each admitted call and none for a refused one |
| UpstreamCalling.AdmittedWhileDown | internal/upstream/client.go:82-103 | from any state of the breaker: how many failing calls are admitted within a window |
| UpstreamCalling.AttemptsPerCall | internal/upstream/client.go:89-90 | each admitted call runs fn between 1 and MaxRetries + 1 times |
| UpstreamCalling.DeadDependencyLoad | internal/upstream/retry_breaker.go:34-86 | while everything fails at most failThreshold + W / openFor calls are admitted in a window of length W, and fn runs at most MaxRetries + 1 times that |
| JobQueueing.QueueSafety | internal/queue/queue.go:35-76 | in every interleaving: accepted jobs are the dequeued ones followed by the channel, in order; none is dequeued twice; a refused job is never run; depth and running jobs are bounded |
| JobQueueing.WorkerStepProgress | internal/queue/queue.go:62-76 | whichever branch the select takes, a worker's step lowers 2 * depth + 2 * running + idle by one |
| JobQueueing.ShutdownNotStuck | internal/queue/queue.go:62-76 | after the close some worker can step until all have returned |
| JobQueueing.ShutdownTerminates | internal/queue/queue.go:42-47 | without producers every run of the workers is finite, and one that cannot continue has returned all workers |
| JobQueueing.QuiescentAfterStop | internal/queue/queue.go:42-56 | after Stop no job runs or starts even if producers go on; accepted jobs are those run and those left in the channel |
| JobQueueing.AllRunIffDrained | internal/queue/queue.go:42-56 | when Stop returns all accepted jobs have run if and only if the channel is empty |
| JobQueueing.StopMayLeaveAny | internal/queue/queue.go:62-76 | with d jobs waiting at the close, there is a run of the workers that takes exactly r of them, for every r <= d |
| JobQueueing.EveryJobRunsIff | internal/queue/queue.go:27-76 | every run that ends with Stop runs all accepted jobs if and only if MaxQueue is 0 |
| JobQueueing.StartRun | internal/queue/queue.go:35-40 | the loop of Start is a run of the transition system |
| JobQueueing.Queue.Start | internal/queue/queue.go:35-40 | adds NumWorker idle workers, as that run does |
| JobQueueing.Queue.Enqueue | internal/queue/queue.go:49-56 | one step of the system: accepted if a worker waits or there is room, and refused otherwise |
| JobQueueing.Queue.Depth | internal/queue/queue.go:58-60 | the accepted jobs not yet taken by a worker, never more than MaxQueue |
| JobQueueing.Queue.WorkerStep | internal/queue/queue.go:62-76 | one step of a worker that is not blocked, before or after the stop, with the choice of the select left open |
| JobQueueing.Queue.Stop | internal/queue/queue.go:42-47 | returns, with every dequeued job finished and every accepted one dequeued or still in the channel |
| FanOut.FanOutSafety | internal/api/handlers.go:132-155 | at every moment at most c tasks are in their fn and at most one writes the shared map |
| FanOut.NoDeadlock | internal/api/handlers.go:132-155 | some task can step until all are done, unless there are no permits and the deadline is still to come |
| FanOut.RunIsBounded | internal/api/handlers.go:138-160 | Wait returns after at most 7 n + 1 steps |
| FanOut.FanOutResult | internal/api/handlers.go:132-160 | at Wait's return all permits and the lock are free, the map holds exactly what the successful tasks returned, and the error is nil if and only if all succeeded |
| FanOut.FatesAreTold | internal/api/handlers.go:140-157 | a task's fate is what its fn returned, or that it gave up waiting, once and for all |
| FanOut.FirstErrorWins | internal/api/handlers.go:132-160 | the group keeps the error of the task that reported one first |
| FanOut.CancelledIff | internal/api/handlers.go:129-142 | the context is cancelled if and only if the deadline has passed or an error has been reported, and only then does a task give up waiting |
| FanOut.ConditionsFanOut | internal/api/handlers.go:132-158 | the three calls are never all under way |
| FanOut.ConditionsAnswer | internal/api/handlers.go:121-175 | no zip, no answer; the handler answers completely, with the three calls' data under their names, if and only if all three succeeded; partially only on request, with exactly the names and data of those that did |
| FanOut.ConditionsFailure | internal/api/handlers.go:160-172 | otherwise with a timeout if the first error reported is a deadline's and a dependency failure if it is not; so with a timeout if all errors are a deadline's, and a dependency failure if none is |
| ShardedCounting.Itoa | internal/hotkey/sharded_counter.go:40-52 | the loop's digits, with no digits for a negative value |
| ShardedCounting.ItoaRoundTrip | internal/hotkey/sharded_counter.go:40-52 | for a value >= 0 the text is nonempty, all digits, has no leading zero and reads back as the value |
| ShardedCounting.ShardKeyInjective | internal/hotkey/sharded_counter.go:23-35 | two map keys are equal if and only if base and shard are, whatever '#' the bases hold |
| ShardedCounting.ShardedCounter.Inc | internal/hotkey/sharded_counter.go:21-28 | adds one, as an int64, to the entry of the base and the shard drawn |
| ShardedCounting.ShardedCounter.Get | internal/hotkey/sharded_counter.go:30-38 | the number of the counter's Incs for the base, modulo 2^64 as an int64 |
| ShardedCounting.BumpSum | internal/hotkey/sharded_counter.go:21-38 | an Inc changes the sum of its own base and of no other |
| ShardedCounting.ShardedRefinesPlain | internal/hotkey/sharded_counter.go:21-38 | whatever shards are drawn, the sum for a base is the number of its Incs modulo 2^64, and exactly that number below 2^63 |

## Left out

- HTTP handlers other than `Conditions`, routing, redirects, JSON, the NWS and weather.com requests and response
  structures, Prometheus metrics, logging, configuration and deployment files: plumbing.
- `ClassifyTemperatureF`, `pickTodayPeriod`, `truncate`, `handleWeatherError`: finite tables.
- Rounding of floating-point tokens and jitter, conversion of a float64 delay at the edge of int64, saturation
  of `time.Time.Sub`, and overflow of `time.Time` and of `consecutiveFail`.
- The memory model below sequential consistency, torn reads included: the unlocked reads of entry fields are
  data races.
- CacheProtocol: threads, entries and the singleflight group are values of a transition system, not heap
  objects; the insertion of a new key under the lock is one step, since no other thread can see its parts.
- FanOut: the goroutines share a state that is a value, not heap objects.
- Caching.Cache.GetOrLoad: one call at a time; interleaved calls are the subject of CacheProtocol.
- "One load per TTL window" under concurrency: false for every positive ttl, see `CacheDecisions.SecondLoadIff`.
- Panics of loaders, and what a panic on line 115 does to the process.
- CacheInclusion.LruInclusion: requests are served one at a time and loads on a miss succeed; only the ends of
  refreshes are free.
- RateLimitLaws.EvictionUnobservable: needs timestamps that are monotone in lock order; without them the
  property is false for every burst >= 1.
- UpstreamCalling.DeadDependencyLoad: the calls are sequential; concurrent ones that are all admitted before the
  breaker opens are not bounded by it.
- UpstreamCalling.WeatherClient.Get: the request, the decoding into `dst` and the metrics are part of the
  attempt's arbitrary result.
- JobQueueing.Queue.Enqueue: which of several waiting workers receives is a parameter.
- JobQueueing.Queue.Stop: with no producer at work, as `cmd/api/main.go:141-145` arranges when the HTTP shutdown
  succeeds, and called after Start has returned. With producers the workers need not exit.
- "Every accepted job runs": false unless MaxQueue is 0, see `JobQueueing.EveryJobRunsIff`.
- A job's two-second context: it bounds a job only if the job heeds it.
