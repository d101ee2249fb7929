/** What whole histories of calls and sweeps say about the limiter's answers. */
module RateLimitLaws {
  import opened Common
  import opened RateLimitSpec

  // ---------------------------------------------------------------- one bucket that is never evicted

  /** The tokens call j finds after the refill, for a bucket created by call 0. */
  function Level(cfg: Config, times: seq<real>, j: nat): real
    requires j < |times|
  {
    if j == 0 then cfg.burst
    else MinReal(Spent(Level(cfg, times, j - 1)) + Gained(cfg, times[j] - times[j - 1]), cfg.burst)
  }

  predicate Admitted(cfg: Config, times: seq<real>, j: nat)
    requires j < |times|
  {
    Level(cfg, times, j) >= 1.0
  }

  /** How many of the calls i, ..., j - 1 are admitted. */
  function AdmittedIn(cfg: Config, times: seq<real>, i: nat, j: nat): nat
    requires i <= j <= |times|
  {
    if i == j then 0
    else AdmittedIn(cfg, times, i, j - 1) + if Admitted(cfg, times, j - 1) then 1 else 0
  }

  /** What the window from call i to call j still allows: its burst and refill, less what it has admitted. */
  function Allowance(cfg: Config, times: seq<real>, i: nat, j: nat): real
    requires i <= j < |times|
  {
    cfg.burst + cfg.rate * (times[j] - times[i]) - AdmittedIn(cfg, times, i, j) as real
  }

  lemma GainedAdds(cfg: Config, earlier: real, later: real)
    ensures Gained(cfg, earlier + later) == Gained(cfg, earlier) + Gained(cfg, later)
  {
  }

  lemma GainedIsProduct(cfg: Config, elapsed: real)
    ensures Gained(cfg, elapsed) == cfg.rate * elapsed
  {
  }

  lemma AllowanceStep(cfg: Config, times: seq<real>, i: nat, j: nat)
    requires i < j < |times|
    ensures Allowance(cfg, times, i, j)
         == Allowance(cfg, times, i, j - 1) + Gained(cfg, times[j] - times[j - 1])
            - if Admitted(cfg, times, j - 1) then 1.0 else 0.0
  {
    GainedAdds(cfg, times[j - 1] - times[i], times[j] - times[j - 1]);
  }

  /** The tokens found by a call are the least allowance of any window that ends at it. */
  lemma {:induction false} LevelIsLeastAllowance(cfg: Config, times: seq<real>, j: nat)
    requires j < |times|
    ensures forall i :: 0 <= i <= j ==> Level(cfg, times, j) <= Allowance(cfg, times, i, j)
    ensures exists i :: 0 <= i <= j && Level(cfg, times, j) == Allowance(cfg, times, i, j)
  {
    assert Allowance(cfg, times, j, j) == cfg.burst;
    if j > 0 {
      LevelIsLeastAllowance(cfg, times, j - 1);
      forall i | 0 <= i < j
        ensures Level(cfg, times, j) <= Allowance(cfg, times, i, j)
      {
        AllowanceStep(cfg, times, i, j);
      }
      if Level(cfg, times, j) < cfg.burst {
        var i :| 0 <= i <= j - 1 && Level(cfg, times, j - 1) == Allowance(cfg, times, i, j - 1);
        AllowanceStep(cfg, times, i, j);
        assert Level(cfg, times, j) == Allowance(cfg, times, i, j);
      }
    }
  }

  /** Whether admitting call j keeps the window from call i to call j within its burst and refill. */
  predicate Fits(cfg: Config, times: seq<real>, i: nat, j: nat)
    requires i <= j < |times|
  {
    AdmittedIn(cfg, times, i, j) as real + 1.0 <= cfg.burst + cfg.rate * (times[j] - times[i])
  }

  /** A call is admitted exactly when no window that ends at it would exceed its burst and refill; the
      timestamps may be in any order. */
  lemma AdmittedIffEveryWindowFits(cfg: Config, times: seq<real>, j: nat)
    requires j < |times|
    ensures Admitted(cfg, times, j) <==> forall i :: 0 <= i <= j ==> Fits(cfg, times, i, j)
  {
    LevelIsLeastAllowance(cfg, times, j);
    var least :| 0 <= least <= j && Level(cfg, times, j) == Allowance(cfg, times, least, j);
    forall i | 0 <= i <= j
      ensures Allowance(cfg, times, i, j) >= 1.0 <==> Fits(cfg, times, i, j)
      ensures Level(cfg, times, j) <= Allowance(cfg, times, i, j)
    {
    }
    if Admitted(cfg, times, j) {
      assert forall i :: 0 <= i <= j ==> Fits(cfg, times, i, j);
    } else {
      assert !Fits(cfg, times, least, j);
    }
  }

  predicate Within(t: real, lo: real, hi: real) { lo <= t <= hi }

  /** How many of the first n calls are admitted at a time in [lo, hi]. */
  function AdmittedBetween(cfg: Config, times: seq<real>, n: nat, lo: real, hi: real): nat
    requires n <= |times|
  {
    if n == 0 then 0
    else
      var here := if Admitted(cfg, times, n - 1) && Within(times[n - 1], lo, hi) then 1 else 0;
      AdmittedBetween(cfg, times, n - 1, lo, hi) + here
  }

  function AbsoluteRate(cfg: Config): real { if cfg.rate < 0.0 then -cfg.rate else cfg.rate }

  /** The most a window of the given length can admit. */
  function WindowLimit(cfg: Config, length: real): real
  {
    cfg.burst + AbsoluteRate(cfg) * length
  }

  lemma RateOverWindow(cfg: Config, elapsed: real, length: real)
    requires elapsed <= length && -elapsed <= length
    ensures cfg.burst + Gained(cfg, elapsed) <= WindowLimit(cfg, length)
  {
    var rate, span := AbsoluteRate(cfg), if elapsed < 0.0 then -elapsed else elapsed;
    assert Gained(cfg, elapsed) <= rate * span;
    assert rate * (length - span) >= 0.0;
  }

  lemma AdmittedFits(cfg: Config, times: seq<real>, i: nat, j: nat)
    requires i <= j < |times| && Admitted(cfg, times, j)
    ensures AdmittedIn(cfg, times, i, j) as real + 1.0 <= cfg.burst + Gained(cfg, times[j] - times[i])
  {
    AdmittedIffEveryWindowFits(cfg, times, j);
    assert Fits(cfg, times, i, j);
    GainedIsProduct(cfg, times[j] - times[i]);
  }

  lemma AdmittedAtEnd(cfg: Config, times: seq<real>, i: nat, j: nat, length: real)
    requires i <= j < |times| && Admitted(cfg, times, j)
    requires -length <= times[j] - times[i] <= length
    ensures AdmittedIn(cfg, times, i, j) as real + 1.0 <= WindowLimit(cfg, length)
  {
    hide Gained, WindowLimit;
    AdmittedFits(cfg, times, i, j);
    RateOverWindow(cfg, times[j] - times[i], length);
  }

  /** Counted from the first admitted call i of a window, its admissions are among the calls i, ..., n - 1. */
  lemma {:induction false} BetweenWithinIndices(cfg: Config, times: seq<real>, n: nat, lo: real, hi: real)
    returns (i: nat)
    requires n <= |times| && AdmittedBetween(cfg, times, n, lo, hi) > 0
    ensures i < n && Admitted(cfg, times, i) && Within(times[i], lo, hi)
    ensures AdmittedBetween(cfg, times, n, lo, hi) <= AdmittedIn(cfg, times, i, n)
  {
    if AdmittedBetween(cfg, times, n - 1, lo, hi) == 0 {
      i := n - 1;
      assert AdmittedIn(cfg, times, i, i) == 0;
    } else {
      i := BetweenWithinIndices(cfg, times, n - 1, lo, hi);
    }
  }

  /** Within any time window an address is admitted at most burst + rate * length times; again the
      timestamps may be in any order. */
  lemma {:induction false} WindowBound(cfg: Config, times: seq<real>, n: nat, lo: real, hi: real)
    requires n <= |times|
    ensures AdmittedBetween(cfg, times, n, lo, hi) == 0
         || AdmittedBetween(cfg, times, n, lo, hi) as real <= WindowLimit(cfg, hi - lo)
  {
    if n > 0 {
      WindowBound(cfg, times, n - 1, lo, hi);
      var j := n - 1;
      if Admitted(cfg, times, j) && Within(times[j], lo, hi) {
        if AdmittedBetween(cfg, times, j, lo, hi) == 0 {
          AdmittedAtEnd(cfg, times, j, j, hi - lo);
        } else {
          var i := BetweenWithinIndices(cfg, times, j, lo, hi);
          AdmittedAtEnd(cfg, times, i, j, hi - lo);
        }
      }
    }
  }

  // ---------------------------------------------------------------- many addresses, with and without eviction

  datatype Event = Call(ip: string, at: real) | Sweep(at: real)

  /** The table after a history of a new limiter; without `evicting` the sweeps delete nothing. */
  function TableAfter(cfg: Config, events: seq<Event>, evicting: bool): Table
  {
    if events == [] then map[]
    else
      var before := TableAfter(cfg, events[..|events| - 1], evicting);
      match events[|events| - 1]
      case Call(ip, at) => AfterCall(cfg, before, ip, at)
      case Sweep(at) => if evicting then AfterSweep(cfg, before, at) else before
  }

  /** The answer to event n; false for a sweep. */
  predicate Answer(cfg: Config, events: seq<Event>, n: nat, evicting: bool)
    requires n < |events|
  {
    events[n].Call? && Admits(cfg, TableAfter(cfg, events[..n], evicting), events[n].ip, events[n].at)
  }

  /** The timestamps of one address's calls, in lock order. */
  function Times(events: seq<Event>, ip: string): seq<real>
  {
    if events == [] then []
    else
      var before, last := Times(events[..|events| - 1], ip), events[|events| - 1];
      if last.Call? && last.ip == ip then before + [last.at] else before
  }

  lemma {:induction false} LevelOfPrefix(cfg: Config, times: seq<real>, at: real, j: nat)
    requires j < |times|
    ensures Level(cfg, times + [at], j) == Level(cfg, times, j)
  {
    if j > 0 {
      LevelOfPrefix(cfg, times, at, j - 1);
    }
  }

  /** The bucket left behind by a lone bucket's calls. */
  function LoneBucket(cfg: Config, times: seq<real>): Bucket
    requires times != []
  {
    var j := |times| - 1;
    Bucket(Spent(Level(cfg, times, j)), times[j], times[j])
  }

  /** The bucket a call finds: a full one if it is the first, else what the earlier calls left. */
  function FoundBucket(cfg: Config, times: seq<real>, at: real): Bucket
  {
    if times == [] then Bucket(cfg.burst, at, at) else LoneBucket(cfg, times)
  }

  lemma LoneRefill(cfg: Config, times: seq<real>, at: real)
    ensures Refilled(cfg, FoundBucket(cfg, times, at), at) == Level(cfg, times + [at], |times|)
  {
    if times == [] {
      assert Gained(cfg, at - at) == 0.0;
    } else {
      LevelOfPrefix(cfg, times, at, |times| - 1);
    }
  }

  lemma LoneCall(cfg: Config, times: seq<real>, at: real)
    ensures Refilled(cfg, FoundBucket(cfg, times, at), at) == Level(cfg, times + [at], |times|)
    ensures Take(cfg, FoundBucket(cfg, times, at), at) == LoneBucket(cfg, times + [at])
  {
    LoneRefill(cfg, times, at);
  }

  /** Without eviction each address has the bucket it would have alone. */
  lemma {:induction false} TableIsLone(cfg: Config, events: seq<Event>, ip: string)
    ensures var table, times := TableAfter(cfg, events, false), Times(events, ip);
      (ip in table <==> times != []) && (times != [] ==> table[ip] == LoneBucket(cfg, times))
  {
    if events != [] {
      var before, last := events[..|events| - 1], events[|events| - 1];
      TableIsLone(cfg, before, ip);
      if last.Call? && last.ip == ip {
        LoneCall(cfg, Times(before, ip), last.at);
      }
    }
  }

  /** Isolation: without eviction every answer is that of a lone bucket fed this address's calls only. */
  lemma AnswerIsLone(cfg: Config, events: seq<Event>, n: nat)
    requires n < |events| && events[n].Call?
    ensures var times := Times(events[..n + 1], events[n].ip);
      times != [] && (Answer(cfg, events, n, false) <==> Admitted(cfg, times, |times| - 1))
  {
    var before, ip := events[..n], events[n].ip;
    assert events[..n + 1][..n] == before;
    TableIsLone(cfg, before, ip);
    LoneCall(cfg, Times(before, ip), events[n].at);
  }

  /** Timestamps that never decrease in lock order. */
  predicate Monotone(events: seq<Event>)
  {
    forall i, j :: 0 <= i <= j < |events| ==> events[i].at <= events[j].at
  }

  /** An idle bucket refills completely before it is evicted. */
  predicate RefillsWhenIdle(cfg: Config)
  {
    cfg.evictIdle * cfg.rate >= cfg.burst
  }

  /** What a bucket of a monotone history satisfies at any later time. */
  predicate Sound(cfg: Config, bucket: Bucket, now: real)
  {
    && bucket.last == bucket.lastAccess <= now
    && (bucket.tokens >= 0.0 || bucket.tokens >= cfg.burst)
  }

  /** A refill at `now` fills the bucket. */
  predicate Recovered(cfg: Config, bucket: Bucket, now: real)
  {
    bucket.tokens + Gained(cfg, now - bucket.last) >= cfg.burst
  }

  /** The simulation: an evicted bucket is one whose next refill makes it equal to a new one. */
  ghost predicate Simulates(cfg: Config, evicted: Table, kept: Table, now: real)
  {
    && (forall ip :: ip in evicted ==> ip in kept && evicted[ip] == kept[ip])
    && (forall ip :: ip in kept ==> Sound(cfg, kept[ip], now))
    && (forall ip :: ip in kept && ip !in evicted ==> Recovered(cfg, kept[ip], now))
  }

  lemma GainedGrows(cfg: Config, shorter: real, longer: real)
    requires cfg.rate >= 0.0 && shorter <= longer
    ensures Gained(cfg, shorter) <= Gained(cfg, longer)
  {
    GainedAdds(cfg, shorter, longer - shorter);
    assert Gained(cfg, longer - shorter) >= 0.0;
  }

  lemma TimePasses(cfg: Config, evicted: Table, kept: Table, now: real, later: real)
    requires cfg.rate >= 0.0 && now <= later && Simulates(cfg, evicted, kept, now)
    ensures Simulates(cfg, evicted, kept, later)
  {
    forall ip | ip in kept && ip !in evicted
      ensures Recovered(cfg, kept[ip], later)
    {
      GainedGrows(cfg, now - kept[ip].last, later - kept[ip].last);
    }
  }

  lemma TakeIsSound(cfg: Config, bucket: Bucket, now: real)
    requires cfg.rate >= 0.0 && Sound(cfg, bucket, now)
    ensures Sound(cfg, Take(cfg, bucket, now), now)
  {
    GainedGrows(cfg, 0.0, now - bucket.last);
    assert Gained(cfg, 0.0) == 0.0;
  }

  lemma RefillAtOnce(cfg: Config, tokens: real, now: real)
    ensures Refilled(cfg, Bucket(tokens, now, now), now) == MinReal(tokens, cfg.burst)
  {
    assert Gained(cfg, now - now) == 0.0;
  }

  lemma CallSimulates(cfg: Config, evicted: Table, kept: Table, ip: string, now: real)
    requires cfg.rate >= 0.0 && Simulates(cfg, evicted, kept, now)
    ensures Admits(cfg, evicted, ip, now) <==> Admits(cfg, kept, ip, now)
    ensures Simulates(cfg, AfterCall(cfg, evicted, ip, now), AfterCall(cfg, kept, ip, now), now)
  {
    RefillAtOnce(cfg, cfg.burst, now);
    if ip in kept {
      TakeIsSound(cfg, kept[ip], now);
      if ip !in evicted {
        assert Recovered(cfg, kept[ip], now);
      }
    }
  }

  lemma SweepSimulates(cfg: Config, evicted: Table, kept: Table, now: real)
    requires cfg.rate >= 0.0 && RefillsWhenIdle(cfg) && Simulates(cfg, evicted, kept, now)
    ensures Simulates(cfg, AfterSweep(cfg, evicted, now), kept, now)
  {
    forall ip | ip in evicted && IsIdle(cfg, evicted[ip], now)
      ensures Recovered(cfg, kept[ip], now)
    {
      assert Sound(cfg, kept[ip], now);
      GainedGrows(cfg, cfg.evictIdle, now - kept[ip].last);
      GainedGrows(cfg, 0.0, now - kept[ip].last);
      assert Gained(cfg, 0.0) == 0.0;
    }
  }

  lemma {:induction false} HistorySimulates(cfg: Config, events: seq<Event>, now: real)
    requires cfg.rate >= 0.0 && RefillsWhenIdle(cfg) && Monotone(events)
    requires events != [] ==> events[|events| - 1].at <= now
    ensures Simulates(cfg, TableAfter(cfg, events, true), TableAfter(cfg, events, false), now)
  {
    if events != [] {
      var before, last := events[..|events| - 1], events[|events| - 1];
      HistorySimulates(cfg, before, last.at);
      var evicted, kept := TableAfter(cfg, before, true), TableAfter(cfg, before, false);
      if last.Call? {
        CallSimulates(cfg, evicted, kept, last.ip, last.at);
      } else {
        SweepSimulates(cfg, evicted, kept, last.at);
      }
      TimePasses(cfg, TableAfter(cfg, events, true), TableAfter(cfg, events, false), last.at, now);
    }
  }

  /** Eviction at any times is unobservable: every call gets the answer it would get were nothing ever evicted. */
  lemma EvictionUnobservable(cfg: Config, events: seq<Event>, n: nat)
    requires cfg.rate >= 0.0 && RefillsWhenIdle(cfg) && Monotone(events) && n < |events|
    ensures Answer(cfg, events, n, true) <==> Answer(cfg, events, n, false)
  {
    var before := events[..n];
    HistorySimulates(cfg, before, events[n].at);
    if events[n].Call? {
      CallSimulates(cfg, TableAfter(cfg, before, true), TableAfter(cfg, before, false), events[n].ip, events[n].at);
    }
  }

  // ---------------------------------------------------------------- the condition is exact

  function Calls(ip: string, at: real, k: nat): seq<Event>
  {
    seq(k, i => Call(ip, at))
  }

  lemma TableAfterCalls(cfg: Config, start: seq<Event>, ip: string, at: real, k: nat, evicting: bool)
    ensures TableAfter(cfg, start + Calls(ip, at, k + 1), evicting)
         == AfterCall(cfg, TableAfter(cfg, start + Calls(ip, at, k), evicting), ip, at)
  {
    var events := start + Calls(ip, at, k + 1);
    assert events[..|events| - 1] == start + Calls(ip, at, k);
  }

  /** A full bucket of integral size admits as many simultaneous calls as its size. */
  lemma {:induction false} FullBucketCalls(cfg: Config, start: seq<Event>, ip: string, at: real, k: nat, evicting: bool)
    requires ip !in TableAfter(cfg, start, evicting) && k as real <= cfg.burst
    ensures var table := TableAfter(cfg, start + Calls(ip, at, k), evicting);
      && (k > 0 ==> ip in table && table[ip] == Bucket(cfg.burst - k as real, at, at))
      && (k as real + 1.0 <= cfg.burst ==> Admits(cfg, table, ip, at))
  {
    RefillAtOnce(cfg, cfg.burst - k as real, at);
    if k == 0 {
      assert start + Calls(ip, at, 0) == start;
    } else {
      RefillAtOnce(cfg, cfg.burst - (k - 1) as real, at);
      FullBucketCalls(cfg, start, ip, at, k - 1, evicting);
      TableAfterCalls(cfg, start, ip, at, k - 1, evicting);
    }
  }

  /** An emptied bucket that has not refilled refuses one of as many calls as its size. */
  lemma RefusedCall(cfg: Config, start: seq<Event>, ip: string, at: real, size: nat) returns (k: nat)
    requires ip in TableAfter(cfg, start, false) && TableAfter(cfg, start, false)[ip] == Bucket(0.0, 0.0, 0.0)
    requires size >= 1 && size as real == cfg.burst && Gained(cfg, at) < cfg.burst
    ensures k < size && !Admits(cfg, TableAfter(cfg, start + Calls(ip, at, k), false), ip, at)
  {
    k := 0;
    assert start + Calls(ip, at, 0) == start;
    assert Gained(cfg, at - at) == 0.0;
    while Admits(cfg, TableAfter(cfg, start + Calls(ip, at, k), false), ip, at)
      invariant ip in TableAfter(cfg, start + Calls(ip, at, k), false)
      invariant TableAfter(cfg, start + Calls(ip, at, k), false)[ip]
             == if k == 0 then Bucket(0.0, 0.0, 0.0) else Bucket(Gained(cfg, at) - k as real, at, at)
      invariant k as real <= Gained(cfg, at) || k == 0
      decreases size - k
    {
      TableAfterCalls(cfg, start, ip, at, k, false);
      k := k + 1;
    }
  }

  lemma DrainedBucket(cfg: Config, ip: string, size: nat, evicting: bool)
    requires size >= 1 && cfg.burst == size as real
    ensures var table := TableAfter(cfg, Calls(ip, 0.0, size), evicting);
      ip in table && table[ip] == Bucket(0.0, 0.0, 0.0)
  {
    FullBucketCalls(cfg, [], ip, 0.0, size, evicting);
    assert [] + Calls(ip, 0.0, size) == Calls(ip, 0.0, size);
  }

  /** A time at which an emptied bucket is evicted but has not refilled. */
  lemma EvictedTooSoon(cfg: Config) returns (at: real)
    requires cfg.burst >= 1.0 && !(cfg.rate >= 0.0 && RefillsWhenIdle(cfg))
    ensures at >= 0.0 && at > cfg.evictIdle && Gained(cfg, at) < cfg.burst
  {
    if cfg.evictIdle < 0.0 {
      at := 0.0;
    } else if cfg.rate <= 0.0 {
      at := cfg.evictIdle + 1.0;
    } else {
      var spare := (cfg.burst - Gained(cfg, cfg.evictIdle)) / (2.0 * cfg.rate);
      at := cfg.evictIdle + spare;
      GainedAdds(cfg, cfg.evictIdle, spare);
      assert Gained(cfg, spare) == (cfg.burst - Gained(cfg, cfg.evictIdle)) / 2.0;
    }
  }

  /** The sweep evicts the emptied bucket, or would keep it. */
  lemma SweptBucket(cfg: Config, ip: string, size: nat, at: real)
    requires size >= 1 && cfg.burst == size as real && at > cfg.evictIdle
    ensures var start := Calls(ip, 0.0, size) + [Sweep(at)];
      && ip !in TableAfter(cfg, start, true)
      && ip in TableAfter(cfg, start, false) && TableAfter(cfg, start, false)[ip] == Bucket(0.0, 0.0, 0.0)
  {
    var start := Calls(ip, 0.0, size) + [Sweep(at)];
    assert start[..size] == Calls(ip, 0.0, size);
    DrainedBucket(cfg, ip, size, true);
    DrainedBucket(cfg, ip, size, false);
  }

  lemma ProbeAt(ip: string, size: nat, at: real, k: nat)
    requires at >= 0.0
    ensures var start := Calls(ip, 0.0, size) + [Sweep(at)];
      var events := start + Calls(ip, at, k + 1);
      && Monotone(events) && |events| == size + k + 2
      && events[size + 1 + k] == Call(ip, at)
      && events[..size + 1 + k] == start + Calls(ip, at, k)
  {
  }

  /** If a bucket may be evicted before it has refilled, some monotone history shows it. */
  lemma EvictionObservable(cfg: Config, size: nat) returns (events: seq<Event>, n: nat)
    requires size >= 1 && cfg.burst == size as real && !(cfg.rate >= 0.0 && RefillsWhenIdle(cfg))
    ensures Monotone(events) && n < |events| && Answer(cfg, events, n, true) && !Answer(cfg, events, n, false)
  {
    hide Monotone, TableAfter, Calls;
    var ip := "";
    var at := EvictedTooSoon(cfg);
    var start := Calls(ip, 0.0, size) + [Sweep(at)];
    SweptBucket(cfg, ip, size, at);
    var k := RefusedCall(cfg, start, ip, at, size);
    FullBucketCalls(cfg, start, ip, at, k, true);
    events, n := start + Calls(ip, at, k + 1), size + 1 + k;
    ProbeAt(ip, size, at, k);
  }

  /** For every setting of the limiter eviction is unobservable exactly when buckets hold no token at all, or
      refill completely before they are evicted. */
  lemma EvictionUnobservableIff(cfg: Config, size: int)
    requires cfg.burst == size as real
    ensures size < 1 || (cfg.rate >= 0.0 && cfg.evictIdle * cfg.rate >= size as real) <==>
            forall events, n: nat :: Monotone(events) && n < |events| ==>
              (Answer(cfg, events, n, true) <==> Answer(cfg, events, n, false))
  {
    if size >= 1 && !(cfg.rate >= 0.0 && RefillsWhenIdle(cfg)) {
      var events, n := EvictionObservable(cfg, size);
    } else {
      forall events, n: nat | Monotone(events) && n < |events|
        ensures Answer(cfg, events, n, true) <==> Answer(cfg, events, n, false)
      {
        if size >= 1 {
          EvictionUnobservable(cfg, events, n);
        }
      }
    }
  }

  /** Without monotone timestamps eviction shows whatever the settings: a call stamped before the sweep that it
      follows finds a new bucket in place of the emptied one. */
  lemma OutOfOrderSweepObservable(cfg: Config, ip: string, size: nat, at: real)
    requires size >= 1 && cfg.burst == size as real && at > cfg.evictIdle
    ensures var events := Calls(ip, 0.0, size) + [Sweep(at), Call(ip, 0.0)];
      Answer(cfg, events, size + 1, true) && !Answer(cfg, events, size + 1, false)
  {
    hide TableAfter;
    var events := Calls(ip, 0.0, size) + [Sweep(at), Call(ip, 0.0)];
    assert events[..size + 1] == Calls(ip, 0.0, size) + [Sweep(at)];
    SweptBucket(cfg, ip, size, at);
    RefillAtOnce(cfg, 0.0, 0.0);
    RefillAtOnce(cfg, cfg.burst, 0.0);
  }

  /** With timestamps in any order eviction is unobservable exactly when buckets hold no token at all. */
  lemma UnorderedEvictionUnobservableIff(cfg: Config, size: int)
    requires cfg.burst == size as real
    ensures size < 1 <==>
            forall events, n: nat :: n < |events| ==> (Answer(cfg, events, n, true) <==> Answer(cfg, events, n, false))
  {
    if size >= 1 {
      OutOfOrderSweepObservable(cfg, "", size, cfg.evictIdle + 1.0);
    }
  }

  // ---------------------------------------------------------------- the window bound for the whole limiter

  /** How many of the first n events are calls of the address admitted at a time in [lo, hi]. */
  function AdmittedCalls(cfg: Config, events: seq<Event>, n: nat, evicting: bool, ip: string, lo: real, hi: real): nat
    requires n <= |events|
  {
    if n == 0 then 0
    else
      var event := events[n - 1];
      var here := event.Call? && event.ip == ip && Within(event.at, lo, hi) && Answer(cfg, events, n - 1, evicting);
      AdmittedCalls(cfg, events, n - 1, evicting, ip, lo, hi) + if here then 1 else 0
  }

  lemma {:induction false} BetweenOfPrefix(cfg: Config, times: seq<real>, at: real, n: nat, lo: real, hi: real)
    requires n <= |times|
    ensures AdmittedBetween(cfg, times + [at], n, lo, hi) == AdmittedBetween(cfg, times, n, lo, hi)
  {
    if n > 0 {
      BetweenOfPrefix(cfg, times, at, n - 1, lo, hi);
      LevelOfPrefix(cfg, times, at, n - 1);
    }
  }

  lemma {:induction false} CallsOfLoneBucket(cfg: Config, events: seq<Event>, n: nat, ip: string, lo: real, hi: real)
    requires n <= |events|
    ensures var times := Times(events[..n], ip);
      AdmittedCalls(cfg, events, n, false, ip, lo, hi) == AdmittedBetween(cfg, times, |times|, lo, hi)
  {
    if n > 0 {
      CallsOfLoneBucket(cfg, events, n - 1, ip, lo, hi);
      assert events[..n][..n - 1] == events[..n - 1];
      var event, times := events[n - 1], Times(events[..n - 1], ip);
      if event.Call? && event.ip == ip {
        AnswerIsLone(cfg, events, n - 1);
        BetweenOfPrefix(cfg, times, event.at, |times|, lo, hi);
      }
    }
  }

  /** Within any window an address is admitted at most burst + rate * length times, whatever other addresses
      do and whatever the order of the timestamps. */
  lemma LimiterWindowBound(cfg: Config, events: seq<Event>, ip: string, lo: real, hi: real)
    ensures var admitted := AdmittedCalls(cfg, events, |events|, false, ip, lo, hi);
      admitted == 0 || admitted as real <= WindowLimit(cfg, hi - lo)
  {
    CallsOfLoneBucket(cfg, events, |events|, ip, lo, hi);
    var times := Times(events[..|events|], ip);
    WindowBound(cfg, times, |times|, lo, hi);
  }

  lemma {:induction false} EvictionKeepsCounts(cfg: Config, events: seq<Event>, n: nat, ip: string, lo: real, hi: real)
    requires cfg.rate >= 0.0 && RefillsWhenIdle(cfg) && Monotone(events) && n <= |events|
    ensures AdmittedCalls(cfg, events, n, true, ip, lo, hi) == AdmittedCalls(cfg, events, n, false, ip, lo, hi)
  {
    if n > 0 {
      EvictionKeepsCounts(cfg, events, n - 1, ip, lo, hi);
      EvictionUnobservable(cfg, events, n - 1);
    }
  }

  /** The same bound for the limiter that evicts. */
  lemma EvictingWindowBound(cfg: Config, events: seq<Event>, ip: string, lo: real, hi: real)
    requires cfg.rate >= 0.0 && RefillsWhenIdle(cfg) && Monotone(events)
    ensures var admitted := AdmittedCalls(cfg, events, |events|, true, ip, lo, hi);
      admitted == 0 || admitted as real <= WindowLimit(cfg, hi - lo)
  {
    EvictionKeepsCounts(cfg, events, |events|, ip, lo, hi);
    LimiterWindowBound(cfg, events, ip, lo, hi);
  }
}
