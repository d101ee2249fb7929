/** The per-IP token bucket on values: what one step of the limiter does to its table of buckets. */
module RateLimitSpec {
  import opened Common

  /** Rates in tokens per second, times in seconds. */
  datatype Config = Config(rate: real, burst: real, evictIdle: real)

  datatype Bucket = Bucket(tokens: real, last: real, lastAccess: real)

  type Table = map<string, Bucket>

  function Gained(cfg: Config, elapsed: real): real { elapsed * cfg.rate }

  function Refilled(cfg: Config, bucket: Bucket, now: real): real
  {
    MinReal(bucket.tokens + Gained(cfg, now - bucket.last), cfg.burst)
  }

  function BucketFor(cfg: Config, table: Table, ip: string, now: real): Bucket
  {
    if ip in table then table[ip] else Bucket(cfg.burst, now, now)
  }

  /** The answer to a call of Allow. */
  predicate Admits(cfg: Config, table: Table, ip: string, now: real)
  {
    Refilled(cfg, BucketFor(cfg, table, ip, now), now) >= 1.0
  }

  function Spent(level: real): real { if level >= 1.0 then level - 1.0 else level }

  function Take(cfg: Config, bucket: Bucket, now: real): Bucket
  {
    Bucket(Spent(Refilled(cfg, bucket, now)), now, now)
  }

  function AfterCall(cfg: Config, table: Table, ip: string, now: real): Table
  {
    table[ip := Take(cfg, BucketFor(cfg, table, ip, now), now)]
  }

  /** What a call finds after the refill: elapsed * rate more than before, up to the burst; a new bucket is full. */
  lemma BucketRefills(cfg: Config, table: Table, ip: string, now: real)
    ensures Refilled(cfg, BucketFor(cfg, table, ip, now), now)
         == if ip in table then MinReal(table[ip].tokens + (now - table[ip].last) * cfg.rate, cfg.burst) else cfg.burst
  {
    assert (now - now) * cfg.rate == 0.0;
  }

  /** Answer and bucket of a call in numbers. */
  lemma CallInNumbers(cfg: Config, table: Table, ip: string, now: real)
    ensures Admits(cfg, table, ip, now) <==>
      cfg.burst >= 1.0 && (ip in table ==> table[ip].tokens + (now - table[ip].last) * cfg.rate >= 1.0)
    ensures var after := AfterCall(cfg, table, ip, now)[ip];
      && after.last == now && after.lastAccess == now
      && after.tokens + (if Admits(cfg, table, ip, now) then 1.0 else 0.0) ==
           if ip in table then MinReal(table[ip].tokens + (now - table[ip].last) * cfg.rate, cfg.burst) else cfg.burst
  {
    hide Gained;
    BucketRefills(cfg, table, ip, now);
  }

  predicate IsIdle(cfg: Config, bucket: Bucket, now: real) { now - bucket.lastAccess > cfg.evictIdle }

  /** One tick of the eviction loop. */
  function AfterSweep(cfg: Config, table: Table, now: real): Table
  {
    map ip | ip in table && !IsIdle(cfg, table[ip], now) :: table[ip]
  }
}

/** The limiter as the program holds it: shared, mutable buckets behind one mutex. */
module RateLimiting {
  import opened Common
  import opened RateLimitSpec

  class TokenBucket {
    var tokens: real
    var last: real
    const rate: real
    const burst: real
    var lastAccess: real

    constructor (tokens: real, last: real, rate: real, burst: real)
      ensures this.tokens == tokens && this.last == last && this.rate == rate && this.burst == burst
    {
      this.tokens, this.last, this.rate, this.burst := tokens, last, rate, burst;
      lastAccess := last;
    }

    function Value(): Bucket
      reads this
    {
      Bucket(tokens, last, lastAccess)
    }

    /** The part of Allow that works on the bucket it has found: refill, then spend one token if there is one. */
    method Spend(now: real, ghost cfg: Config) returns (ok: bool)
      requires rate == cfg.rate && burst == cfg.burst
      modifies this
      ensures ok <==> burst >= 1.0 && old(tokens) + (now - old(last)) * rate >= 1.0
      ensures tokens == MinReal(old(tokens) + (now - old(last)) * rate, burst) - if ok then 1.0 else 0.0
      ensures last == now && lastAccess == now
      ensures Value() == Take(cfg, old(Value()), now)
      ensures ok == (Refilled(cfg, old(Value()), now) >= 1.0)
    {
      lastAccess := now;

      var elapsed := now - last;
      last := now;
      ghost var level := old(tokens) + (now - old(last)) * rate;
      assert elapsed * rate == Gained(cfg, now - old(last));
      tokens := tokens + elapsed * rate;
      assert tokens == level;
      if tokens > burst {
        tokens := burst;
      }

      if tokens >= 1.0 {
        tokens := tokens - 1.0;
        return true;
      }
      return false;
    }
  }

  class IPLimiter {
    var buckets: map<string, TokenBucket>
    const cfg: Config

    ghost var contents: Table

    ghost predicate Valid()
      reads this, buckets.Values
    {
      && contents.Keys == buckets.Keys
      && (forall ip :: ip in buckets ==>
        && contents[ip] == buckets[ip].Value()
        && buckets[ip].rate == cfg.rate
        && buckets[ip].burst == cfg.burst)
      && (forall ip1, ip2 :: ip1 in buckets && ip2 in buckets && ip1 != ip2 ==> buckets[ip1] != buckets[ip2])
    }

    constructor (rps: int, burst: int, evictIdle: real)
      ensures Valid() && contents == map[]
      ensures cfg == Config(rps as real, burst as real, evictIdle)
    {
      buckets, contents := map[], map[];
      cfg := Config(rps as real, burst as real, evictIdle);
    }

    /** `now` is read before the lock is taken, so it may lie before times already recorded. */
    method Allow(ip: string, now: real) returns (ok: bool)
      requires Valid()
      modifies this, buckets.Values
      ensures Valid() && fresh(buckets.Values - old(buckets.Values))
      ensures contents == AfterCall(cfg, old(contents), ip, now)
      ensures ok == Admits(cfg, old(contents), ip, now)
      ensures ok <==>
        cfg.burst >= 1.0
        && (ip in old(contents) ==>
              old(contents)[ip].tokens + (now - old(contents)[ip].last) * cfg.rate >= 1.0)
      ensures ip in contents && contents[ip].last == now && contents[ip].lastAccess == now
      ensures contents[ip].tokens + (if ok then 1.0 else 0.0) ==
        if ip in old(contents)
        then MinReal(old(contents)[ip].tokens + (now - old(contents)[ip].last) * cfg.rate, cfg.burst)
        else cfg.burst
      ensures forall other :: other != ip ==>
        && (other in contents <==> other in old(contents))
        && (other in contents ==> contents[other] == old(contents)[other])
    {
      hide Gained, Take, Refilled, MinReal, Valid;
      CallInNumbers(cfg, contents, ip, now);
      ok := Decide(ip, now);
    }

    /** The body of Allow, under the mutex. */
    method Decide(ip: string, now: real) returns (ok: bool)
      requires Valid()
      modifies this, buckets.Values
      ensures Valid() && fresh(buckets.Values - old(buckets.Values))
      ensures contents == AfterCall(cfg, old(contents), ip, now)
      ensures ok == Admits(cfg, old(contents), ip, now)
    {
      if ip !in buckets {
        var created := new TokenBucket(cfg.burst, now, cfg.rate, cfg.burst);
        buckets := buckets[ip := created];
      }
      ok := buckets[ip].Spend(now, cfg);
      contents := AfterCall(cfg, contents, ip, now);
    }

    /** The body of one tick, visiting the buckets in whatever order the map yields them. */
    method Sweep(now: real)
      requires Valid()
      modifies this
      ensures Valid() && buckets.Values <= old(buckets.Values)
      ensures contents == AfterSweep(cfg, old(contents), now)
      ensures forall ip :: ip in contents <==>
        ip in old(contents) && now - old(contents)[ip].lastAccess <= cfg.evictIdle
      ensures forall ip :: ip in contents ==> contents[ip] == old(contents)[ip]
    {
      ghost var all := buckets;
      var pending := buckets.Keys;
      while pending != {}
        invariant contents == old(contents)
        invariant pending <= buckets.Keys
        invariant forall ip :: ip in buckets <==> ip in all && (ip in pending || !IsIdle(cfg, contents[ip], now))
        invariant forall ip :: ip in buckets ==> buckets[ip] == all[ip]
        decreases pending
      {
        var ip :| ip in pending;
        if now - buckets[ip].lastAccess > cfg.evictIdle {
          buckets := buckets - {ip};
        }
        pending := pending - {ip};
      }
      contents := AfterSweep(cfg, contents, now);
    }
  }
}
