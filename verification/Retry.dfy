/** The retry loop with exponential backoff and jitter. */
module Retrying {
  import opened Common
  import opened Int64

  type Duration = d: int | InRange(d)

  datatype RetryPolicy = RetryPolicy(maxRetries: int, baseDelay: Duration, maxDelay: Duration)

  /** What the world does during one DoWithRetry: the error of each attempt, if any; the context error when
      cancellation wins the wait after an attempt; and the factor 0.5 + rand.Float64() drawn for that wait. */
  datatype World<!E> = World(attempt: nat -> Option<E>, cancelled: nat -> Option<E>, jitter: nat -> real)
  {
    ghost predicate Valid()
    {
      forall k :: 0.5 <= jitter(k) < 1.5
    }
  }

  // ---------------------------------------------------------------- delays

  function Pow2(k: nat): nat { if k == 0 then 1 else 2 * Pow2(k - 1) }

  /** BaseDelay * (1 << attempt) in 64 bits, capped at MaxDelay. */
  function Unjittered(pol: RetryPolicy, attempt: nat): Duration
  {
    Min(Wrap(pol.baseDelay * Wrap(Pow2(attempt))), pol.maxDelay)
  }

  /** Conversion of a floating-point number to an integer cuts the fraction off. */
  function Truncate(x: real): int
  {
    if x >= 0.0 then x.Floor else -(-x).Floor
  }

  function Scaled(delay: int, jitter: real): real { delay as real * jitter }

  function Jittered(delay: int, jitter: real): int { Truncate(Scaled(delay, jitter)) }

  /** A timer with a negative duration fires at once. */
  function Slept(delay: int): nat { Max(0, delay) }

  function TotalSlept(delays: seq<int>): nat
  {
    if delays == [] then 0 else TotalSlept(delays[..|delays| - 1]) + Slept(delays[|delays| - 1])
  }

  // ---------------------------------------------------------------- the loop

  /** What DoWithRetry returned, how often fn ran, and the waits it began. */
  datatype RetryReport<E> = RetryReport(result: Option<E>, attempts: nat, delays: seq<int>)

  /** The delays a report may hold: one per wait, each jittered from its unjittered value. */
  predicate DelaysOf<E>(pol: RetryPolicy, world: World<E>, delays: seq<int>)
  {
    forall k :: 0 <= k < |delays| ==> delays[k] == Jittered(Unjittered(pol, k), world.jitter(k))
  }

  /** The promise of DoWithRetry. Only failed attempts are followed by another; the loop ends with the first
      success, the first cancelled wait, or the last permitted attempt. */
  ghost predicate Retried<E>(pol: RetryPolicy, world: World<E>, report: RetryReport<E>)
  {
    var n := report.attempts;
    && (pol.maxRetries < 0 ==> n == 0 && report.result == None)
    && (pol.maxRetries >= 0 ==> 1 <= n <= pol.maxRetries + 1)
    && (forall k :: 0 <= k < n - 1 ==> world.attempt(k).Some? && world.cancelled(k) == None)
    && (n > 0 && world.attempt(n - 1) == None ==> report.result == None && |report.delays| == n - 1)
    && (n > 0 && world.attempt(n - 1).Some? ==>
      if n == pol.maxRetries + 1 then report.result == world.attempt(n - 1) && |report.delays| == n - 1
      else world.cancelled(n - 1).Some? && report.result == world.cancelled(n - 1) && |report.delays| == n)
    && (n == 0 ==> report.delays == [])
    && DelaysOf(pol, world, report.delays)
  }

  /** Wait k is the delay before jitter times the factor drawn for it, cut to whole nanoseconds toward zero. */
  predicate FollowsJitter<E>(pol: RetryPolicy, world: World<E>, delays: seq<int>, k: nat)
    requires k < |delays|
  {
    var exact := Unjittered(pol, k) as real * world.jitter(k);
    if Unjittered(pol, k) >= 0 then exact - 1.0 < delays[k] as real <= exact
    else exact <= delays[k] as real < exact + 1.0
  }

  lemma DelaysFollowJitter<E>(pol: RetryPolicy, world: World<E>, delays: seq<int>)
    requires DelaysOf(pol, world, delays)
    ensures world.Valid() ==> forall k :: 0 <= k < |delays| ==> FollowsJitter(pol, world, delays, k)
  {
    if world.Valid() {
      forall k | 0 <= k < |delays|
        ensures FollowsJitter(pol, world, delays, k)
      {
        ScaledSign(Unjittered(pol, k), world.jitter(k));
      }
    }
  }

  lemma ScaledSign(delay: int, jitter: real)
    requires 0.5 <= jitter < 1.5
    ensures delay >= 0 ==> Scaled(delay, jitter) >= 0.0
    ensures delay < 0 ==> Scaled(delay, jitter) < 0.0
  {
    var d := delay as real;
    if delay >= 0 {
      assert d * jitter >= 0.0;
    } else {
      assert -d * jitter > 0.0;
    }
  }

  method DoWithRetry<E>(pol: RetryPolicy, world: World<E>) returns (report: RetryReport<E>)
    ensures Retried(pol, world, report)
    ensures world.Valid() ==> forall k :: 0 <= k < |report.delays| ==> FollowsJitter(pol, world, report.delays, k)
  {
    hide FollowsJitter;
    var last: Option<E>, attempt, runs, delays := None, 0, 0, [];
    while attempt <= pol.maxRetries
      invariant 0 <= attempt == runs == |delays| && (attempt <= pol.maxRetries || attempt == 0)
      invariant attempt == 0 ==> last == None
      invariant forall k :: 0 <= k < attempt ==> world.attempt(k).Some? && world.cancelled(k) == None
      invariant DelaysOf(pol, world, delays)
      decreases pol.maxRetries - attempt
    {
      var err := world.attempt(attempt);
      runs := runs + 1;
      if err == None {
        DelaysFollowJitter(pol, world, delays);
        return RetryReport(None, runs, delays);
      }
      last := err;

      // no sleep after the last attempt
      if attempt == pol.maxRetries {
        break;
      }

      var delay := Wrap(pol.baseDelay * Wrap(Pow2(attempt)));
      if delay > pol.maxDelay {
        delay := pol.maxDelay;
      }
      delay := Jittered(delay, world.jitter(attempt));
      delays := delays + [delay];
      if world.cancelled(attempt).Some? {
        DelaysFollowJitter(pol, world, delays);
        return RetryReport(world.cancelled(attempt), runs, delays);
      }
      attempt := attempt + 1;
    }
    DelaysFollowJitter(pol, world, delays);
    return RetryReport(last, runs, delays);
  }

  /** The promise leaves nothing open: it determines the report. */
  lemma RetriedDeterminesReport<E>(pol: RetryPolicy, world: World<E>, one: RetryReport<E>, two: RetryReport<E>)
    requires Retried(pol, world, one) && Retried(pol, world, two)
    ensures one == two
  {
    assert one.delays == two.delays;
  }

  predicate ReachedAndSucceeds<E>(pol: RetryPolicy, world: World<E>, k: nat)
  {
    k <= pol.maxRetries && world.attempt(k) == None && forall j: nat :: j < k ==> world.cancelled(j) == None
  }

  /** The call succeeds exactly when some permitted attempt would, with no wait before it cancelled; with a
      negative MaxRetries it reports success although fn never ran. */
  lemma RetrySucceedsIff<E>(pol: RetryPolicy, world: World<E>, report: RetryReport<E>)
    requires Retried(pol, world, report)
    ensures report.result == None <==> pol.maxRetries < 0 || exists k: nat :: ReachedAndSucceeds(pol, world, k)
  {
    var n := report.attempts;
    if report.result == None && pol.maxRetries >= 0 {
      assert ReachedAndSucceeds(pol, world, n - 1);
    }
    if k: nat :| ReachedAndSucceeds(pol, world, k) {
      assert !(k < n - 1);
      assert k == n - 1 || world.cancelled(n - 1) == None;
    }
  }

  /** Whatever an attempt's error is, an authentication error too, another attempt follows it unless it was the
      last one permitted or the wait after it was cancelled; no attempt follows a success. */
  lemma EveryErrorIsRetried<E>(pol: RetryPolicy, world: World<E>, report: RetryReport<E>, k: nat)
    requires Retried(pol, world, report) && k < report.attempts
    ensures k + 1 < report.attempts <==>
            world.attempt(k).Some? && k < pol.maxRetries && world.cancelled(k) == None
  {
  }

  // ---------------------------------------------------------------- backoff arithmetic

  /** The intended delay before jitter, in unbounded arithmetic. */
  function IdealDelay(pol: RetryPolicy, k: nat): int { Min(pol.baseDelay * Pow2(k), pol.maxDelay) }

  lemma UnjitteredExact(pol: RetryPolicy, k: nat)
    requires InRange(pol.baseDelay * Pow2(k))
    ensures Unjittered(pol, k) == IdealDelay(pol, k)
  {
    WrapMultiply(pol.baseDelay, Pow2(k));
  }

  /** With overflow or not, the product is taken modulo 2^64 into the range of an int64, and then capped. */
  lemma UnjitteredWraps(pol: RetryPolicy, k: nat) returns (q: int)
    ensures var product := pol.baseDelay * Pow2(k) + q * TWO_64;
      InRange(product) && Unjittered(pol, k) == if product > pol.maxDelay then pol.maxDelay else product
  {
    WrapMultiply(pol.baseDelay, Pow2(k));
    q := WrapQuotient(pol.baseDelay * Pow2(k));
  }

  lemma {:induction false} ProductGrows(base: int, j: nat, k: nat)
    requires base >= 0 && j <= k
    ensures 0 <= base * Pow2(j) <= base * Pow2(k)
  {
    if j < k {
      ProductGrows(base, j, k - 1);
      assert base * Pow2(k) == 2 * (base * Pow2(k - 1));
    }
  }

  /** Without overflow the delays before jitter are the ideal ones and never decrease. */
  lemma DelaysGrow(pol: RetryPolicy, j: nat, k: nat)
    requires pol.baseDelay >= 0 && j <= k && pol.baseDelay * Pow2(k) < TWO_63
    ensures Unjittered(pol, j) == IdealDelay(pol, j) <= IdealDelay(pol, k) == Unjittered(pol, k)
  {
    ProductGrows(pol.baseDelay, j, k);
    UnjitteredExact(pol, j);
    UnjitteredExact(pol, k);
  }

  lemma {:induction false} FirstOverflow(pol: RetryPolicy, n: nat) returns (k: nat)
    requires pol.baseDelay >= 0 && pol.baseDelay * Pow2(n) >= TWO_63
    ensures 1 <= k <= n && 0 <= pol.baseDelay * Pow2(k - 1) < TWO_63 <= pol.baseDelay * Pow2(k)
  {
    if pol.baseDelay * Pow2(n - 1) >= TWO_63 {
      k := FirstOverflow(pol, n - 1);
    } else {
      k := n;
      ProductGrows(pol.baseDelay, n - 1, n - 1);
    }
  }

  /** The first doubling past 2^63 gives a negative delay. */
  lemma OverflowIsNegative(pol: RetryPolicy, k: nat)
    requires k >= 1 && 0 <= pol.baseDelay * Pow2(k - 1) < TWO_63 <= pol.baseDelay * Pow2(k)
    ensures Unjittered(pol, k) < 0
  {
    var x := pol.baseDelay * Pow2(k - 1);
    assert pol.baseDelay * Pow2(k) == 2 * x;
    WrapMultiply(pol.baseDelay, Pow2(k));
    WrapShift(2 * x - TWO_64, 1);
  }

  /** The delays of attempts 0, ..., n never decrease if and only if the last product does not overflow. */
  lemma DelaysGrowIff(pol: RetryPolicy, n: nat)
    requires pol.baseDelay >= 0 && pol.maxDelay >= 0
    ensures (forall j: nat, k: nat :: j <= k <= n ==> Unjittered(pol, j) <= Unjittered(pol, k))
            <==> pol.baseDelay * Pow2(n) < TWO_63
  {
    if pol.baseDelay * Pow2(n) < TWO_63 {
      forall j: nat, k: nat | j <= k <= n
        ensures Unjittered(pol, j) <= Unjittered(pol, k)
      {
        ProductGrows(pol.baseDelay, k, n);
        DelaysGrow(pol, j, k);
      }
    } else {
      var k := FirstOverflow(pol, n);
      OverflowIsNegative(pol, k);
      UnjitteredExact(pol, k - 1);
      assert Unjittered(pol, k - 1) > Unjittered(pol, k);
    }
  }

  function IdealTotal(pol: RetryPolicy, n: nat): int
  {
    if n == 0 then 0 else IdealTotal(pol, n - 1) + IdealDelay(pol, n - 1)
  }

  /** How many of the first n ideal delays are still below the cap. */
  function Doublings(pol: RetryPolicy, n: nat): nat
  {
    if n == 0 then 0 else Doublings(pol, n - 1) + if pol.baseDelay * Pow2(n - 1) <= pol.maxDelay then 1 else 0
  }

  lemma {:induction false} DoublingsComeFirst(pol: RetryPolicy, n: nat)
    requires pol.baseDelay >= 0
    ensures Doublings(pol, n) <= n
    ensures Doublings(pol, n) < n ==> pol.baseDelay * Pow2(n) > pol.maxDelay
  {
    if n > 0 {
      DoublingsComeFirst(pol, n - 1);
      ProductGrows(pol.baseDelay, n - 1, n);
    }
  }

  /** A geometric series of d terms, then the cap up to the n-th term. */
  function CappedSeries(pol: RetryPolicy, d: nat, n: nat): int
  {
    pol.baseDelay * (Pow2(d) - 1) + (n - d) * pol.maxDelay
  }

  lemma CappedSeriesStep(pol: RetryPolicy, d: nat, n: nat)
    ensures CappedSeries(pol, 0, 0) == 0
    ensures CappedSeries(pol, d, n + 1) == CappedSeries(pol, d, n) + pol.maxDelay
    ensures CappedSeries(pol, n + 1, n + 1) == CappedSeries(pol, n, n) + pol.baseDelay * Pow2(n)
  {
  }

  /** The sum in closed form: a geometric series up to the cap, then the cap. */
  lemma {:induction false} IdealTotalClosedForm(pol: RetryPolicy, n: nat)
    requires pol.baseDelay >= 0
    ensures IdealTotal(pol, n) == CappedSeries(pol, Doublings(pol, n), n)
  {
    if n == 0 {
      CappedSeriesStep(pol, 0, 0);
    } else {
      IdealTotalClosedForm(pol, n - 1);
      DoublingsComeFirst(pol, n - 1);
      CappedSeriesStep(pol, Doublings(pol, n - 1), n - 1);
    }
  }

  lemma ScaledBounds(delay: int, jitter: real)
    requires 0.5 <= jitter < 1.5
    ensures delay >= 0 ==> 0.5 * delay as real <= Scaled(delay, jitter) <= 1.5 * delay as real
    ensures delay <= 0 ==> Scaled(delay, jitter) <= 0.0
  {
    var d, above, below := delay as real, jitter - 0.5, 1.5 - jitter;
    if delay >= 0 {
      assert d * above >= 0.0 && d * below >= 0.0;
    } else {
      assert d * jitter <= 0.0;
    }
  }

  lemma JitteredBounds(delay: int, jitter: real)
    requires 0.5 <= jitter < 1.5
    ensures delay >= 0 ==> 0.5 * delay as real - 1.0 < Slept(Jittered(delay, jitter)) as real <= 1.5 * delay as real
    ensures delay <= 0 ==> Slept(Jittered(delay, jitter)) == 0
  {
    ScaledBounds(delay, jitter);
  }

  /** One and a half times the cap for each of n waits. */
  function SleepCap(pol: RetryPolicy, n: nat): real { 1.5 * n as real * Max(0, pol.maxDelay) as real }

  lemma SleepCapStep(pol: RetryPolicy, n: nat)
    ensures SleepCap(pol, 0) == 0.0
    ensures SleepCap(pol, n + 1) == SleepCap(pol, n) + 1.5 * Max(0, pol.maxDelay) as real
  {
  }

  /** Whatever wraps around, n waits last at most 1.5 * n * MaxDelay. */
  lemma {:induction false} SleepUpperBound<E>(pol: RetryPolicy, world: World<E>, delays: seq<int>)
    requires world.Valid() && DelaysOf(pol, world, delays)
    ensures TotalSlept(delays) as real <= SleepCap(pol, |delays|)
  {
    if delays != [] {
      var n := |delays| - 1;
      SleepUpperBound(pol, world, delays[..n]);
      JitteredBounds(Unjittered(pol, n), world.jitter(n));
      SleepCapStep(pol, n);
    }
  }

  /** Without overflow n waits last between 0.5 and 1.5 times the ideal sum, less a nanosecond each for truncation. */
  lemma {:induction false} SleepBounds<E>(pol: RetryPolicy, world: World<E>, delays: seq<int>)
    requires world.Valid() && DelaysOf(pol, world, delays)
    requires pol.baseDelay >= 0 && pol.maxDelay >= 0
    requires |delays| > 0 ==> pol.baseDelay * Pow2(|delays| - 1) < TWO_63
    ensures var ideal := IdealTotal(pol, |delays|) as real;
      0.5 * ideal - |delays| as real <= TotalSlept(delays) as real <= 1.5 * ideal
  {
    if delays != [] {
      var n := |delays| - 1;
      if n > 0 {
        ProductGrows(pol.baseDelay, n - 1, n);
      }
      SleepBounds(pol, world, delays[..n]);
      DelaysGrow(pol, n, n);
      JitteredBounds(Unjittered(pol, n), world.jitter(n));
    }
  }

  /** A retry that fails on its last attempt has waited MaxRetries times, within the bounds above. */
  lemma ExhaustedRetrySleep<E>(pol: RetryPolicy, world: World<E>, report: RetryReport<E>)
    requires world.Valid() && Retried(pol, world, report)
    requires pol.maxRetries >= 0 && pol.baseDelay >= 0 && pol.maxDelay >= 0
    requires report.attempts == pol.maxRetries + 1
    ensures |report.delays| == pol.maxRetries
    ensures TotalSlept(report.delays) as real <= SleepCap(pol, pol.maxRetries)
    ensures pol.baseDelay * Pow2(Max(0, pol.maxRetries - 1)) < TWO_63 ==>
      var ideal := CappedSeries(pol, Doublings(pol, pol.maxRetries), pol.maxRetries);
      0.5 * ideal as real - pol.maxRetries as real <= TotalSlept(report.delays) as real <= 1.5 * ideal as real
  {
    SleepUpperBound(pol, world, report.delays);
    if pol.baseDelay * Pow2(Max(0, pol.maxRetries - 1)) < TWO_63 {
      SleepBounds(pol, world, report.delays);
      IdealTotalClosedForm(pol, pol.maxRetries);
    }
  }
}
