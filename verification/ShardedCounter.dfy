/** The sharded hot-key counter: one map entry per (base, shard), summed on reading. */
module ShardedCounting {
  import opened Int64

  // ---------------------------------------------------------------- decimal printing

  predicate IsDigit(c: char) { '0' <= c <= '9' }

  predicate AllDigits(s: string) { forall i :: 0 <= i < |s| ==> IsDigit(s[i]) }

  function DigitChar(d: nat): (c: char)
    requires d < 10
    ensures IsDigit(c)
  {
    ('0' as int + d) as char
  }

  /** The usual reading of a decimal numeral; the partner of the printer. */
  function Parse(s: string): int
  {
    if s == "" then 0 else 10 * Parse(s[..|s| - 1]) + (s[|s| - 1] as int - '0' as int)
  }

  /** Digits of a positive number, most significant first; empty for zero. */
  function Digits(n: nat): string
  {
    if n == 0 then "" else Digits(n / 10) + [DigitChar(n % 10)]
  }

  /** What `itoa` returns: no digits at all for a negative value. */
  function Decimal(value: int): string
  {
    if value == 0 then "0" else if value < 0 then "" else Digits(value)
  }

  method Itoa(value: int) returns (s: string)
    ensures s == Decimal(value)
    ensures value < 0 ==> s == ""
  {
    if value == 0 {
      return "0";
    }
    var buf, rest := "", value;
    while rest > 0
      invariant value < 0 ==> rest == value && buf == ""
      invariant value > 0 ==> rest >= 0 && Digits(value) == Digits(rest) + buf
      decreases rest
    {
      var digit := rest % 10;
      buf := [DigitChar(digit)] + buf;
      rest := rest / 10;
    }
    return buf;
  }

  lemma {:induction false} DigitsRoundTrip(n: nat)
    ensures AllDigits(Digits(n)) && Parse(Digits(n)) == n
    ensures n > 0 ==> Digits(n) != "" && Digits(n)[0] != '0'
  {
    if n > 0 {
      DigitsRoundTrip(n / 10);
      assert Digits(n)[..|Digits(n)| - 1] == Digits(n / 10);
    }
  }

  /** Printing a non-negative number gives a numeral without leading zeros that reads back as the number. */
  lemma ItoaRoundTrip(value: int)
    requires value >= 0
    ensures Decimal(value) != "" && AllDigits(Decimal(value))
    ensures Decimal(value)[0] == '0' ==> Decimal(value) == "0"
    ensures Parse(Decimal(value)) == value
  {
    DigitsRoundTrip(value);
    assert Parse("0") == 0 by {
      assert "0"[..0] == "";
    }
  }

  // ---------------------------------------------------------------- composite keys

  function ShardKey(base: string, shard: int): string
  {
    base + "#" + Decimal(shard)
  }

  /** Splitting at the last '#' is unambiguous when what follows it are digits. */
  lemma SplitAtLastHash(base1: string, digits1: string, base2: string, digits2: string)
    requires AllDigits(digits1) && AllDigits(digits2)
    requires base1 + "#" + digits1 == base2 + "#" + digits2
    ensures base1 == base2 && digits1 == digits2
  {
    var s1, s2 := base1 + "#" + digits1, base2 + "#" + digits2;
    assert s1[|base1|] == '#' && s2[|base2|] == '#';
    assert forall i :: |base1| < i < |s1| ==> IsDigit(s1[i]);
    assert forall i :: |base2| < i < |s2| ==> IsDigit(s2[i]);
    assert |base1| == |base2|;
    assert base1 == s1[..|base1|] == s2[..|base2|] == base2;
    assert digits1 == s1[|base1| + 1..] == s2[|base2| + 1..] == digits2;
  }

  /** Two counters never share a map key, whatever '#' characters their bases hold. */
  lemma ShardKeyInjective(base1: string, shard1: int, base2: string, shard2: int)
    requires shard1 >= 0 && shard2 >= 0
    ensures ShardKey(base1, shard1) == ShardKey(base2, shard2) <==> base1 == base2 && shard1 == shard2
  {
    if ShardKey(base1, shard1) == ShardKey(base2, shard2) {
      ItoaRoundTrip(shard1);
      ItoaRoundTrip(shard2);
      SplitAtLastHash(base1, Decimal(shard1), base2, Decimal(shard2));
    }
  }

  // ---------------------------------------------------------------- the counter

  type Counts = map<string, int>

  /** Go's map indexing: the zero value for a missing key. */
  function Lookup(counts: Counts, key: string): int
  {
    if key in counts then counts[key] else 0
  }

  function Bump(counts: Counts, base: string, shard: int): Counts
  {
    var key := ShardKey(base, shard);
    counts[key := Wrap(Lookup(counts, key) + 1)]
  }

  /** By how much an Inc changes its entry: one, or 1 - 2^64 when the entry wraps. */
  function Step(counts: Counts, base: string, shard: int): int
  {
    var term := Lookup(counts, ShardKey(base, shard));
    Wrap(term + 1) - term
  }

  /** The exact sum of the first n shards of a base, before it is cut to 64 bits. */
  function SumShards(counts: Counts, base: string, n: nat): int
  {
    if n == 0 then 0 else SumShards(counts, base, n - 1) + Lookup(counts, ShardKey(base, n - 1))
  }

  class ShardedCounter {
    const shards: int
    var counts: Counts
    /** The calls of Inc so far. */
    ghost var trace: seq<Hit>

    ghost predicate Valid()
      reads this
    {
      counts == CountsAfter(trace) && DrawnFrom(trace, shards)
    }

    constructor (shards: int)
      ensures Valid() && this.shards == shards && counts == map[] && trace == []
    {
      this.shards := shards;
      counts, trace := map[], [];
    }

    /** `shardIndex` is the value drawn by rand.Intn, which panics when there are no shards. */
    method Inc(base: string, shardIndex: int)
      requires Valid() && 0 <= shardIndex < shards
      modifies this
      ensures Valid() && trace == old(trace) + [Hit(base, shardIndex)]
      ensures counts == Bump(old(counts), base, shardIndex)
    {
      var suffix := Itoa(shardIndex);
      var key := base + "#" + suffix;
      counts := counts[key := Wrap(Lookup(counts, key) + 1)];
      trace := trace + [Hit(base, shardIndex)];
      assert trace[..|trace| - 1] == old(trace);
    }

    /** The number of calls of Inc for the base, as an int64. */
    method Get(base: string) returns (sum: int)
      requires Valid()
      ensures sum == Wrap(Hits(trace, base))
      ensures Hits(trace, base) < TWO_63 ==> sum == Hits(trace, base)
    {
      ghost var n := if shards < 0 then 0 else shards;
      sum := 0;
      var shardNum := 0;
      while shardNum < shards
        invariant 0 <= shardNum && (shardNum <= shards || shardNum == 0)
        invariant sum == Wrap(SumShards(counts, base, shardNum))
      {
        var suffix := Itoa(shardNum);
        WrapAdd(SumShards(counts, base, shardNum), Lookup(counts, ShardKey(base, shardNum)));
        sum := Wrap(sum + Lookup(counts, base + "#" + suffix));
        shardNum := shardNum + 1;
      }
      assert DrawnFrom(trace, n);
      ShardedRefinesPlain(trace, n, base);
    }
  }

  // ---------------------------------------------------------------- refinement of a plain counter

  /** One call of Inc with the shard it happened to draw. */
  datatype Hit = Hit(base: string, shard: int)

  predicate DrawnFrom(trace: seq<Hit>, shards: int)
  {
    forall i :: 0 <= i < |trace| ==> 0 <= trace[i].shard < shards
  }

  /** The map after a sequence of Incs on a new counter. */
  function CountsAfter(trace: seq<Hit>): Counts
  {
    if trace == [] then map[]
    else
      var last := trace[|trace| - 1];
      Bump(CountsAfter(trace[..|trace| - 1]), last.base, last.shard)
  }

  /** The plain counter: how many of the calls named this base. */
  function Hits(trace: seq<Hit>, base: string): nat
  {
    if trace == [] then 0
    else Hits(trace[..|trace| - 1], base) + if trace[|trace| - 1].base == base then 1 else 0
  }

  lemma BumpLookup(counts: Counts, base: string, shard: int, other: string, i: nat)
    requires shard >= 0
    ensures Lookup(Bump(counts, base, shard), ShardKey(other, i))
         == if base == other && shard == i then Wrap(Lookup(counts, ShardKey(other, i)) + 1)
            else Lookup(counts, ShardKey(other, i))
  {
    ShardKeyInjective(base, shard, other, i);
  }

  /** An Inc changes the sum of its own base, if its shard is among those summed, and no other. */
  lemma {:induction false} BumpSum(counts: Counts, base: string, shard: int, other: string, n: nat)
    requires shard >= 0
    ensures SumShards(Bump(counts, base, shard), other, n)
         == SumShards(counts, other, n) + if base == other && shard < n then Step(counts, base, shard) else 0
  {
    if n > 0 {
      BumpSum(counts, base, shard, other, n - 1);
      BumpLookup(counts, base, shard, other, n - 1);
    }
  }

  lemma WrapStep(sum: int, term: int, hits: int)
    requires Wrap(sum) == Wrap(hits)
    ensures Wrap(sum + (Wrap(term + 1) - term)) == Wrap(hits + 1)
  {
    WrapAdd(term + 1, sum - term);
    WrapAdd(sum, 1);
    WrapAdd(hits, 1);
  }

  /** Whatever shards the calls draw, the sum read for a base is the number of its Incs as an int64. */
  lemma {:induction false} ShardedRefinesPlain(trace: seq<Hit>, shards: nat, base: string)
    requires DrawnFrom(trace, shards)
    ensures Wrap(SumShards(CountsAfter(trace), base, shards)) == Wrap(Hits(trace, base))
    ensures Hits(trace, base) < TWO_63 ==> Wrap(SumShards(CountsAfter(trace), base, shards)) == Hits(trace, base)
  {
    if trace == [] {
      EmptySum(base, shards);
    } else {
      var rest, last := trace[..|trace| - 1], trace[|trace| - 1];
      assert DrawnFrom(rest, shards);
      ShardedRefinesPlain(rest, shards, base);
      var counts := CountsAfter(rest);
      BumpSum(counts, last.base, last.shard, base, shards);
      if last.base == base {
        WrapStep(SumShards(counts, base, shards), Lookup(counts, ShardKey(base, last.shard)), Hits(rest, base));
      }
    }
  }

  lemma {:induction false} EmptySum(base: string, n: nat)
    ensures SumShards(map[], base, n) == 0
  {
    if n > 0 {
      EmptySum(base, n - 1);
    }
  }
}
