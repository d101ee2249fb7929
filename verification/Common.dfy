/** Definitions shared by the models of the components. */
module Common {
  datatype Option<+T> = None | Some(value: T)

  function Min(x: int, y: int): int { if x < y then x else y }

  function Max(x: int, y: int): int { if x < y then y else x }

  function MinReal(x: real, y: real): real { if x < y then x else y }

  /** A map without one key: Go's delete. */
  function Drop<K, V>(m: map<K, V>, key: K): (r: map<K, V>)
    ensures forall k :: k in r ==> k in m && k != key && r[k] == m[k]
    ensures forall k :: k in m && k != key ==> k in r
    ensures |r| == if key in m then |m| - 1 else |m|
  {
    var r := m - {key};
    assert r.Keys == m.Keys - {key};
    assert |r| == |r.Keys|;
    r
  }

  /** The total weight of a sequence of items, for counting those in a given condition. */
  function Sum<T>(items: seq<T>, weight: T -> nat): nat
  {
    if items == [] then 0 else Sum(items[..|items| - 1], weight) + weight(items[|items| - 1])
  }

  lemma {:induction false} ReplaceSum<T>(items: seq<T>, weight: T -> nat, i: nat, item: T)
    requires i < |items|
    ensures Sum(items[i := item], weight) + weight(items[i]) == Sum(items, weight) + weight(item)
  {
    var n := |items| - 1;
    if i == n {
      assert items[i := item][..n] == items[..n];
    } else {
      ReplaceSum(items[..n], weight, i, item);
      assert items[i := item][..n] == items[..n][i := item];
    }
  }

  lemma AppendSum<T>(items: seq<T>, weight: T -> nat, item: T)
    ensures Sum(items + [item], weight) == Sum(items, weight) + weight(item)
  {
    assert (items + [item])[..|items|] == items;
  }

  /** A sum is at least the weight of any item, or of any two. */
  lemma {:induction false} SumAtLeast<T>(items: seq<T>, weight: T -> nat, i: nat)
    requires i < |items|
    ensures weight(items[i]) <= Sum(items, weight)
    ensures forall j :: 0 <= j < |items| && j != i ==> weight(items[i]) + weight(items[j]) <= Sum(items, weight)
  {
    var n := |items| - 1;
    if i < n {
      SumAtLeast(items[..n], weight, i);
    } else {
      forall j | 0 <= j < n
        ensures weight(items[j]) <= Sum(items[..n], weight)
      {
        SumAtLeast(items[..n], weight, j);
      }
    }
  }

  lemma {:induction false} PositiveSum<T>(items: seq<T>, weight: T -> nat) returns (i: nat)
    requires Sum(items, weight) > 0
    ensures i < |items| && weight(items[i]) > 0
  {
    var n := |items| - 1;
    if weight(items[n]) > 0 {
      i := n;
    } else {
      i := PositiveSum(items[..n], weight);
    }
  }
}

/** Two's-complement 64-bit arithmetic, the width of Go's int64 and time.Duration. */
module Int64 {
  const TWO_63: int := 0x8000_0000_0000_0000
  const TWO_64: int := 0x1_0000_0000_0000_0000

  predicate InRange(x: int) { -TWO_63 <= x < TWO_63 }

  /** The int64 congruent to x modulo 2^64. */
  function Wrap(x: int): (r: int)
    ensures InRange(r)
    ensures InRange(x) ==> r == x
  {
    (x + TWO_63) % TWO_64 - TWO_63
  }

  lemma WrapShift(x: int, k: int)
    ensures Wrap(x + k * TWO_64) == Wrap(x)
  {
    var y := x + TWO_63;
    assert y + k * TWO_64 == (y / TWO_64 + k) * TWO_64 + y % TWO_64;
  }

  /** Every int64 congruent to x is the wrapped x. */
  lemma WrapQuotient(x: int) returns (k: int)
    ensures Wrap(x) == x + k * TWO_64
  {
    k := -((x + TWO_63) / TWO_64);
  }

  /** Wrapping early or late makes no difference to a sum. */
  lemma WrapAdd(x: int, y: int)
    ensures Wrap(Wrap(x) + y) == Wrap(x + y)
  {
    var k := WrapQuotient(x);
    WrapShift(x + y, k);
  }

  /** Wrapping early or late makes no difference to a product. */
  lemma WrapMultiply(x: int, y: int)
    ensures Wrap(x * Wrap(y)) == Wrap(x * y)
  {
    var k := WrapQuotient(y);
    assert x * (y + k * TWO_64) == x * y + (x * k) * TWO_64;
    WrapShift(x * y, x * k);
  }
}
