/** The reconnect schedule of package transport, with durations as int64 nanoseconds. */
module Backoff {
  import opened Int64

  const SECOND: int := 1_000_000_000
  const DEFAULT_MAX: int := 60 * SECOND

  function NextCur(min: int, max: int, cur: int): int {
    if cur == 0 then min
    else
      var doubled := Wrap64(2 * cur);
      if doubled > max then max else doubled
  }

  /** What the k-th call of Next since the last reset returns; 0 before the first. */
  function Delay(min: int, max: int, k: nat): int {
    if k == 0 then 0 else NextCur(min, max, Delay(min, max, k - 1))
  }

  function NewMin(min: int): int {
    if min <= 0 then SECOND else min
  }

  function NewMax(min: int, max: int): int {
    if max <= 0 || max < NewMin(min) then DEFAULT_MAX else max
  }

  class Backoff {
    const Min: Int64
    const Max: Int64
    var cur: int
    // calls of Next since the last reset
    ghost var calls: nat

    ghost predicate Valid()
      reads this
    {
      cur == Delay(Min, Max, calls)
    }

    constructor (min: Int64, max: Int64)
      ensures Valid() && calls == 0
      ensures Min == NewMin(min) && Max == NewMax(min, max)
      // a second for a minimum that is not positive; a maximum not below the minimum is kept
      ensures Min == if min <= 0 then 1_000_000_000 else min
      ensures Max == if max >= Min then max else 60_000_000_000
    {
      var lo := if min <= 0 then SECOND else min;
      var hi := if max <= 0 || max < lo then 60 * SECOND else max;
      Min, Max := lo, hi;
      cur, calls := 0, 0;
    }

    method Next() returns (d: int)
      requires Valid()
      modifies this
      ensures Valid() && calls == old(calls) + 1
      ensures d == Delay(Min, Max, calls) && cur == d
      ensures calls == 1 ==> d == Min
      ensures 0 < old(cur) && 2 * old(cur) <= MAX_INT64 ==> d == if 2 * old(cur) <= Max then 2 * old(cur) else Max
    {
      calls := calls + 1;
      if cur == 0 {
        cur := Min;
        return cur;
      }
      cur := Wrap64(cur * 2);
      if cur > Max {
        cur := Max;
      }
      return cur;
    }

    method Reset()
      modifies this
      ensures Valid() && calls == 0 && cur == 0
    {
      cur, calls := 0, 0;
    }
  }

  // ---- closed form ---------------------------------------------------------

  function Pow2(n: nat): (p: int)
    ensures p >= 1
  {
    if n == 0 then 1 else 2 * Pow2(n - 1)
  }

  function Lesser(a: int, b: int): int {
    if a < b then a else b
  }

  function Closed(min: int, max: int, k: nat): int
    requires k > 0
  {
    Lesser(min * Pow2(k - 1), max)
  }

  lemma {:induction false} DelayIsClosed(min: int, max: int, k: nat)
    requires 0 < min <= max && 2 * max <= MAX_INT64 && k > 0
    ensures Delay(min, max, k) == Closed(min, max, k)
    ensures 0 < Delay(min, max, k) <= max
  {
    if k == 1 {
      assert Delay(min, max, 0) == 0;
    } else {
      DelayIsClosed(min, max, k - 1);
      var p := Pow2(k - 2);
      assert Pow2(k - 1) == 2 * p;
      assert min * (2 * p) == 2 * (min * p);
      assert min * p >= min by {
        assert min * p - min == min * (p - 1);
      }
    }
  }

  lemma TwiceTimes(min: int, n: nat)
    ensures min * Pow2(n + 1) == (2 * min) * Pow2(n)
  {
    var p := Pow2(n);
    assert Pow2(n + 1) == 2 * p;
    assert min * (2 * p) == (2 * min) * p;
  }

  /** While the doublings stay below max they are exact; the first call that reaches max. */
  function Doublings(min: int, max: int): (n: nat)
    requires 0 < min
    ensures min * Pow2(n) >= max
    ensures n > 0 ==> min * Pow2(n - 1) < max
    decreases max - min
  {
    if min >= max then 0
    else
      var n := Doublings(2 * min, max);
      TwiceTimes(min, n);
      assert n > 0 ==> min * Pow2(n) == 2 * min * Pow2(n - 1) by {
        if n > 0 {
          TwiceTimes(min, n - 1);
        }
      }
      n + 1
  }

  lemma {:induction false} PowGrows(min: int, j: nat, k: nat)
    requires 0 < min && j <= k
    ensures min * Pow2(j) <= min * Pow2(k)
    decreases k - j
  {
    if j < k {
      PowGrows(min, j, k - 1);
      assert min * Pow2(k) == 2 * (min * Pow2(k - 1));
      assert min * Pow2(j) > 0;
    }
  }

  /** The schedule sits at max exactly from the call after the last needed doubling on, and that many
      doublings is the logarithm of max over min. */
  lemma AtMaxIff(min: int, max: int, k: nat)
    requires 0 < min <= max && 2 * max <= MAX_INT64 && k > 0
    ensures Delay(min, max, k) == max <==> k > Doublings(min, max)
    ensures Doublings(min, max) > 0 ==> min * Pow2(Doublings(min, max) - 1) < max
  {
    DelayIsClosed(min, max, k);
    var n := Doublings(min, max);
    if k > n {
      PowGrows(min, n, k - 1);
    } else {
      PowGrows(min, k - 1, n - 1);
    }
  }

  /** The documented schedule is what the code returns, for every call, exactly when twice the maximum
      is still an int64. */
  lemma ScheduleIffFits(min: int, max: int)
    requires 0 < min <= max <= MAX_INT64
    ensures 2 * max <= MAX_INT64
            <==> forall k: nat :: k > 0 ==> Delay(min, max, k) == Closed(min, max, k)
  {
    var n := Doublings(min, max);
    PowGrows(min, n, n + 1);
    assert Closed(min, max, n + 1) == max && Closed(min, max, n + 2) == max;
    // at max the next doubling may wrap to a negative delay
    assert Delay(min, max, n + 2) == NextCur(min, max, Delay(min, max, n + 1));
    if 2 * max <= MAX_INT64 {
      forall k: nat | k > 0 ensures Delay(min, max, k) == Closed(min, max, k) {
        DelayIsClosed(min, max, k);
      }
    }
  }

  /** The delays never decrease and never exceed max. */
  lemma NeverDecreases(min: int, max: int, k: nat)
    requires 0 < min <= max && 2 * max <= MAX_INT64 && k > 0
    ensures Delay(min, max, k) <= Delay(min, max, k + 1) <= max
  {
    DelayIsClosed(min, max, k);
    DelayIsClosed(min, max, k + 1);
    PowGrows(min, k - 1, k);
  }

  predicate RisesAt(min: int, max: int, k: nat) {
    Delay(min, max, k) <= Delay(min, max, k + 1) <= max
  }

  /** A schedule that has not fallen gains at least one nanosecond with each call until it reaches max. */
  lemma {:induction false} RisingGains(min: int, max: int, k: nat)
    requires 0 < min <= max <= MAX_INT64 && k > 0
    requires forall j: nat :: j < k ==> RisesAt(min, max, j)
    ensures Lesser(k, max) <= Delay(min, max, k) <= max
  {
    assert RisesAt(min, max, k - 1);
    if k > 1 {
      RisingGains(min, max, k - 1);
    } else {
      assert Delay(min, max, 0) == 0;
    }
  }

  /** A maximum of more than half an int64 is reached, and then the doubling wraps. */
  lemma WideFalls(min: int, max: int)
    requires 0 < min <= max <= MAX_INT64 && 2 * max > MAX_INT64
    ensures exists k: nat :: !RisesAt(min, max, k)
  {
    if forall k: nat :: k < max ==> RisesAt(min, max, k) {
      RisingGains(min, max, max);
      assert Delay(min, max, max + 1) == Wrap64(2 * max) < 0;
      assert !RisesAt(min, max, max);
    }
  }

  /** What NewBackoff makes of its arguments is a rising schedule exactly when it does not have to
      replace a maximum below a minimum of more than a minute, and the maximum can be doubled. */
  lemma NewBackoffRisesIff(min: Int64, max: Int64)
    ensures (forall k: nat :: RisesAt(NewMin(min), NewMax(min, max), k))
            <==> !(min > 60_000_000_000 && max < min) && (max < min || 2 * max <= MAX_INT64)
  {
    var lo, hi := NewMin(min), NewMax(min, max);
    assert Delay(lo, hi, 0) == 0 && Delay(lo, hi, 1) == lo;
    if min > DEFAULT_MAX && max < min {
      assert !RisesAt(lo, hi, 0);
    } else if 2 * hi > MAX_INT64 {
      WideFalls(lo, hi);
    } else {
      forall k: nat ensures RisesAt(lo, hi, k) {
        if k > 0 {
          NeverDecreases(lo, hi, k);
        }
      }
    }
  }
}
