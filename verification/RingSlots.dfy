/** Slots of a power-of-two ring indexed by wrapping sixty-four-bit counters. */
module RingSlots {
  import opened Words

  const PERIOD := 0x1_0000_0000_0000_0000

  /** A capacity the counters can be masked by: a power of two within a size_t. */
  ghost predicate Capacity(cap: nat)
  {
    exists k: nat :: k < 64 && cap == Pow2(k)
  }

  lemma {:induction false} Pow2Splits(k: nat, n: nat)
    requires k <= n
    ensures Pow2(n) == Pow2(n - k) * Pow2(k)
    decreases n - k
  {
    if k == n {
    } else {
      Pow2Splits(k, n - 1);
    }
  }

  lemma Pow2Period()
    ensures Pow2(64) == PERIOD && Pow2(63) < PERIOD
  {
    assert Pow2(8) == 0x100;
    assert Pow2(16) == 0x1_0000;
    assert Pow2(24) == 0x100_0000;
    assert Pow2(32) == 0x1_0000_0000;
    assert Pow2(40) == 0x100_0000_0000;
    assert Pow2(48) == 0x1_0000_0000_0000;
    assert Pow2(56) == 0x100_0000_0000_0000;
    assert Pow2(64) == PERIOD && Pow2(63) == 0x8000_0000_0000_0000;
  }

  lemma {:induction false} Pow2Grows(k: nat, n: nat)
    requires k <= n
    ensures Pow2(k) <= Pow2(n)
    decreases n - k
  {
    if k < n {
      Pow2Grows(k, n - 1);
    }
  }

  /** Masking a wrapped counter picks the slot of the unbounded count it abbreviates. */
  lemma MaskWrapped(cap: nat, n: nat)
    requires Capacity(cap)
    ensures 0 < cap < PERIOD && Low64(n) % cap == n % cap
  {
    hide Pow2;
    var k: nat :| k < 64 && cap == Pow2(k);
    Pow2Splits(k, 64);
    Pow2Period();
    Pow2Grows(k, 63);
    RemainderOfRemainder(n, cap, Pow2(64 - k));
  }

  /** Counts less than a capacity apart use different slots. */
  lemma SlotsDiffer(cap: nat, a: nat, b: nat)
    requires 0 < b - a < cap
    ensures a % cap != b % cap
  {
    QuotientRemainder(a, cap);
    QuotientRemainder(b, cap);
    var p, q := a / cap, b / cap;
    if q <= p {
      ProductGrows(q, p, cap);
    } else {
      ProductGrows(p + 1, q, cap);
      RowAfter(p, cap);
    }
  }

  /** The entries numbered low to high of a history sit in their slots. */
  ghost predicate Holds<T>(cap: nat, slots: seq<T>, history: seq<T>, low: nat, high: nat)
    requires 0 < cap == |slots|
  {
    high <= |history| && forall i :: low <= i < high ==> slots[i % cap] == history[i]
  }

  lemma HoldsFewer<T>(cap: nat, slots: seq<T>, history: seq<T>, low: nat, next: nat, high: nat)
    requires 0 < cap == |slots| && Holds(cap, slots, history, low, high) && low <= next
    ensures Holds(cap, slots, history, next, high)
  {
  }

  lemma WriteKeeps<T>(cap: nat, slots: seq<T>, history: seq<T>, low: nat, high: nat, n: nat, v: T)
    requires 0 < cap == |slots| && Holds(cap, slots, history, low, high)
    requires high <= n < low + cap
    ensures Holds(cap, slots[n % cap := v], history, low, high)
  {
    forall i | low <= i < high ensures slots[n % cap := v][i % cap] == history[i] {
      SlotsDiffer(cap, i, n);
    }
  }

  lemma AppendHolds<T>(cap: nat, slots: seq<T>, history: seq<T>, low: nat, v: T)
    requires 0 < cap == |slots| && low <= |history| < low + cap
    requires Holds(cap, slots, history, low, |history|)
    ensures Holds(cap, slots[|history| % cap := v], history + [v], low, |history| + 1)
  {
    WriteKeeps(cap, slots, history, low, |history|, |history|, v);
  }

  /** The counters' wrapped difference is the true difference. */
  lemma WrappedDifference(n: nat, m: nat)
    requires m <= n < m + PERIOD
    ensures Low64(Low64(n) - Low64(m)) == n - m
  {
  }

  lemma WrappedSum(n: nat, d: nat)
    ensures Low64(Low64(n) + d) == Low64(n + d)
  {
  }
}
