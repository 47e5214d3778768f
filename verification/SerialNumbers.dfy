/** Sixteen-bit serial numbers, ordered as in section 3.2 of RFC 1982. */
module SerialNumbers {
  import opened Words

  function ToInt16(n: U16): int { if n < 0x8000 then n else n - 0x1_0000 }

  predicate SequenceLess(a: U16, b: U16)
  {
    ToInt16(Low16(a - b)) < 0
  }

  /** On numbers that lie in one half-window of each other the serial order is the order of the
      unbounded numbers they abbreviate, across any number of wraps. */
  lemma SequenceLessIsOrder(x: int, y: int)
    requires -0x8000 <= x - y < 0x8000
    ensures SequenceLess(Low16(x), Low16(y)) <==> x < y
  {
    LowDifference(x, y);
    if x < y {
      assert (x - y) % 0x1_0000 == x - y + 0x1_0000;
    }
  }

  lemma LowDifference(x: int, y: int)
    ensures Low16(Low16(x) - Low16(y)) == Low16(x - y)
  {
    var p, q := x / 0x1_0000, y / 0x1_0000;
    assert Low16(x) - Low16(y) == (x - y) - 0x1_0000 * (p - q);
  }

  /** Two unbounded numbers closer than a full period are equal once their low halves are. */
  lemma LowInjective(x: int, y: int)
    requires Abs(x - y) < 0x1_0000
    requires Low16(x) == Low16(y)
    ensures x == y
  {
  }

  lemma LowSum(x: int, y: int)
    ensures Low16(Low16(x) + y) == Low16(x + y)
  {
  }
}
