/** Fixed-width unsigned words as bounded integers, with the wrap-around written out. */
module Words {

  type Byte = n: int | 0 <= n < 0x100
  type U16 = n: int | 0 <= n < 0x1_0000
  type U32 = n: int | 0 <= n < 0x1_0000_0000
  type U64 = n: int | 0 <= n < 0x1_0000_0000_0000_0000

  datatype Option<+T> = None | Some(value: T)

  function Low16(x: int): U16 { x % 0x1_0000 }

  function Low32(x: int): U32 { x % 0x1_0000_0000 }

  function Low64(x: int): U64 { x % 0x1_0000_0000_0000_0000 }

  function Abs(x: int): nat { if x < 0 then -x else x }

  function Min(a: int, b: int): int { if a < b then a else b }

  function Clamp(v: int, lo: int, hi: int): int
  {
    if v < lo then lo else if hi < v then hi else v
  }

  lemma ProductGrows(a: nat, b: nat, w: nat)
    requires a <= b
    ensures a * w <= b * w
  {
  }

  lemma RowAfter(y: nat, w: nat)
    ensures (y + 1) * w == y * w + w
  {
  }

  lemma QuotientRemainder(i: nat, w: nat)
    requires w > 0
    ensures i == (i / w) * w + i % w && 0 <= i % w < w && 0 <= i / w
  {
  }

  lemma QuotientIsUnique(i: nat, w: nat, q: nat, r: nat)
    requires r < w && i == q * w + r
    ensures i / w == q && i % w == r
  {
    QuotientRemainder(i, w);
    var q' := i / w;
    if q' < q {
      RowAfter(q', w);
      ProductGrows(q' + 1, q, w);
    } else if q < q' {
      RowAfter(q, w);
      ProductGrows(q + 1, q', w);
    }
  }

  function Pow2(k: nat): (r: nat)
    ensures r > 0
  {
    if k == 0 then 1 else 2 * Pow2(k - 1)
  }

  lemma Regrouped(k: nat, m: nat, h: nat, q: nat)
    ensures (h * k + q) * m == h * (k * m) + q * m
  {
  }

  /** Reducing by a multiple first changes no remainder. */
  lemma RemainderOfRemainder(x: nat, m: nat, k: nat)
    requires 0 < k * m && 0 < m
    ensures (x % (k * m)) % m == x % m
  {
    var h, l := x / (k * m), x % (k * m);
    QuotientRemainder(x, k * m);
    QuotientRemainder(l, m);
    Regrouped(k, m, h, l / m);
    QuotientIsUnique(x, m, h * k + l / m, l % m);
  }

  lemma Assoc<T>(a: seq<T>, b: seq<T>, c: seq<T>)
    ensures (a + b) + c == a + (b + c)
  {
  }

  lemma AppendLast<T>(a: seq<T>, b: seq<T>)
    requires b != []
    ensures (a + b)[..|a + b| - 1] == a + b[..|b| - 1]
    ensures (a + b)[|a + b| - 1] == b[|b| - 1]
  {
  }

  lemma Peel<T>(a: seq<T>, t: seq<T>)
    ensures (a + t)[..|a|] == a && (a + t)[|a|..] == t
  {
  }

  lemma SplitAt<T>(a: seq<T>, i: nat, j: nat)
    requires i <= j <= |a|
    ensures a[i..] == a[i..j] + a[j..]
  {
  }

  lemma SliceSnoc<T>(a: seq<T>, low: nat, n: nat)
    requires low + n < |a|
    ensures a[low..low + n + 1] == a[low..low + n] + [a[low + n]]
  {
  }

  ghost predicate Increasing(xs: seq<int>)
  {
    forall i, j :: 0 <= i < j < |xs| ==> xs[i] < xs[j]
  }
}
