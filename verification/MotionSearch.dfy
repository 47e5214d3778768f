/** Block matching between two luma planes: sums of absolute differences and the three-step search. */
module MotionSearch {
  import opened Words
  import opened VideoPlanes

  const BLOCK_SIZE := 16
  const INITIAL_STEP := 4

  datatype MotionVector = MotionVector(dx: int, dy: int)

  const ZERO := MotionVector(0, 0)

  /** Two luma planes of one size. */
  datatype Pair = Pair(cur: seq<Byte>, ref: seq<Byte>, w: nat, h: nat)

  predicate Sized(p: Pair) { 0 < p.w && 0 < p.h && |p.cur| == |p.ref| == p.w * p.h }

  datatype Block = Block(x: nat, y: nat, bw: nat, bh: nat)

  predicate Inside(p: Pair, b: Block)
  {
    b.x + b.bw <= p.w && b.y + b.bh <= p.h && b.bw <= BLOCK_SIZE && b.bh <= BLOCK_SIZE
  }

  // ---- sums of absolute differences ----

  function Difference(p: Pair, x: nat, y: nat, d: MotionVector): (r: nat)
    requires Sized(p) && x < p.w && y < p.h
    ensures r <= 255
    ensures r == 0 <==> Pixel(p.cur, p.w, p.h, x, y) == SampleDisplaced(p.ref, p.w, p.h, x, y, d.dx, d.dy)
  {
    Abs(Pixel(p.cur, p.w, p.h, x, y) - SampleDisplaced(p.ref, p.w, p.h, x, y, d.dx, d.dy))
  }

  /** The difference at a position counted from the block's corner. */
  function BlockDifference(p: Pair, b: Block, d: MotionVector, x: nat, y: nat): (r: nat)
    requires Sized(p) && Inside(p, b) && x < b.bw && y < b.bh
    ensures r <= 255
  {
    Difference(p, b.x + x, b.y + y, d)
  }

  /** The first n pixels of a block's row. */
  function RowSad(p: Pair, b: Block, d: MotionVector, row: nat, n: nat): (sad: nat)
    requires Sized(p) && Inside(p, b) && row < b.bh && n <= b.bw
    ensures sad <= 255 * n
  {
    if n == 0 then 0 else RowSad(p, b, d, row, n - 1) + BlockDifference(p, b, d, n - 1, row)
  }

  /** The first n rows of a block. */
  function RowsSad(p: Pair, b: Block, d: MotionVector, n: nat): (sad: nat)
    requires Sized(p) && Inside(p, b) && n <= b.bh
    ensures sad <= 255 * BLOCK_SIZE * n
  {
    if n == 0 then 0 else RowsSad(p, b, d, n - 1) + RowSad(p, b, d, n - 1, b.bw)
  }

  function Sad(p: Pair, b: Block, d: MotionVector): (sad: nat)
    requires Sized(p) && Inside(p, b)
    ensures sad <= 65280
  {
    RowsSad(p, b, d, b.bh)
  }

  /** The block is, pixel for pixel, what the displaced read fetches. */
  ghost predicate Matches(p: Pair, b: Block, d: MotionVector, rows: nat)
    requires Sized(p) && Inside(p, b) && rows <= b.bh
  {
    forall x, y :: 0 <= x < b.bw && 0 <= y < rows ==> BlockDifference(p, b, d, x, y) == 0
  }

  lemma {:induction false} RowSadZeroIff(p: Pair, b: Block, d: MotionVector, row: nat, n: nat)
    requires Sized(p) && Inside(p, b) && row < b.bh && n <= b.bw
    ensures RowSad(p, b, d, row, n) == 0 <==> forall x :: 0 <= x < n ==> BlockDifference(p, b, d, x, row) == 0
  {
    hide Sized, BlockDifference;
    if n == 0 {
    } else {
      RowSadZeroIff(p, b, d, row, n - 1);
    }
  }

  lemma {:induction false} RowsSadZeroIff(p: Pair, b: Block, d: MotionVector, n: nat)
    requires Sized(p) && Inside(p, b) && n <= b.bh
    ensures RowsSad(p, b, d, n) == 0 <==> Matches(p, b, d, n)
  {
    hide Sized, BlockDifference, RowSad;
    if n == 0 {
    } else {
      RowsSadZeroIff(p, b, d, n - 1);
      RowSadZeroIff(p, b, d, n - 1, b.bw);
    }
  }

  /** A score of zero means a perfect match, and nothing else does. */
  lemma SadZeroIff(p: Pair, b: Block, d: MotionVector)
    requires Sized(p) && Inside(p, b)
    ensures Sad(p, b, d) == 0 <==> Matches(p, b, d, b.bh)
  {
    RowsSadZeroIff(p, b, d, b.bh);
  }

  lemma {:induction false} RowBetween(p: Pair, b: Block, d: MotionVector, row: nat, n: nat, low: nat, high: nat)
    requires Sized(p) && Inside(p, b) && row < b.bh && n <= b.bw
    requires forall x :: 0 <= x < n ==> low <= BlockDifference(p, b, d, x, row) <= high
    ensures n * low <= RowSad(p, b, d, row, n) <= n * high
  {
    hide Sized, BlockDifference;
    if n > 0 {
      RowBetween(p, b, d, row, n - 1, low, high);
      RowAfter(n - 1, low);
      RowAfter(n - 1, high);
    }
  }

  lemma {:induction false} RowsBetween(p: Pair, b: Block, d: MotionVector, n: nat, low: nat, high: nat)
    requires Sized(p) && Inside(p, b) && n <= b.bh
    requires forall y :: 0 <= y < n ==> low <= RowSad(p, b, d, y, b.bw) <= high
    ensures n * low <= RowsSad(p, b, d, n) <= n * high
  {
    hide Sized, RowSad;
    if n > 0 {
      RowsBetween(p, b, d, n - 1, low, high);
      RowAfter(n - 1, low);
      RowAfter(n - 1, high);
    }
  }

  /** The score grows with every pixel's error: if each is off by at least low and at most high, it lies
      between low and high times the number of pixels, and if all are off by the same it is exactly that. */
  lemma SadBetween(p: Pair, b: Block, d: MotionVector, low: nat, high: nat)
    requires Sized(p) && Inside(p, b)
    requires forall x: nat, y: nat | b.x <= x < b.x + b.bw && b.y <= y < b.y + b.bh ::
      low <= Abs(Pixel(p.cur, p.w, p.h, x, y) - SampleDisplaced(p.ref, p.w, p.h, x, y, d.dx, d.dy)) <= high
    ensures b.bh * (b.bw * low) <= Sad(p, b, d) <= b.bh * (b.bw * high)
  {
    hide Pixel, SampleDisplaced, RowSad, RowsSad, BlockDifference, Sized;
    forall y | 0 <= y < b.bh ensures b.bw * low <= RowSad(p, b, d, y, b.bw) <= b.bw * high {
      forall x | 0 <= x < b.bw ensures low <= BlockDifference(p, b, d, x, y) <= high {
        ErrorAt(p, b, d, x, y);
      }
      RowBetween(p, b, d, y, b.bw, low, high);
    }
    RowsBetween(p, b, d, b.bh, b.bw * low, b.bw * high);
  }

  lemma ErrorAt(p: Pair, b: Block, d: MotionVector, x: nat, y: nat)
    requires Sized(p) && Inside(p, b) && x < b.bw && y < b.bh
    ensures var px: nat, py: nat := b.x + x, b.y + y;
      && b.x <= px < b.x + b.bw && b.y <= py < b.y + b.bh
      && BlockDifference(p, b, d, x, y) == Abs(Pixel(p.cur, p.w, p.h, px, py) - SampleDisplaced(p.ref, p.w, p.h, px, py, d.dx, d.dy))
  {
  }

  lemma RowSadStep(p: Pair, b: Block, d: MotionVector, row: nat, n: nat)
    requires Sized(p) && Inside(p, b) && row < b.bh && n < b.bw
    ensures RowSad(p, b, d, row, n + 1) == RowSad(p, b, d, row, n) + BlockDifference(p, b, d, n, row)
  {
  }

  lemma RowsSadStep(p: Pair, b: Block, d: MotionVector, n: nat)
    requires Sized(p) && Inside(p, b) && n < b.bh
    ensures RowsSad(p, b, d, n + 1) == RowsSad(p, b, d, n) + RowSad(p, b, d, n, b.bw)
    ensures RowSad(p, b, d, n, 0) == 0
  {
  }

  // The 32-bit accumulator never wraps.
  method BlockSad(cur: seq<Byte>, ref: seq<Byte>, w: nat, h: nat, b: Block, dx: int, dy: int) returns (sad: U32)
    requires Sized(Pair(cur, ref, w, h)) && Inside(Pair(cur, ref, w, h), b)
    ensures sad == Sad(Pair(cur, ref, w, h), b, MotionVector(dx, dy))
  {
    hide Sized, RowSad, RowsSad, BlockDifference;
    ghost var p, d := Pair(cur, ref, w, h), MotionVector(dx, dy);
    sad := 0;
    NoRows(p, b, d);
    for row := 0 to b.bh
      invariant sad == RowsSad(p, b, d, row)
    {
      RowsSadStep(p, b, d, row);
      for col := 0 to b.bw
        invariant sad == RowsSad(p, b, d, row) + RowSad(p, b, d, row, col)
      {
        RowSadStep(p, b, d, row, col);
        var diff := SignedDifference(cur, ref, w, h, b, dx, dy, col, row);
        sad := sad + (if diff < 0 then -diff else diff);
      }
    }
  }

  lemma NoRows(p: Pair, b: Block, d: MotionVector)
    requires Sized(p) && Inside(p, b)
    ensures RowsSad(p, b, d, 0) == 0
  {
  }

  method SignedDifference(cur: seq<Byte>, ref: seq<Byte>, w: nat, h: nat, b: Block, dx: int, dy: int, col: nat, row: nat)
    returns (diff: int)
    requires Sized(Pair(cur, ref, w, h)) && Inside(Pair(cur, ref, w, h), b) && col < b.bw && row < b.bh
    ensures BlockDifference(Pair(cur, ref, w, h), b, MotionVector(dx, dy), col, row) == if diff < 0 then -diff else diff
  {
    var cx, cy := b.x + col, b.y + row;
    var rx, ry := Clamp(cx - dx, 0, w - 1), Clamp(cy - dy, 0, h - 1);
    diff := Pixel(cur, w, h, cx, cy) - Pixel(ref, w, h, rx, ry);
  }

  // ---- one round of the search ----

  /** The nine positions around a centre, row by row; the fifth is the centre itself. */
  function Neighbour(centre: MotionVector, step: nat, i: nat): MotionVector
    requires i < 9
  {
    MotionVector(centre.dx + (i % 3 - 1) * step, centre.dy + (i / 3 - 1) * step)
  }

  function BestOf(p: Pair, b: Block, centre: MotionVector, step: nat, n: nat): MotionVector
    requires Sized(p) && Inside(p, b) && n <= 9
  {
    if n == 0 then centre
    else
      var best := BestOf(p, b, centre, step, n - 1);
      if n - 1 != 4 && Sad(p, b, Neighbour(centre, step, n - 1)) < Sad(p, b, best)
      then Neighbour(centre, step, n - 1) else best
  }

  /** Nothing among the first n neighbours scores below v. */
  ghost predicate NoneBetter(p: Pair, b: Block, centre: MotionVector, step: nat, n: nat, v: MotionVector)
    requires Sized(p) && Inside(p, b) && n <= 9
  {
    forall i :: 0 <= i < n ==> Sad(p, b, v) <= Sad(p, b, Neighbour(centre, step, i))
  }

  ghost predicate AllWorse(p: Pair, b: Block, centre: MotionVector, step: nat, n: nat, v: MotionVector)
    requires Sized(p) && Inside(p, b) && n <= 9
  {
    forall i :: 0 <= i < n ==> Sad(p, b, v) < Sad(p, b, Neighbour(centre, step, i))
  }

  /** The centre if nothing beats it, else the first neighbour of the least score. */
  ghost predicate FirstLeast(p: Pair, b: Block, centre: MotionVector, step: nat, n: nat, v: MotionVector)
    requires Sized(p) && Inside(p, b) && n <= 9
  {
    && NoneBetter(p, b, centre, step, n, v)
    && (v == centre
        || exists j :: 0 <= j < n && v == Neighbour(centre, step, j)
             && Sad(p, b, v) < Sad(p, b, centre) && AllWorse(p, b, centre, step, j, v))
  }

  lemma {:induction false} RoundIsFirstLeast(p: Pair, b: Block, centre: MotionVector, step: nat, n: nat)
    requires Sized(p) && Inside(p, b) && n <= 9
    ensures FirstLeast(p, b, centre, step, n, BestOf(p, b, centre, step, n))
    ensures Sad(p, b, BestOf(p, b, centre, step, n)) <= Sad(p, b, centre)
  {
    hide Sad;
    if n == 0 {
    } else {
      var before, v := BestOf(p, b, centre, step, n - 1), BestOf(p, b, centre, step, n);
      RoundIsFirstLeast(p, b, centre, step, n - 1);
      if v != before {
        assert AllWorse(p, b, centre, step, n - 1, v);
      }
    }
  }

  ghost predicate Within(v: MotionVector, of: MotionVector, reach: nat)
  {
    Abs(v.dx - of.dx) <= reach && Abs(v.dy - of.dy) <= reach
  }

  lemma NeighbourNear(centre: MotionVector, step: nat, i: nat)
    requires i < 9
    ensures Within(Neighbour(centre, step, i), centre, step)
  {
    assert (i % 3 - 1) * step == (if i % 3 == 0 then 0 - step else if i % 3 == 1 then 0 else step);
    assert (i / 3 - 1) * step == (if i / 3 == 0 then 0 - step else if i / 3 == 1 then 0 else step);
  }

  lemma RoundStaysNear(p: Pair, b: Block, centre: MotionVector, step: nat)
    requires Sized(p) && Inside(p, b)
    ensures Within(BestOf(p, b, centre, step, 9), centre, step)
  {
    hide Neighbour, BestOf, Sad;
    RoundIsFirstLeast(p, b, centre, step, 9);
    var v := BestOf(p, b, centre, step, 9);
    if v != centre {
      var j :| 0 <= j < 9 && v == Neighbour(centre, step, j);
      NeighbourNear(centre, step, j);
    }
  }

  // ---- the search ----

  function First(p: Pair, b: Block): MotionVector
    requires Sized(p) && Inside(p, b)
  {
    BestOf(p, b, ZERO, 4, 9)
  }

  function Second(p: Pair, b: Block): MotionVector
    requires Sized(p) && Inside(p, b)
  {
    BestOf(p, b, First(p, b), 2, 9)
  }

  function Search(p: Pair, b: Block): MotionVector
    requires Sized(p) && Inside(p, b)
  {
    BestOf(p, b, Second(p, b), 1, 9)
  }

  /** The chosen vector stays within seven pixels and scores no worse than zero motion or any of the 24
      displacements tried around the centres of the three rounds. */
  lemma SearchIsSound(p: Pair, b: Block)
    requires Sized(p) && Inside(p, b)
    ensures var v := Search(p, b);
      && -7 <= v.dx <= 7 && -7 <= v.dy <= 7
      && Sad(p, b, v) <= Sad(p, b, ZERO)
      && NoneBetter(p, b, ZERO, 4, 9, v) && NoneBetter(p, b, First(p, b), 2, 9, v) && NoneBetter(p, b, Second(p, b), 1, 9, v)
  {
    hide BestOf, Sad;
    RoundIsFirstLeast(p, b, ZERO, 4, 9);
    RoundIsFirstLeast(p, b, First(p, b), 2, 9);
    RoundIsFirstLeast(p, b, Second(p, b), 1, 9);
    RoundStaysNear(p, b, ZERO, 4);
    RoundStaysNear(p, b, First(p, b), 2);
    RoundStaysNear(p, b, Second(p, b), 1);
  }

  /** Still content stays put: where zero motion matches perfectly, zero is the answer. */
  lemma StillBlockStays(p: Pair, b: Block)
    requires Sized(p) && Inside(p, b) && Matches(p, b, ZERO, b.bh)
    ensures Search(p, b) == ZERO
  {
    hide BestOf, Sad, Neighbour, Matches;
    SadZeroIff(p, b, ZERO);
    RoundIsFirstLeast(p, b, ZERO, 4, 9);
    RoundIsFirstLeast(p, b, ZERO, 2, 9);
    RoundIsFirstLeast(p, b, ZERO, 1, 9);
  }

  method SearchBlock(cur: seq<Byte>, ref: seq<Byte>, w: nat, h: nat, b: Block) returns (best: MotionVector)
    requires Sized(Pair(cur, ref, w, h)) && Inside(Pair(cur, ref, w, h), b)
    ensures best == Search(Pair(cur, ref, w, h), b)
  {
    hide Sad;
    ghost var p := Pair(cur, ref, w, h);
    best := ZERO;
    var bestSad := BlockSad(cur, ref, w, h, b, 0, 0);
    var step := INITIAL_STEP;
    while step >= 1
      invariant step == 4 || step == 2 || step == 1 || step == 0
      invariant bestSad == Sad(p, b, best)
      invariant best == if step == 4 then ZERO else if step == 2 then First(p, b) else if step == 1 then Second(p, b) else Search(p, b)
      decreases step
    {
      best, bestSad := SearchRound(cur, ref, w, h, b, best, bestSad, step);
      step := step / 2;
    }
  }

  method SearchRound(cur: seq<Byte>, ref: seq<Byte>, w: nat, h: nat, b: Block, centre: MotionVector, centreSad: U32, step: nat)
    returns (best: MotionVector, bestSad: U32)
    requires Sized(Pair(cur, ref, w, h)) && Inside(Pair(cur, ref, w, h), b)
    requires centreSad == Sad(Pair(cur, ref, w, h), b, centre)
    ensures best == BestOf(Pair(cur, ref, w, h), b, centre, step, 9)
    ensures bestSad == Sad(Pair(cur, ref, w, h), b, best)
  {
    hide Sad;
    ghost var p := Pair(cur, ref, w, h);
    best, bestSad := centre, centreSad;
    for ny := -1 to 2
      invariant bestSad == Sad(p, b, best) && best == BestOf(p, b, centre, step, 3 * (ny + 1))
    {
      for nx := -1 to 2
        invariant bestSad == Sad(p, b, best) && best == BestOf(p, b, centre, step, 3 * (ny + 1) + nx + 1)
      {
        if nx != 0 || ny != 0 {
          var dx, dy := centre.dx + nx * step, centre.dy + ny * step;
          var sad := BlockSad(cur, ref, w, h, b, dx, dy);
          assert Neighbour(centre, step, 3 * (ny + 1) + nx + 1) == MotionVector(dx, dy);
          if sad < bestSad {
            best, bestSad := MotionVector(dx, dy), sad;
          }
        }
      }
    }
  }

  // ---- the whole plane ----

  function Blocks(length: nat): nat { (length + BLOCK_SIZE - 1) / BLOCK_SIZE }

  function BlockAt(p: Pair, col: nat, row: nat): (b: Block)
    requires col < Blocks(p.w) && row < Blocks(p.h)
    ensures Inside(p, b) && 0 < b.bw && 0 < b.bh
  {
    Block(col * BLOCK_SIZE, row * BLOCK_SIZE,
          Min(BLOCK_SIZE, p.w - col * BLOCK_SIZE), Min(BLOCK_SIZE, p.h - row * BLOCK_SIZE))
  }

  function VectorAt(p: Pair, k: nat): MotionVector
    requires Sized(p) && k < Blocks(p.w) * Blocks(p.h)
  {
    Grid(Blocks(p.w), Blocks(p.h), k);
    Search(p, BlockAt(p, k % Blocks(p.w), k / Blocks(p.w)))
  }

  /** One vector per block, row by row. */
  function Estimate(p: Pair): (vs: seq<MotionVector>)
    requires Sized(p)
    ensures |vs| == Blocks(p.w) * Blocks(p.h)
  {
    seq(Blocks(p.w) * Blocks(p.h), k requires 0 <= k < Blocks(p.w) * Blocks(p.h) => VectorAt(p, k))
  }

  /** The vector a pixel uses. */
  function IndexOf(w: nat, h: nat, x: nat, y: nat): (k: nat)
    requires x < w && y < h
    ensures k < Blocks(w) * Blocks(h)
  {
    Cell(Blocks(w), Blocks(h), x / BLOCK_SIZE, y / BLOCK_SIZE);
    RowStart(y / BLOCK_SIZE, Blocks(w)) + x / BLOCK_SIZE
  }

  /** A pixel uses the vector searched for the block that contains it. */
  lemma PixelUsesItsBlock(p: Pair, x: nat, y: nat)
    requires Sized(p) && x < p.w && y < p.h
    ensures var b := BlockAt(p, x / BLOCK_SIZE, y / BLOCK_SIZE);
      b.x <= x < b.x + b.bw && b.y <= y < b.y + b.bh
      && Estimate(p)[IndexOf(p.w, p.h, x, y)] == Search(p, b)
  {
    hide Search;
    Cell(Blocks(p.w), Blocks(p.h), x / BLOCK_SIZE, y / BLOCK_SIZE);
  }

  lemma EqualPlanesMatch(p: Pair, b: Block)
    requires Sized(p) && Inside(p, b) && p.cur == p.ref
    ensures Matches(p, b, ZERO, b.bh)
  {
  }

  lemma EqualPlanesDoNotMove(p: Pair)
    requires Sized(p) && p.cur == p.ref
    ensures forall k :: 0 <= k < |Estimate(p)| ==> Estimate(p)[k] == ZERO
  {
    hide Search;
    forall k | 0 <= k < |Estimate(p)| ensures Estimate(p)[k] == ZERO {
      Grid(Blocks(p.w), Blocks(p.h), k);
      var b := BlockAt(p, k % Blocks(p.w), k / Blocks(p.w));
      EqualPlanesMatch(p, b);
      StillBlockStays(p, b);
    }
  }
}
