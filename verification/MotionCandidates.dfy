/** The motion search in coordinates: which displacements are tried, and what is found. */
module MotionCandidates {
  import opened Words
  import opened VideoPlanes
  import opened MotionSearch

  // ---- reading a displaced pixel ----

  /** The byte fetched for a displaced pixel: to the left and above by the displacement, and at the border
      of the plane where that falls outside it. */
  lemma DisplacedByte(plane: seq<Byte>, w: nat, h: nat, x: nat, y: nat, dx: int, dy: int)
    requires |plane| == w * h && x < w && y < h
    ensures var sx, sy := if x - dx < 0 then 0 else if x - dx >= w then w - 1 else x - dx,
                          if y - dy < 0 then 0 else if y - dy >= h then h - 1 else y - dy;
      && 0 <= sy * w + sx < |plane|
      && SampleDisplaced(plane, w, h, x, y, dx, dy) == plane[sy * w + sx]
  {
    var sx, sy := Clamp(x - dx, 0, w - 1), Clamp(y - dy, 0, h - 1);
    Cell(w, h, sx, sy);
  }

  // ---- one round ----

  /** The displacement i steps to the right of and j steps below a centre. */
  function Stepped(c: MotionVector, step: nat, i: int, j: int): MotionVector
  {
    MotionVector(c.dx + i * step, c.dy + j * step)
  }

  lemma NeighbourIsStepped(c: MotionVector, step: nat, i: int, j: int)
    requires -1 <= i <= 1 && -1 <= j <= 1
    ensures Neighbour(c, step, 3 * (j + 1) + (i + 1)) == MotionVector(c.dx + i * step, c.dy + j * step)
  {
  }

  /** Nothing one step or none away in either direction scores below v. */
  ghost predicate LeastAround(p: Pair, b: Block, c: MotionVector, step: nat, v: MotionVector)
    requires Sized(p) && Inside(p, b)
  {
    forall i, j | -1 <= i <= 1 && -1 <= j <= 1 :: Sad(p, b, v) <= Sad(p, b, Stepped(c, step, i, j))
  }

  /** Everything above, or to the left in the same row, scores more than v. */
  ghost predicate FirstAround(p: Pair, b: Block, c: MotionVector, step: nat, v: MotionVector, i: int, j: int)
    requires Sized(p) && Inside(p, b)
  {
    forall i', j' | -1 <= i' <= 1 && -1 <= j' <= 1 && (j' < j || (j' == j && i' < i)) ::
      Sad(p, b, v) < Sad(p, b, Stepped(c, step, i', j'))
  }

  lemma AroundIsNoneBetter(p: Pair, b: Block, c: MotionVector, step: nat, v: MotionVector)
    requires Sized(p) && Inside(p, b) && NoneBetter(p, b, c, step, 9, v)
    ensures LeastAround(p, b, c, step, v)
  {
    hide Sad, Neighbour;
    forall i, j | -1 <= i <= 1 && -1 <= j <= 1 ensures Sad(p, b, v) <= Sad(p, b, Stepped(c, step, i, j)) {
      NeighbourIsStepped(c, step, i, j);
    }
  }

  /** A round looks at its centre and the eight positions a step away, and keeps the centre unless one of
      them scores less; among the least it takes the first, row by row. */
  lemma RoundInCoordinates(p: Pair, b: Block, c: MotionVector, step: nat)
    requires Sized(p) && Inside(p, b)
    ensures var v := BestOf(p, b, c, step, 9);
      && LeastAround(p, b, c, step, v)
      && (v == c
          || exists i, j | -1 <= i <= 1 && -1 <= j <= 1 ::
               v == Stepped(c, step, i, j) && Sad(p, b, v) < Sad(p, b, c) && FirstAround(p, b, c, step, v, i, j))
  {
    hide Sad, Neighbour, BestOf;
    RoundIsFirstLeast(p, b, c, step, 9);
    var v := BestOf(p, b, c, step, 9);
    AroundIsNoneBetter(p, b, c, step, v);
    if v != c {
      var n :| 0 <= n < 9 && v == Neighbour(c, step, n) && Sad(p, b, v) < Sad(p, b, c) && AllWorse(p, b, c, step, n, v);
      var i, j := n % 3 - 1, n / 3 - 1;
      NeighbourIsStepped(c, step, i, j);
      FirstInOrder(p, b, c, step, v, n);
      assert v == Stepped(c, step, i, j);
    }
  }

  lemma FirstInOrder(p: Pair, b: Block, c: MotionVector, step: nat, v: MotionVector, n: nat)
    requires Sized(p) && Inside(p, b) && n < 9 && AllWorse(p, b, c, step, n, v)
    ensures FirstAround(p, b, c, step, v, n % 3 - 1, n / 3 - 1)
  {
    hide Sad, Neighbour;
    forall i', j' | -1 <= i' <= 1 && -1 <= j' <= 1 && (j' < n / 3 - 1 || (j' == n / 3 - 1 && i' < n % 3 - 1))
      ensures Sad(p, b, v) < Sad(p, b, Stepped(c, step, i', j'))
    {
      NeighbourIsStepped(c, step, i', j');
      assert 3 * (j' + 1) + (i' + 1) < n;
    }
  }

  // ---- the search ----

  /** The three rounds, in coordinates: four, two and one pixels around zero, the first and the second
      round's result. */
  lemma SearchInCoordinates(p: Pair, b: Block)
    requires Sized(p) && Inside(p, b)
    ensures var v, c1, c2 := Search(p, b), First(p, b), Second(p, b);
      && (forall i, j | -1 <= i <= 1 && -1 <= j <= 1 :: Sad(p, b, v) <= Sad(p, b, Stepped(MotionVector(0, 0), 4, i, j)))
      && (forall i, j | -1 <= i <= 1 && -1 <= j <= 1 :: Sad(p, b, v) <= Sad(p, b, Stepped(c1, 2, i, j)))
      && (forall i, j | -1 <= i <= 1 && -1 <= j <= 1 :: Sad(p, b, v) <= Sad(p, b, Stepped(c2, 1, i, j)))
      && LeastAround(p, b, MotionVector(0, 0), 4, c1) && LeastAround(p, b, c1, 2, c2)
  {
    hide Sad, BestOf, First, Second, Search;
    SearchIsSound(p, b);
    AroundIsNoneBetter(p, b, ZERO, 4, Search(p, b));
    AroundIsNoneBetter(p, b, First(p, b), 2, Search(p, b));
    AroundIsNoneBetter(p, b, Second(p, b), 1, Search(p, b));
    RoundsByName(p, b);
    RoundInCoordinates(p, b, ZERO, 4);
    RoundInCoordinates(p, b, First(p, b), 2);
  }

  lemma RoundsByName(p: Pair, b: Block)
    requires Sized(p) && Inside(p, b)
    ensures First(p, b) == BestOf(p, b, MotionVector(0, 0), 4, 9)
    ensures Second(p, b) == BestOf(p, b, First(p, b), 2, 9)
    ensures Search(p, b) == BestOf(p, b, Second(p, b), 1, 9)
  {
    hide BestOf;
  }

  /** Nothing beats a perfect match. */
  lemma PerfectCentreStays(p: Pair, b: Block, c: MotionVector, step: nat)
    requires Sized(p) && Inside(p, b) && Sad(p, b, c) == 0
    ensures BestOf(p, b, c, step, 9) == c
  {
    hide Sad, Neighbour, BestOf;
    RoundIsFirstLeast(p, b, c, step, 9);
  }

  ghost predicate OnlyPerfect(p: Pair, b: Block, i: int, j: int)
    requires Sized(p) && Inside(p, b)
  {
    && Sad(p, b, Stepped(MotionVector(0, 0), 4, i, j)) == 0
    && forall i', j' | -1 <= i' <= 1 && -1 <= j' <= 1 && (i' != i || j' != j) ::
         Sad(p, b, Stepped(MotionVector(0, 0), 4, i', j')) > 0
  }

  lemma RoundPosition(p: Pair, b: Block, c: MotionVector, step: nat) returns (i: int, j: int)
    requires Sized(p) && Inside(p, b)
    ensures -1 <= i <= 1 && -1 <= j <= 1 && BestOf(p, b, c, step, 9) == Stepped(c, step, i, j)
  {
    hide Sad, BestOf;
    RoundInCoordinates(p, b, c, step);
    var v := BestOf(p, b, c, step, 9);
    if v == c {
      i, j := 0, 0;
    } else {
      i, j :| -1 <= i <= 1 && -1 <= j <= 1 && v == Stepped(c, step, i, j);
    }
  }

  lemma FirstIsPerfect(p: Pair, b: Block, i: int, j: int)
    requires Sized(p) && Inside(p, b) && -1 <= i <= 1 && -1 <= j <= 1 && OnlyPerfect(p, b, i, j)
    ensures First(p, b) == Stepped(MotionVector(0, 0), 4, i, j)
  {
    hide Sad, BestOf, First, Stepped;
    RoundsByName(p, b);
    RoundInCoordinates(p, b, MotionVector(0, 0), 4);
    var i', j' := RoundPosition(p, b, MotionVector(0, 0), 4);
    assert Sad(p, b, First(p, b)) <= Sad(p, b, Stepped(MotionVector(0, 0), 4, i, j));
  }

  /** A block that matches perfectly at one position of the first round, and at no other, is given exactly
      that motion, in whichever of the nine directions it lies. */
  lemma PerfectMatchIsFound(p: Pair, b: Block, i: int, j: int)
    requires Sized(p) && Inside(p, b) && -1 <= i <= 1 && -1 <= j <= 1 && OnlyPerfect(p, b, i, j)
    ensures Search(p, b) == MotionVector(4 * i, 4 * j)
    ensures Matches(p, b, MotionVector(4 * i, 4 * j), b.bh)
  {
    hide Sad, BestOf, First, Second, Search, Matches;
    FirstIsPerfect(p, b, i, j);
    RoundsByName(p, b);
    PerfectCentreStays(p, b, First(p, b), 2);
    PerfectCentreStays(p, b, First(p, b), 1);
    SadZeroIff(p, b, MotionVector(4 * i, 4 * j));
  }

  /** The block of a pixel is the sixteen by sixteen square it lies in, cut off at the frame's edge. */
  lemma BlocksAreSixteen(p: Pair, x: nat, y: nat)
    requires Sized(p) && x < p.w && y < p.h
    ensures x / 16 < Blocks(p.w) && y / 16 < Blocks(p.h)
    ensures var b := BlockAt(p, x / 16, y / 16);
      && b.x == x / 16 * 16 && b.y == y / 16 * 16
      && b.bw == (if p.w - b.x < 16 then p.w - b.x else 16) && b.bh == (if p.h - b.y < 16 then p.h - b.y else 16)
      && Estimate(p)[IndexOf(p.w, p.h, x, y)] == Search(p, b)
  {
    hide Search, Estimate, IndexOf, Sized;
    PixelUsesItsBlock(p, x, y);
  }
}
