/** What a concealed frame is made of: the blend towards a hinted frame, and the last frame carried on
    along its motion vectors. */
module VideoConcealment {
  import opened Words
  import opened VideoPlanes
  import opened MotionSearch

  // ---- blending ----

  /** Fixed-point weight, out of 256, of the hinted frame in the k-th concealment of a gap. */
  function Weight(k: nat): (w: nat)
    ensures 128 <= w < 256
  {
    WeightBounds(k);
    (k + 1) * 256 / (k + 2)
  }

  lemma WeightBounds(k: nat)
    ensures 128 <= (k + 1) * 256 / (k + 2) < 256
    ensures ((k + 1) * 256 / (k + 2)) * (k + 2) <= (k + 1) * 256 < ((k + 1) * 256 / (k + 2) + 1) * (k + 2)
  {
    QuotientRemainder((k + 1) * 256, k + 2);
    var q := (k + 1) * 256 / (k + 2);
    RowAfter(q, k + 2);
    if q >= 256 {
      ProductGrows(256, q, k + 2);
    }
    if q < 128 {
      ProductGrows(q + 1, 128, k + 2);
    }
  }

  /** The shift rounds towards minus infinity. */
  function Blend(a: Byte, b: Byte, weight: nat): (r: Byte)
    requires weight <= 256
    ensures Min(a, b) <= r <= a + b - Min(a, b)
  {
    BlendBetween(a, b, weight);
    a + ((b - a) * weight) / 256
  }

  lemma BlendBetween(a: int, b: int, weight: nat)
    requires weight <= 256
    ensures Min(a, b) <= a + ((b - a) * weight) / 256 <= a + b - Min(a, b)
  {
    ScaledBetween(b - a, weight);
  }

  lemma ScaledBetween(d: int, weight: nat)
    requires weight <= 256
    ensures d >= 0 ==> 0 <= d * weight <= d * 256
    ensures d < 0 ==> d * 256 <= d * weight <= 0
  {
  }

  lemma ScaledGrows(d: int, w1: nat, w2: nat)
    requires w1 <= w2
    ensures d >= 0 ==> d * w1 <= d * w2
    ensures d < 0 ==> d * w2 <= d * w1
  {
  }

  lemma WeightGrows(k: nat)
    ensures Weight(k) <= Weight(k + 1)
  {
    WeightBounds(k);
    WeightBounds(k + 1);
    var w, w' := Weight(k), Weight(k + 1);
    assert w * (k + 3) == w * (k + 2) + w;
    if w' < w {
      ProductGrows(w' + 1, w, k + 3);
    }
  }

  /** As a gap grows every pixel moves towards the hinted frame, never past it. */
  lemma BlendEasesIn(a: Byte, b: Byte, k: nat)
    ensures Abs(b - Blend(a, b, Weight(k + 1))) <= Abs(b - Blend(a, b, Weight(k)))
  {
    hide Weight;
    WeightGrows(k);
    ScaledGrows(b - a, Weight(k), Weight(k + 1));
  }

  /** The blended byte is within two of the exact weighted mean (k + 1) / (k + 2) of the way from a to b,
      and for the first concealment of a gap it is the mean of the two, rounded down. */
  lemma BlendIsMean(a: Byte, b: Byte, k: nat)
    ensures Abs((Blend(a, b, Weight(k)) - a) * (k + 2) - (b - a) * (k + 1)) < 2 * (k + 2)
    ensures Blend(a, b, Weight(0)) == (a as int + b) / 2
  {
    hide Blend, Weight;
    WeightIsFraction(k);
    BlendIsFloor(a, b, Weight(k));
    HalfWay(a, b);
    var d, w, n := b - a, Weight(k), k + 2;
    var r := Blend(a, b, w) - a;
    FloorScaled(r, d * w, n);
    WeightScaled(d, w, n, k + 1);
  }

  lemma WeightIsFraction(k: nat)
    ensures Weight(k) * (k + 2) <= (k + 1) * 256 < Weight(k) * (k + 2) + (k + 2)
  {
    WeightBounds(k);
    RowAfter(Weight(k), k + 2);
  }

  lemma BlendIsFloor(a: Byte, b: Byte, weight: nat)
    requires weight <= 256
    ensures 256 * (Blend(a, b, weight) - a) <= (b - a) * weight < 256 * (Blend(a, b, weight) - a) + 256
  {
  }

  lemma HalfWay(a: Byte, b: Byte)
    ensures Blend(a, b, Weight(0)) == (a as int + b) / 2
  {
    assert Weight(0) == 128;
  }

  lemma FloorScaled(r: int, x: int, n: nat)
    requires 256 * r <= x < 256 * r + 256 && n > 0
    ensures 256 * (r * n) <= x * n < 256 * (r * n) + 256 * n
  {
    var rest := x - 256 * r;
    assert x * n == 256 * (r * n) + rest * n;
    ProductGrows(0, rest, n);
    ProductGrows(rest + 1, 256, n);
    RowAfter(rest, n);
  }

  lemma WeightScaled(d: int, w: nat, n: nat, m: nat)
    requires w * n <= m * 256 < w * n + n && -256 < d < 256
    ensures Abs((d * w) * n - (d * m) * 256) < 256 * n
  {
    var e := m * 256 - w * n;
    assert (d * m) * 256 - (d * w) * n == d * e;
    SmallTimesSmall(d, e, n);
  }

  lemma Negated(d: int, e: int)
    ensures d * e == -((-d) * e)
  {
  }

  lemma SmallTimesSmall(d: int, e: nat, n: nat)
    requires -256 < d < 256 && e < n
    ensures -(256 * n) < d * e < 256 * n
  {
    if d >= 0 {
      ByteTimes(d, e);
    } else {
      ByteTimes(-d, e);
      Negated(d, e);
    }
  }

  lemma ByteTimes(d: Byte, e: nat)
    ensures 0 <= d * e <= 255 * e
  {
    if d > 0 {
      ProductGrows(d, 255, e);
    }
  }

  function BlendPlane(a: seq<Byte>, b: seq<Byte>, weight: nat): (r: seq<Byte>)
    requires |a| == |b| && weight <= 256
    ensures |r| == |a|
  {
    seq(|a|, i requires 0 <= i < |a| => Blend(a[i], b[i], weight))
  }

  function Blended(last: Yuv, hint: Yuv, k: nat): (f: Yuv)
    requires WellFormed(last) && WellFormed(hint) && last.w == hint.w && last.h == hint.h
    ensures WellFormed(f) && f.w == last.w && f.h == last.h
  {
    Yuv(last.w, last.h, BlendPlane(last.y, hint.y, Weight(k)), BlendPlane(last.u, hint.u, Weight(k)), BlendPlane(last.v, hint.v, Weight(k)))
  }

  method BlendPlanes(from: seq<Byte>, to: seq<Byte>, weight: nat) returns (out: seq<Byte>)
    requires |from| == |to| && weight <= 256
    ensures out == BlendPlane(from, to, weight)
  {
    hide Blend;
    out := [];
    for i := 0 to |from|
      invariant |out| == i && forall j :: 0 <= j < i ==> out[j] == Blend(from[j], to[j], weight)
    {
      var p := BlendPixel(from[i], to[i], weight);
      out := out + [p];
    }
  }

  method BlendPixel(a: Byte, b: Byte, weight: nat) returns (r: Byte)
    requires weight <= 256
    ensures r == Blend(a, b, weight)
  {
    BlendBetween(a, b, weight);
    r := a + ((b - a) * weight) / 256;
  }

  // ---- carrying motion on ----

  /** Integer division that truncates towards zero. */
  function Halved(x: int): (r: int)
    ensures Abs(r) == Abs(x) / 2 && (r > 0 ==> x > 0) && (r < 0 ==> x < 0)
  {
    if x >= 0 then x / 2 else -((-x) / 2)
  }

  predicate Vectors(f: Yuv, vs: seq<MotionVector>) { |vs| == Blocks(f.w) * Blocks(f.h) }

  function LumaAt(f: Yuv, vs: seq<MotionVector>, scale: nat, i: nat): Byte
    requires WellFormed(f) && Vectors(f, vs) && i < f.w * f.h
  {
    Grid(f.w, f.h, i);
    var x, y := i % f.w, i / f.w;
    var v := vs[IndexOf(f.w, f.h, x, y)];
    SampleDisplaced(f.y, f.w, f.h, x, y, v.dx * scale, v.dy * scale)
  }

  predicate IsChroma(f: Yuv, plane: seq<Byte>) { |plane| == (f.w / 2) * (f.h / 2) }

  /** Chroma planes are half as wide and high: they use the vector of the luma pixel they cover, halved. */
  function ChromaAt(f: Yuv, plane: seq<Byte>, vs: seq<MotionVector>, scale: nat, i: nat): Byte
    requires IsChroma(f, plane) && Vectors(f, vs) && i < (f.w / 2) * (f.h / 2)
  {
    Grid(f.w / 2, f.h / 2, i);
    var x, y := i % (f.w / 2), i / (f.w / 2);
    var v := vs[IndexOf(f.w, f.h, x * 2, y * 2)];
    SampleDisplaced(plane, f.w / 2, f.h / 2, x, y, Halved(v.dx * scale), Halved(v.dy * scale))
  }

  function Luma(f: Yuv, vs: seq<MotionVector>, scale: nat): (r: seq<Byte>)
    requires WellFormed(f) && Vectors(f, vs)
    ensures |r| == f.w * f.h
  {
    seq(f.w * f.h, i requires 0 <= i < f.w * f.h => LumaAt(f, vs, scale, i))
  }

  function Chroma(f: Yuv, plane: seq<Byte>, vs: seq<MotionVector>, scale: nat): (r: seq<Byte>)
    requires IsChroma(f, plane) && Vectors(f, vs)
    ensures |r| == (f.w / 2) * (f.h / 2)
  {
    seq((f.w / 2) * (f.h / 2), i requires 0 <= i < (f.w / 2) * (f.h / 2) => ChromaAt(f, plane, vs, scale, i))
  }

  function Displaced(f: Yuv, vs: seq<MotionVector>, scale: nat): (r: Yuv)
    requires WellFormed(f) && Vectors(f, vs)
    ensures WellFormed(r) && r.w == f.w && r.h == f.h
  {
    Yuv(f.w, f.h, Luma(f, vs, scale), Chroma(f, f.u, vs, scale), Chroma(f, f.v, vs, scale))
  }

  lemma LumaCell(f: Yuv, vs: seq<MotionVector>, scale: nat, x: nat, y: nat)
    requires WellFormed(f) && Vectors(f, vs) && x < f.w && y < f.h
    ensures RowStart(y, f.w) + x < f.w * f.h
    ensures var v := vs[IndexOf(f.w, f.h, x, y)];
      LumaAt(f, vs, scale, RowStart(y, f.w) + x) == SampleDisplaced(f.y, f.w, f.h, x, y, v.dx * scale, v.dy * scale)
  {
    hide SampleDisplaced, IndexOf;
    Cell(f.w, f.h, x, y);
  }

  lemma ChromaCell(f: Yuv, plane: seq<Byte>, vs: seq<MotionVector>, scale: nat, x: nat, y: nat)
    requires IsChroma(f, plane) && Vectors(f, vs) && x < f.w / 2 && y < f.h / 2
    ensures RowStart(y, f.w / 2) + x < (f.w / 2) * (f.h / 2)
    ensures var v := vs[IndexOf(f.w, f.h, x * 2, y * 2)];
      ChromaAt(f, plane, vs, scale, RowStart(y, f.w / 2) + x)
        == SampleDisplaced(plane, f.w / 2, f.h / 2, x, y, Halved(v.dx * scale), Halved(v.dy * scale))
  {
    hide SampleDisplaced, IndexOf, Halved;
    Cell(f.w / 2, f.h / 2, x, y);
  }

  lemma RowEnds(columns: nat, rows: nat)
    ensures RowStart(0, columns) == 0 && RowStart(rows, columns) == columns * rows
  {
  }

  lemma NextRow(row: nat, columns: nat)
    ensures RowStart(row + 1, columns) == RowStart(row, columns) + columns
  {
    RowAfter(row, columns);
  }

  method DisplaceLuma(f: Yuv, vs: seq<MotionVector>, scale: nat) returns (out: seq<Byte>)
    requires WellFormed(f) && Vectors(f, vs)
    ensures out == Luma(f, vs, scale)
  {
    hide SampleDisplaced, LumaAt, Vectors, RowStart;
    out := [];
    RowEnds(f.w, f.h);
    for y := 0 to f.h
      invariant |out| == RowStart(y, f.w) <= f.w * f.h
      invariant forall j :: 0 <= j < |out| ==> out[j] == LumaAt(f, vs, scale, j)
    {
      var row := DisplaceLumaRow(f, vs, scale, y);
      NextRow(y, f.w);
      out := out + row;
    }
  }

  method DisplaceLumaRow(f: Yuv, vs: seq<MotionVector>, scale: nat, y: nat) returns (row: seq<Byte>)
    requires WellFormed(f) && Vectors(f, vs) && y < f.h
    ensures |row| == f.w && RowStart(y, f.w) + f.w <= f.w * f.h
    ensures forall x :: 0 <= x < f.w ==> row[x] == LumaAt(f, vs, scale, RowStart(y, f.w) + x)
  {
    hide SampleDisplaced, LumaAt, RowStart;
    row := [];
    LumaCell(f, vs, scale, f.w - 1, y);
    for x := 0 to f.w
      invariant |row| == x
      invariant forall j :: 0 <= j < x ==> row[j] == LumaAt(f, vs, scale, RowStart(y, f.w) + j)
    {
      var v := vs[IndexOf(f.w, f.h, x, y)];
      LumaCell(f, vs, scale, x, y);
      row := row + [SampleDisplaced(f.y, f.w, f.h, x, y, v.dx * scale, v.dy * scale)];
    }
  }

  method DisplaceChroma(f: Yuv, plane: seq<Byte>, vs: seq<MotionVector>, scale: nat) returns (out: seq<Byte>)
    requires IsChroma(f, plane) && Vectors(f, vs)
    ensures out == Chroma(f, plane, vs, scale)
  {
    hide SampleDisplaced, ChromaAt, Vectors, IsChroma, RowStart;
    out := [];
    var w := f.w / 2;
    RowEnds(w, f.h / 2);
    for y := 0 to f.h / 2
      invariant |out| == RowStart(y, w) <= w * (f.h / 2)
      invariant forall j :: 0 <= j < |out| ==> out[j] == ChromaAt(f, plane, vs, scale, j)
    {
      var row := DisplaceChromaRow(f, plane, vs, scale, y);
      NextRow(y, w);
      out := out + row;
    }
  }

  method DisplaceChromaRow(f: Yuv, plane: seq<Byte>, vs: seq<MotionVector>, scale: nat, y: nat) returns (row: seq<Byte>)
    requires IsChroma(f, plane) && Vectors(f, vs) && y < f.h / 2
    ensures |row| == f.w / 2 && RowStart(y, f.w / 2) + f.w / 2 <= (f.w / 2) * (f.h / 2)
    ensures forall x :: 0 <= x < f.w / 2 ==> row[x] == ChromaAt(f, plane, vs, scale, RowStart(y, f.w / 2) + x)
  {
    hide SampleDisplaced, ChromaAt, RowStart;
    row := [];
    RowFits(f.w / 2, f.h / 2, y);
    for x := 0 to f.w / 2
      invariant |row| == x
      invariant forall j :: 0 <= j < x ==> row[j] == ChromaAt(f, plane, vs, scale, RowStart(y, f.w / 2) + j)
    {
      var v := vs[IndexOf(f.w, f.h, x * 2, y * 2)];
      var dx, dy := Halved(v.dx * scale), Halved(v.dy * scale);
      ChromaCell(f, plane, vs, scale, x, y);
      row := row + [SampleDisplaced(plane, f.w / 2, f.h / 2, x, y, dx, dy)];
    }
  }

  lemma RowFits(w: nat, h: nat, y: nat)
    requires y < h
    ensures RowStart(y, w) + w <= w * h
  {
    RowAfter(y, w);
    ProductGrows(y + 1, h, w);
  }

  // ---- still content ----

  ghost predicate Still(vs: seq<MotionVector>)
  {
    forall k :: 0 <= k < |vs| ==> vs[k] == ZERO
  }

  lemma PixelOfIndex(plane: seq<Byte>, w: nat, h: nat, i: nat)
    requires |plane| == w * h && i < |plane|
    ensures 0 < w && i % w < w && i / w < h && Pixel(plane, w, h, i % w, i / w) == plane[i]
  {
    Grid(w, h, i);
  }

  lemma StillSample(plane: seq<Byte>, w: nat, h: nat, scale: nat, i: nat)
    requires |plane| == w * h && i < |plane|
    ensures 0 < w && 0 < h && i % w < w && i / w < h
    ensures SampleDisplaced(plane, w, h, i % w, i / w, 0 * scale, 0 * scale) == plane[i]
    ensures SampleDisplaced(plane, w, h, i % w, i / w, Halved(0 * scale), Halved(0 * scale)) == plane[i]
  {
    hide Pixel, SampleDisplaced;
    PixelOfIndex(plane, w, h, i);
    assert 0 * scale == 0 && Halved(0) == 0;
  }

  lemma StillLumaAt(f: Yuv, vs: seq<MotionVector>, scale: nat, i: nat)
    requires WellFormed(f) && Vectors(f, vs) && Still(vs) && i < f.w * f.h
    ensures LumaAt(f, vs, scale, i) == f.y[i]
  {
    hide Pixel, IndexOf, SampleDisplaced, Halved, Blocks;
    StillSample(f.y, f.w, f.h, scale, i);
    var k := IndexOf(f.w, f.h, i % f.w, i / f.w);
    assert vs[k] == ZERO;
  }

  lemma StillChromaAt(f: Yuv, plane: seq<Byte>, vs: seq<MotionVector>, scale: nat, i: nat)
    requires IsChroma(f, plane) && Vectors(f, vs) && Still(vs) && i < (f.w / 2) * (f.h / 2)
    ensures ChromaAt(f, plane, vs, scale, i) == plane[i]
  {
    hide Pixel, IndexOf, SampleDisplaced, Halved, Blocks;
    StillSample(plane, f.w / 2, f.h / 2, scale, i);
    var k := IndexOf(f.w, f.h, (i % (f.w / 2)) * 2, (i / (f.w / 2)) * 2);
    assert vs[k] == ZERO;
  }

  /** Without motion nothing moves, however far it is carried on. */
  lemma StillLuma(f: Yuv, vs: seq<MotionVector>, scale: nat)
    requires WellFormed(f) && Vectors(f, vs) && Still(vs)
    ensures Luma(f, vs, scale) == f.y
  {
    hide LumaAt, Still, Vectors;
    forall i | 0 <= i < |f.y| ensures LumaAt(f, vs, scale, i) == f.y[i] {
      StillLumaAt(f, vs, scale, i);
    }
  }

  lemma StillChroma(f: Yuv, plane: seq<Byte>, vs: seq<MotionVector>, scale: nat)
    requires IsChroma(f, plane) && Vectors(f, vs) && Still(vs)
    ensures Chroma(f, plane, vs, scale) == plane
  {
    hide ChromaAt, Still, Vectors;
    forall i | 0 <= i < |plane| ensures ChromaAt(f, plane, vs, scale, i) == plane[i] {
      StillChromaAt(f, plane, vs, scale, i);
    }
  }

  lemma StillFrame(f: Yuv, vs: seq<MotionVector>, scale: nat)
    requires WellFormed(f) && Vectors(f, vs) && Still(vs)
    ensures Displaced(f, vs, scale) == f
  {
    hide Luma, Chroma, Vectors;
    StillLuma(f, vs, scale);
    StillChroma(f, f.u, vs, scale);
    StillChroma(f, f.v, vs, scale);
  }
}
