/** Packed YUV 4:2:0 frames: one byte sequence per plane, row after row. */
module VideoPlanes {
  import opened Words

  datatype Yuv = Yuv(w: nat, h: nat, y: seq<Byte>, u: seq<Byte>, v: seq<Byte>)

  predicate WellFormed(f: Yuv)
  {
    0 < f.w && 0 < f.h && |f.y| == f.w * f.h && |f.u| == |f.v| == (f.w / 2) * (f.h / 2)
  }

  /** Decoder output: planes whose rows start a stride apart. */
  datatype Picture = Picture(w: int, h: int, planes: seq<seq<Byte>>, strides: seq<nat>)

  predicate Readable(pic: Picture)
  {
    && |pic.planes| == |pic.strides| == 3
    && (0 < pic.w && 0 < pic.h ==> (
         && Covers(pic.planes[0], pic.strides[0], pic.w, pic.h)
         && Covers(pic.planes[1], pic.strides[1], pic.w / 2, pic.h / 2)
         && Covers(pic.planes[2], pic.strides[2], pic.w / 2, pic.h / 2)))
  }

  function RowStart(row: nat, stride: nat): nat { row * stride }

  predicate Covers(src: seq<Byte>, stride: nat, w: nat, rows: nat)
  {
    w > 0 ==> forall r :: 0 <= r < rows ==> RowStart(r, stride) + w <= |src|
  }

  // ---- cells of a grid ----

  /** A row-major index names one cell. */
  lemma Grid(w: nat, h: nat, i: nat)
    requires i < w * h
    ensures 0 < w && i % w < w && i / w < h && RowStart(i / w, w) + i % w == i
  {
    if w > 0 {
      QuotientRemainder(i, w);
      if h <= i / w {
        ProductGrows(h, i / w, w);
      }
    }
  }

  /** A cell has one row-major index. */
  lemma Cell(w: nat, h: nat, x: nat, y: nat)
    requires x < w && y < h
    ensures RowStart(y, w) + x < w * h
    ensures (RowStart(y, w) + x) / w == y && (RowStart(y, w) + x) % w == x
  {
    RowAfter(y, w);
    ProductGrows(y + 1, h, w);
    QuotientIsUnique(RowStart(y, w) + x, w, y, x);
  }

  function Pixel(plane: seq<Byte>, w: nat, h: nat, x: int, y: int): Byte
    requires |plane| == w * h && 0 <= x < w && 0 <= y < h
  {
    Cell(w, h, x, y);
    plane[RowStart(y, w) + x]
  }

  /** The pixel a displaced read fetches: coordinates clamped to the plane. */
  function SampleDisplaced(plane: seq<Byte>, w: nat, h: nat, x: int, y: int, dx: int, dy: int): (p: Byte)
    requires |plane| == w * h && 0 < w && 0 < h
    ensures 0 <= x < w && 0 <= y < h && dx == 0 && dy == 0 ==> p == Pixel(plane, w, h, x, y)
  {
    Pixel(plane, w, h, Clamp(x - dx, 0, w - 1), Clamp(y - dy, 0, h - 1))
  }

  // ---- packing ----

  function RowOf(src: seq<Byte>, stride: nat, w: nat, row: nat): (r: seq<Byte>)
    requires w > 0 ==> RowStart(row, stride) + w <= |src|
    ensures |r| == w
  {
    if w == 0 then [] else src[RowStart(row, stride)..RowStart(row, stride) + w]
  }

  function PackedRows(src: seq<Byte>, stride: nat, w: nat, rows: nat): (r: seq<Byte>)
    requires Covers(src, stride, w, rows)
    ensures |r| == w * rows
  {
    if rows == 0 then []
    else
      RowAfter(rows - 1, w);
      PackedRows(src, stride, w, rows - 1) + RowOf(src, stride, w, rows - 1)
  }

  lemma PackedSplit(src: seq<Byte>, stride: nat, w: nat, rows: nat)
    requires Covers(src, stride, w, rows + 1)
    ensures PackedRows(src, stride, w, rows + 1) == PackedRows(src, stride, w, rows) + RowOf(src, stride, w, rows)
    ensures |PackedRows(src, stride, w, rows)| == RowStart(rows, w)
  {
  }

  lemma RowsApart(w: nat, x: nat, y: nat, rows: nat)
    requires x < w && y < rows
    ensures RowStart(y, w) + x < RowStart(rows, w)
  {
    RowAfter(y, w);
    ProductGrows(y + 1, rows, w);
  }

  lemma {:induction false} PackedAt(src: seq<Byte>, stride: nat, w: nat, rows: nat, x: nat, y: nat)
    requires Covers(src, stride, w, rows) && x < w && y < rows
    ensures RowStart(y, stride) + x < |src| && RowStart(y, w) + x < |PackedRows(src, stride, w, rows)|
    ensures PackedRows(src, stride, w, rows)[RowStart(y, w) + x] == src[RowStart(y, stride) + x]
  {
    hide PackedRows, RowStart;
    PackedSplit(src, stride, w, rows - 1);
    if y < rows - 1 {
      PackedAt(src, stride, w, rows - 1, x, y);
      RowsApart(w, x, y, rows - 1);
    }
  }

  /** Packing drops the padding and moves no pixel. */
  lemma PackedPixel(src: seq<Byte>, stride: nat, w: nat, rows: nat, x: nat, y: nat)
    requires Covers(src, stride, w, rows) && x < w && y < rows
    ensures RowStart(y, stride) + x < |src|
    ensures Pixel(PackedRows(src, stride, w, rows), w, rows, x, y) == src[RowStart(y, stride) + x]
  {
    hide PackedRows, RowStart;
    PackedAt(src, stride, w, rows, x, y);
  }

  method PackPlane(src: seq<Byte>, stride: nat, w: nat, rows: nat) returns (dst: seq<Byte>)
    requires Covers(src, stride, w, rows)
    ensures dst == PackedRows(src, stride, w, rows)
  {
    dst := [];
    for row := 0 to rows
      invariant dst == PackedRows(src, stride, w, row)
    {
      if w > 0 {
        dst := dst + src[RowStart(row, stride)..RowStart(row, stride) + w];
      }
    }
  }

  function Packed(pic: Picture): (f: Yuv)
    requires Readable(pic) && 0 < pic.w && 0 < pic.h
    ensures WellFormed(f) && f.w == pic.w && f.h == pic.h
  {
    Yuv(pic.w, pic.h,
        PackedRows(pic.planes[0], pic.strides[0], pic.w, pic.h),
        PackedRows(pic.planes[1], pic.strides[1], pic.w / 2, pic.h / 2),
        PackedRows(pic.planes[2], pic.strides[2], pic.w / 2, pic.h / 2))
  }

  method CopyFrom(pic: Picture) returns (f: Yuv)
    requires Readable(pic) && 0 < pic.w && 0 < pic.h
    ensures f == Packed(pic)
  {
    var y := PackPlane(pic.planes[0], pic.strides[0], pic.w, pic.h);
    var u := PackPlane(pic.planes[1], pic.strides[1], pic.w / 2, pic.h / 2);
    var v := PackPlane(pic.planes[2], pic.strides[2], pic.w / 2, pic.h / 2);
    f := Yuv(pic.w, pic.h, y, u, v);
  }
}
