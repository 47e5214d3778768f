/** The two ends of the video stream: a writer that never leaves part of a frame behind, and a reader
    that resynchronises. */
module VideoIpc {
  import opened Words
  import opened Sockets
  import opened VideoPlanes
  import opened VideoIpcFormat

  // ---- what the writer puts in a frame ----

  function Zeros(n: nat): (r: seq<Byte>)
    ensures |r| == n
  {
    seq(n, _ => 0)
  }

  function Resized(buf: seq<Byte>, n: nat): (r: seq<Byte>)
    ensures |r| == n
  {
    if n <= |buf| then buf[..n] else buf + Zeros(n - |buf|)
  }

  function Planes(pic: Picture): (r: seq<Byte>)
    requires Readable(pic) && 0 < pic.w && 0 < pic.h
    ensures |r| == pic.w * pic.h + (pic.w / 2) * (pic.h / 2) + (pic.w / 2) * (pic.h / 2)
  {
    Packed(pic).y + Packed(pic).u + Packed(pic).v
  }

  lemma PlanesFit(w: nat, h: nat)
    requires w * h * 3 < 0x1_0000_0000
    ensures w * h + (w / 2) * (h / 2) + (w / 2) * (h / 2) <= DataSize(w, h) == w * h * 3 / 2
    ensures w % 2 == 0 && h % 2 == 0 ==> w * h + (w / 2) * (h / 2) + (w / 2) * (h / 2) == DataSize(w, h)
  {
    HalvesProduct(w / 2, w % 2, h / 2, h % 2);
  }

  lemma HalvesProduct(a: nat, p: nat, b: nat, q: nat)
    ensures (2 * a + p) * (2 * b + q) >= 4 * (a * b)
    ensures p == 0 && q == 0 ==> (2 * a + p) * (2 * b + q) == 4 * (a * b)
  {
    assert (2 * a + p) * (2 * b + q) == 4 * (a * b) + 2 * (a * q) + 2 * (b * p) + p * q;
  }

  predicate Writable(pic: Picture)
  {
    Readable(pic) && 0 < pic.w && 0 < pic.h && pic.w * pic.h * 3 < 0x1_0000_0000
  }

  /** The planes, then, for odd sizes, whatever the reused buffer held. */
  function DataFor(buf: seq<Byte>, pic: Picture): (r: seq<Byte>)
    requires Writable(pic)
    ensures |r| == DataSize(pic.w, pic.h)
    ensures pic.w % 2 == 0 && pic.h % 2 == 0 ==> r == Planes(pic)
  {
    PlanesFit(pic.w, pic.h);
    Planes(pic) + Resized(buf, HEADER_SIZE + DataSize(pic.w, pic.h))[HEADER_SIZE + |Planes(pic)|..]
  }

  function FrameFor(buf: seq<Byte>, peerId: U32, isScreen: bool, pic: Picture): Frame
    requires Writable(pic)
  {
    Frame(peerId, isScreen, pic.w, pic.h, DataFor(buf, pic))
  }

  /** A picture whose sides fit sixteen bits and that packs to at most 8 MiB can be sent. */
  lemma WrittenIsSendable(buf: seq<Byte>, peerId: U32, isScreen: bool, pic: Picture)
    requires Writable(pic) && DataSize(pic.w, pic.h) <= 8_388_608 && pic.w < 0x1_0000 && pic.h < 0x1_0000
    ensures Sendable(FrameFor(buf, peerId, isScreen, pic))
  {
    hide DataFor, Readable, DataSize;
    SomeData(pic.w, pic.h);
  }

  lemma SomeData(w: nat, h: nat)
    requires 0 < w && 0 < h && w * h * 3 < 0x1_0000_0000
    ensures 0 < DataSize(w, h)
  {
    ProductGrows(1, w, h);
  }

  /** The byte at column x of row y, counted from an offset; none if it lies outside. */
  function ByteAt(bytes: seq<Byte>, offset: nat, stride: nat, x: nat, y: nat): int
  {
    if offset + y * stride + x < |bytes| then bytes[offset + y * stride + x] else -1
  }

  /** A plane stands in the data from an offset on, its rows as wide as the plane, byte for byte. */
  ghost predicate ShowsPlane(data: seq<Byte>, offset: nat, src: seq<Byte>, stride: nat, w: nat, h: nat)
  {
    forall x: nat, y: nat | x < w && y < h :: 0 <= ByteAt(src, 0, stride, x, y) == ByteAt(data, offset, w, x, y)
  }

  /** The frame is the picture: its size, and the pixels of all three planes, one plane after the other. */
  ghost predicate Shows(f: Frame, pic: Picture)
    requires Readable(pic) && 0 < pic.w && 0 < pic.h
  {
    && f.w == pic.w && f.h == pic.h
    && ShowsPlane(f.data, 0, pic.planes[0], pic.strides[0], pic.w, pic.h)
    && ShowsPlane(f.data, pic.w * pic.h, pic.planes[1], pic.strides[1], pic.w / 2, pic.h / 2)
    && ShowsPlane(f.data, pic.w * pic.h + (pic.w / 2) * (pic.h / 2), pic.planes[2], pic.strides[2], pic.w / 2, pic.h / 2)
  }

  lemma PackedShows(src: seq<Byte>, stride: nat, w: nat, h: nat)
    requires Covers(src, stride, w, h)
    ensures ShowsPlane(PackedRows(src, stride, w, h), 0, src, stride, w, h)
  {
    hide PackedRows, Covers;
    forall x: nat, y: nat | x < w && y < h
      ensures 0 <= ByteAt(src, 0, stride, x, y) == ByteAt(PackedRows(src, stride, w, h), 0, w, x, y)
    {
      PackedAt(src, stride, w, h, x, y);
    }
  }

  lemma ShowsWithin(plane: seq<Byte>, before: seq<Byte>, after: seq<Byte>, src: seq<Byte>, stride: nat, w: nat, h: nat)
    requires ShowsPlane(plane, 0, src, stride, w, h)
    ensures ShowsPlane(before + plane + after, |before|, src, stride, w, h)
  {
    forall x: nat, y: nat | x < w && y < h
      ensures 0 <= ByteAt(src, 0, stride, x, y) == ByteAt(before + plane + after, |before|, w, x, y)
    {
      assert ByteAt(plane, 0, w, x, y) >= 0;
      ByteWithin(plane, before, after, w, x, y);
    }
  }

  lemma ByteWithin(plane: seq<Byte>, before: seq<Byte>, after: seq<Byte>, w: nat, x: nat, y: nat)
    requires ByteAt(plane, 0, w, x, y) >= 0
    ensures ByteAt(before + plane + after, |before|, w, x, y) == ByteAt(plane, 0, w, x, y)
  {
  }

  /** What is written for a picture shows it, pixel by pixel, whatever the buffer held before. */
  lemma DataShowsPicture(buf: seq<Byte>, peerId: U32, isScreen: bool, pic: Picture)
    requires Writable(pic)
    ensures Readable(pic) && Shows(FrameFor(buf, peerId, isScreen, pic), pic)
  {
    hide Readable, DataFor, DataSize, Resized, Packed, Stores, ShowsPlane, Covers, PackedRows;
    WritableParts(buf, pic);
    PackedParts(pic);
    var p := Packed(pic);
    var tail := Resized(buf, HEADER_SIZE + DataSize(pic.w, pic.h))[HEADER_SIZE + |Planes(pic)|..];
    PackedShows(pic.planes[0], pic.strides[0], pic.w, pic.h);
    PackedShows(pic.planes[1], pic.strides[1], pic.w / 2, pic.h / 2);
    PackedShows(pic.planes[2], pic.strides[2], pic.w / 2, pic.h / 2);
    ShowsWithin(p.y, [], p.u + p.v + tail, pic.planes[0], pic.strides[0], pic.w, pic.h);
    ShowsWithin(p.u, p.y, p.v + tail, pic.planes[1], pic.strides[1], pic.w / 2, pic.h / 2);
    ShowsWithin(p.v, p.y + p.u, tail, pic.planes[2], pic.strides[2], pic.w / 2, pic.h / 2);
    ThreeParts(p.y, p.u, p.v, tail);
  }

  lemma PackedParts(pic: Picture)
    requires Readable(pic) && 0 < pic.w && 0 < pic.h
    ensures |pic.planes| == |pic.strides| == 3
    ensures Covers(pic.planes[0], pic.strides[0], pic.w, pic.h)
    ensures Covers(pic.planes[1], pic.strides[1], pic.w / 2, pic.h / 2) && Covers(pic.planes[2], pic.strides[2], pic.w / 2, pic.h / 2)
    ensures Packed(pic).y == PackedRows(pic.planes[0], pic.strides[0], pic.w, pic.h)
    ensures Packed(pic).u == PackedRows(pic.planes[1], pic.strides[1], pic.w / 2, pic.h / 2)
    ensures Packed(pic).v == PackedRows(pic.planes[2], pic.strides[2], pic.w / 2, pic.h / 2)
    ensures |Packed(pic).y| == pic.w * pic.h && |Packed(pic).u| == (pic.w / 2) * (pic.h / 2)
  {
  }

  lemma ThreeParts(y: seq<Byte>, u: seq<Byte>, v: seq<Byte>, tail: seq<Byte>)
    ensures [] + y + (u + v + tail) == y + u + v + tail
    ensures y + u + (v + tail) == y + u + v + tail
    ensures |y + u| == |y| + |u|
  {
  }

  /** End to end: reading what was written returns the picture last, for its peer, with its size and its
      pixels. */
  lemma PictureIsRead(fs: seq<Frame>, buf: seq<Byte>, peerId: U32, isScreen: bool, pic: Picture)
    requires (forall f :: f in fs ==> Sendable(f)) && Writable(pic)
    requires DataSize(pic.w, pic.h) <= MAX_DATA && pic.w < 0x1_0000 && pic.h < 0x1_0000
    ensures var read := Frames(Stream(fs + [FrameFor(buf, peerId, isScreen, pic)]));
      && |read| == |fs| + 1 && read[..|fs|] == fs && Readable(pic)
      && read[|fs|].peerId == peerId && read[|fs|].isScreen == isScreen && Shows(read[|fs|], pic)
  {
    hide Frames, Stream, Sendable, Readable, DataFor, DataSize, Shows, ShowsPlane;
    WrittenIsSendable(buf, peerId, isScreen, pic);
    DataShowsPicture(buf, peerId, isScreen, pic);
    StreamAlone(fs + [FrameFor(buf, peerId, isScreen, pic)]);
  }

  // ---- the writer ----

  class FrameWriter {
    const pipe: Pipe
    var buf: seq<Byte>
    ghost var sent: seq<Frame>
    ghost var abandoned: Frame   // the frame cut short when the pipe broke
    ghost var cut: nat

    // Whole frames, and part of one more only if the pipe has broken.
    ghost predicate Valid()
      reads this, pipe
    {
      && cut <= |Wire(abandoned)|
      && pipe.bytes == Stream(sent) + Wire(abandoned)[..cut]
      && (pipe.broken ==> cut < |Wire(abandoned)|)
      && (!pipe.broken ==> cut == 0)
    }

    constructor (pipe: Pipe)
      requires pipe.bytes == [] && !pipe.broken
      ensures Valid() && this.pipe == pipe && sent == []
    {
      this.pipe, buf, sent, abandoned, cut := pipe, [], [], Frame(0, false, 0, 0, []), 0;
    }

    method WriteFrame(peerId: U32, isScreen: bool, pic: Picture) returns (written: bool)
      requires Valid() && Writable(pic)
      modifies this, pipe
      ensures Valid()
      ensures sent == if written then old(sent) + [FrameFor(old(buf), peerId, isScreen, pic)] else old(sent)
      ensures written ==> sent != [] && sent[|sent| - 1].peerId == peerId && sent[|sent| - 1].isScreen == isScreen
      ensures written ==> sent != [] && Shows(sent[|sent| - 1], pic)
      ensures !written && !pipe.broken ==> pipe.bytes == old(pipe.bytes)
    {
      hide Wire, Stream, DataFor, Packed, ShowsPlane;
      ghost var f := FrameFor(buf, peerId, isScreen, pic);
      DataShowsPicture(buf, peerId, isScreen, pic);
      WireLength(f);
      FillBuffer(peerId, isScreen, pic);
      var off := 0;
      ghost var before, wasBroken := pipe.bytes, pipe.broken;
      NothingWritten(sent, abandoned);
      assert before + buf[..0] == before;
      while off < |buf|
        invariant off <= |buf| && buf == Wire(f) && sent == old(sent)
        invariant pipe.bytes == before + buf[..off]
        invariant pipe.broken == wasBroken && (wasBroken ==> off == 0)
        invariant abandoned == old(abandoned) && cut == old(cut)
        decreases |buf| - off, pipe.refusals
      {
        var r := pipe.Write(buf[off..]);
        if r.Wrote? {
          Assoc(before, buf[..off], buf[off..][..r.n]);
          assert buf[..off] + buf[off..][..r.n] == buf[..off + r.n];
          off := off + r.n;
        } else if r.Again? {
          if off == 0 {
            cut := 0;
            return false;
          }
        } else {
          if !wasBroken {
            abandoned, cut := f, off;
          }
          return false;
        }
      }
      assert buf[..off] == buf;
      StreamSnoc(sent, f);
      sent, cut := sent + [f], 0;
      NothingWritten(sent, abandoned);
      written := true;
    }

    method FillBuffer(peerId: U32, isScreen: bool, pic: Picture)
      requires Writable(pic)
      modifies this`buf
      ensures buf == Wire(FrameFor(old(buf), peerId, isScreen, pic))
    {
      hide Writable, HeadBytes, Packed, Planes, DataFor, DataSize, Resized, Readable, Stores;
      WritableParts(buf, pic);
      var size: U32 := DataSize(pic.w, pic.h);
      var head := HeadBytes(Head(peerId, isScreen, Low16(pic.w), Low16(pic.h), size));
      buf := Resized(buf, HEADER_SIZE + size);
      ghost var was := buf;
      buf := head + buf[HEADER_SIZE..];
      StorePlanes(pic, Packed(pic).y, Packed(pic).u, Packed(pic).v);
      HeaderKept(head, Planes(pic), was);
    }

    // The three planes, one after the other, behind the header.
    method StorePlanes(pic: Picture, ghost y: seq<Byte>, ghost u: seq<Byte>, ghost v: seq<Byte>)
      requires |pic.planes| == |pic.strides| == 3 && 0 < pic.w && 0 < pic.h
      requires Stores(pic.planes[0], pic.strides[0], pic.w, pic.h, y)
      requires Stores(pic.planes[1], pic.strides[1], pic.w / 2, pic.h / 2, u)
      requires Stores(pic.planes[2], pic.strides[2], pic.w / 2, pic.h / 2, v)
      requires HEADER_SIZE + |y| + |u| + |v| <= |buf|
      modifies this`buf
      ensures buf == old(buf)[..HEADER_SIZE] + (y + u + v) + old(buf)[HEADER_SIZE + |y + u + v|..]
    {
      hide Stores;
      var dst := StorePlane(HEADER_SIZE, pic.planes[0], pic.strides[0], pic.w, pic.h, y);
      dst := StorePlane(dst, pic.planes[1], pic.strides[1], pic.w / 2, pic.h / 2, u);
      StoredTwo(old(buf), HEADER_SIZE, y, u);
      dst := StorePlane(dst, pic.planes[2], pic.strides[2], pic.w / 2, pic.h / 2, v);
      StoredTwo(old(buf), HEADER_SIZE, y + u, v);
    }

    // Copies a plane row by row to a position in the buffer; the result is the position behind it.
    method StorePlane(dst: nat, src: seq<Byte>, stride: nat, w: nat, rows: nat, ghost plane: seq<Byte>) returns (at: nat)
      requires Stores(src, stride, w, rows, plane) && dst + |plane| <= |buf|
      modifies this`buf
      ensures buf == old(buf)[..dst] + plane + old(buf)[dst + |plane|..]
      ensures at == dst + |plane|
    {
      hide PackedRows, RowStart;
      ghost var was := buf;
      NoRowsStored(buf, dst, src, stride, w);
      at := dst;
      for row := 0 to rows
        invariant at == dst + w * row && |buf| == |was|
        invariant buf == was[..dst] + PackedRows(src, stride, w, row) + was[at..]
      {
        RowAfter(row, w);
        ProductGrows(row + 1, rows, w);
        PackedSplit(src, stride, w, row);
        var r := RowOf(src, stride, w, row);
        Spliced(was[..dst] + PackedRows(src, stride, w, row), r, was, at);
        Assoc(was[..dst], PackedRows(src, stride, w, row), r);
        buf := buf[..at] + r + buf[at + w..];
        at := at + w;
      }
    }
  }

  /** The plane is what its rows pack to. */
  ghost predicate Stores(src: seq<Byte>, stride: nat, w: nat, rows: nat, plane: seq<Byte>)
  {
    Covers(src, stride, w, rows) && plane == PackedRows(src, stride, w, rows)
  }

  lemma WritableParts(buf: seq<Byte>, pic: Picture)
    requires Writable(pic)
    ensures Readable(pic) && 0 < pic.w && 0 < pic.h && |pic.planes| == |pic.strides| == 3
    ensures Stores(pic.planes[0], pic.strides[0], pic.w, pic.h, Packed(pic).y)
    ensures Stores(pic.planes[1], pic.strides[1], pic.w / 2, pic.h / 2, Packed(pic).u)
    ensures Stores(pic.planes[2], pic.strides[2], pic.w / 2, pic.h / 2, Packed(pic).v)
    ensures Planes(pic) == Packed(pic).y + Packed(pic).u + Packed(pic).v
    ensures |Planes(pic)| <= DataSize(pic.w, pic.h)
    ensures DataFor(buf, pic) == Planes(pic) + Resized(buf, HEADER_SIZE + DataSize(pic.w, pic.h))[HEADER_SIZE + |Planes(pic)|..]
  {
    hide DataSize, Resized;
    PlanesFit(pic.w, pic.h);
  }

  lemma NoRowsStored(buf: seq<Byte>, dst: nat, src: seq<Byte>, stride: nat, w: nat)
    requires dst <= |buf|
    ensures buf == buf[..dst] + PackedRows(src, stride, w, 0) + buf[dst..]
  {
  }

  lemma Spliced(front: seq<Byte>, r: seq<Byte>, was: seq<Byte>, at: nat)
    requires |front| == at && at + |r| <= |was|
    ensures var s := front + was[at..]; s[..at] + r + s[at + |r|..] == front + r + was[at + |r|..]
  {
  }

  /** Storing a second part right behind a first. */
  lemma StoredTwo(was: seq<Byte>, dst: nat, p: seq<Byte>, q: seq<Byte>)
    requires dst + |p| + |q| <= |was|
    ensures var b := was[..dst] + p + was[dst + |p|..];
      b[..dst + |p|] + q + b[dst + |p| + |q|..] == was[..dst] + (p + q) + was[dst + |p| + |q|..]
  {
    var b := was[..dst] + p + was[dst + |p|..];
    assert b[..dst + |p|] == was[..dst] + p;
    assert b[dst + |p| + |q|..] == was[dst + |p| + |q|..];
    Assoc(was[..dst], p, q);
  }

  lemma HeaderKept(head: seq<Byte>, planes: seq<Byte>, was: seq<Byte>)
    requires |head| + |planes| <= |was|
    ensures var b := head + was[|head|..];
      b[..|head|] + planes + b[|head| + |planes|..] == head + (planes + was[|head| + |planes|..])
  {
    var b := head + was[|head|..];
    assert b[..|head|] == head;
    assert b[|head| + |planes|..] == was[|head| + |planes|..];
    Assoc(head, planes, was[|head| + |planes|..]);
  }

  lemma NothingWritten(sent: seq<Frame>, f: Frame)
    ensures Stream(sent) + Wire(f)[..0] == Stream(sent)
  {
  }

  lemma StreamSnoc(sent: seq<Frame>, f: Frame)
    ensures Stream(sent + [f]) == Stream(sent) + Wire(f)
  {
    assert (sent + [f])[..|sent|] == sent;
  }

  // ---- the reader ----

  /** The store keeps the latest frame of each peer. */
  function Latest(store: map<U32, Frame>, fs: seq<Frame>): map<U32, Frame>
  {
    if fs == [] then store
    else
      var f := fs[|fs| - 1];
      Latest(store, fs[..|fs| - 1])[f.peerId := f]
  }

  /** What is stored for a peer is the last frame it sent. */
  lemma {:induction false} LatestIsLast(store: map<U32, Frame>, fs: seq<Frame>, p: U32, i: nat)
    requires i < |fs| && fs[i].peerId == p && forall j :: i < j < |fs| ==> fs[j].peerId != p
    ensures p in Latest(store, fs) && Latest(store, fs)[p] == fs[i]
    decreases |fs|
  {
    if i < |fs| - 1 {
      LatestIsLast(store, fs[..|fs| - 1], p, i);
    }
  }

  /** A peer that sent none keeps what was there. */
  lemma {:induction false} LatestKeepsOthers(store: map<U32, Frame>, fs: seq<Frame>, p: U32)
    requires forall j :: 0 <= j < |fs| ==> fs[j].peerId != p
    ensures p in Latest(store, fs) <==> p in store
    ensures p in store ==> p in Latest(store, fs) && Latest(store, fs)[p] == store[p]
    decreases |fs|
  {
    if fs == [] {
    } else {
      LatestKeepsOthers(store, fs[..|fs| - 1], p);
    }
  }

  lemma FramesStep(t: seq<Byte>)
    requires HEADER_SIZE <= |t| && AtMagic(t)
    ensures var d, body := HeadOf(t), t[HEADER_SIZE..];
      Frames(t) ==
        if !Plausible(d) then Frames(body)
        else if |body| < d.size then []
        else [Frame(d.peerId, d.isScreen, d.w, d.h, body[..d.size])] + Frames(body[d.size..])
  {
  }

  lemma SlideStep(s: seq<Byte>)
    requires HEADER_SIZE <= |s| && !AtMagic(s)
    ensures Frames(s) == Frames(s[1..])
    ensures |s| == HEADER_SIZE ==> Frames(s) == []
  {
    if Resync(s).Some? {
      LockedFrames(s, Resync(s).value);
      LockedFrames(s[1..], Resync(s).value);
    }
  }

  class FrameReader {
    const socket: Socket
    var frames: map<U32, Frame>
    ghost var delivered: seq<Frame>

    constructor (socket: Socket)
      ensures this.socket == socket && frames == map[] && delivered == []
    {
      this.socket, frames, delivered := socket, map[], [];
    }

    method ReadExact(n: nat) returns (bytes: Option<seq<Byte>>)
      modifies socket`incoming
      ensures bytes.Some? ==> |bytes.value| == n && old(socket.incoming) == bytes.value + socket.incoming
      ensures bytes == None && socket.reliable ==> |old(socket.incoming)| < n
      ensures |socket.incoming| <= |old(socket.incoming)|
    {
      var dst: seq<Byte> := [];
      while |dst| < n
        invariant |dst| <= n && old(socket.incoming) == dst + socket.incoming
      {
        var chunk := socket.Recv(n - |dst|);
        if chunk == [] {
          return None;
        }
        Assoc(dst, chunk, socket.incoming);
        dst := dst + chunk;
      }
      bytes := Some(dst);
    }

    // A header that starts with the magic bytes, sliding over anything else.
    method ReadHeader() returns (hdr: Option<seq<Byte>>)
      modifies socket`incoming
      ensures hdr.Some? ==> |hdr.value| == HEADER_SIZE && AtMagic(hdr.value)
      ensures hdr.Some? ==> Frames(old(socket.incoming)) == Frames(hdr.value + socket.incoming)
      ensures hdr.Some? ==> |socket.incoming| < |old(socket.incoming)|
      ensures hdr == None && socket.reliable ==> Frames(old(socket.incoming)) == []
    {
      hide Frames, HeadOf;
      ghost var stream := socket.incoming;
      hdr := ReadExact(HEADER_SIZE);
      if hdr == None {
        if socket.reliable {
          UnlockedIsEmpty(stream);
        }
        return;
      }
      while hdr.value[..4] != MAGIC
        invariant hdr.Some? && |hdr.value| == HEADER_SIZE
        invariant Frames(stream) == Frames(hdr.value + socket.incoming)
        invariant |socket.incoming| < |stream|
        decreases |socket.incoming|
      {
        ghost var s := hdr.value + socket.incoming;
        assert s[..4] == hdr.value[..4];
        SlideStep(s);
        ghost var rest := socket.incoming;
        var next := ReadExact(1);
        if next == None {
          assert socket.reliable ==> rest == [];
          return None;
        }
        assert s[1..] == (hdr.value[1..] + next.value) + socket.incoming;
        hdr := Some(hdr.value[1..] + next.value);
      }
    }

    // Runs until the stream ends.
    method Run()
      modifies this`frames, this`delivered, socket`incoming
      ensures old(delivered) <= delivered <= old(delivered) + Frames(old(socket.incoming))
      ensures socket.reliable ==> delivered == old(delivered) + Frames(old(socket.incoming))
      ensures frames == Latest(old(frames), delivered[|old(delivered)|..])
    {
      hide Frames, HeadOf, AtMagic, Latest;
      ghost var goal := delivered + Frames(socket.incoming);
      ghost var first := |delivered|;
      NothingLatest(frames);
      assert delivered[first..] == [];
      while true
        invariant goal == delivered + Frames(socket.incoming)
        invariant old(delivered) <= delivered && frames == Latest(old(frames), delivered[first..])
        decreases |socket.incoming|
      {
        var hdr := ReadHeader();
        if hdr == None {
          return;
        }
        ghost var t := hdr.value + socket.incoming;
        var d := HeadOf(hdr.value);
        HeaderOnTop(hdr.value, socket.incoming);
        FramesStep(t);
        if Plausible(d) {
          var data := ReadExact(d.size);
          if data == None {
            return;
          }
          var f := Frame(d.peerId, d.isScreen, d.w, d.h, data.value);
          Peel(data.value, socket.incoming);
          Assoc(delivered, [f], Frames(socket.incoming));
          LatestSnoc(old(frames), delivered[first..], f);
          assert (delivered + [f])[first..] == delivered[first..] + [f];
          frames := frames[f.peerId := f];
          delivered := delivered + [f];
        }
      }
    }
  }

  lemma NothingLatest(store: map<U32, Frame>)
    ensures Latest(store, []) == store
  {
  }

  lemma LatestSnoc(store: map<U32, Frame>, fs: seq<Frame>, f: Frame)
    ensures Latest(store, fs + [f]) == Latest(store, fs)[f.peerId := f]
  {
    assert (fs + [f])[..|fs|] == fs;
  }

  lemma HeaderOnTop(hdr: seq<Byte>, rest: seq<Byte>)
    requires |hdr| == HEADER_SIZE && AtMagic(hdr)
    ensures AtMagic(hdr + rest) && HeadOf(hdr + rest) == HeadOf(hdr) && (hdr + rest)[HEADER_SIZE..] == rest
  {
    assert (hdr + rest)[..4] == hdr[..4];
  }

  /** Whatever was refused, split or cut off, reading what is in the pipe delivers exactly the frames the
      writer completed, in order. */
  lemma WrittenIsRead(w: FrameWriter)
    requires w.Valid() && (forall f :: f in w.sent ==> Sendable(f)) && (w.cut > 0 ==> Sendable(w.abandoned))
    ensures Frames(w.pipe.bytes) == w.sent
  {
    hide Frames, Sendable, Stream, Wire;
    if w.cut > 0 {
      WireLength(w.abandoned);
      RoundTrip(w.sent, w.abandoned, w.cut);
    } else {
      NothingWritten(w.sent, w.abandoned);
      StreamAlone(w.sent);
    }
  }
}
