/** The video stream between the two processes: its wire format, what a reader makes of any byte
    stream, and the round trip. */
module VideoIpcFormat {
  import opened Words

  const MAGIC: seq<Byte> := [79, 86, 70, 0]   // "OVF" and a zero byte
  const HEADER_SIZE := 17
  const MAX_DATA := 8 * 1024 * 1024

  datatype Head = Head(peerId: U32, isScreen: bool, w: U16, h: U16, size: U32)

  /** Bytes of a packed frame of a given size, in 32-bit arithmetic. */
  function DataSize(w: nat, h: nat): U32 { PackedSize(w * h) }

  function PackedSize(area: nat): U32 { Low32(area * 3) / 2 }

  function Byte0(n: U32): Byte { n % 0x100 }
  function Byte1(n: U32): Byte { n / 0x100 % 0x100 }
  function Byte2(n: U32): Byte { n / 0x100 / 0x100 % 0x100 }
  function Byte3(n: U32): Byte { n / 0x100 / 0x100 / 0x100 % 0x100 }

  function HeadBytes(d: Head): (r: seq<Byte>)
    ensures |r| == HEADER_SIZE && r[..4] == MAGIC
  {
    [79, 86, 70, 0,
     Byte0(d.peerId), Byte1(d.peerId), Byte2(d.peerId), Byte3(d.peerId),
     if d.isScreen then 1 else 0,
     Byte0(d.w), Byte1(d.w), Byte0(d.h), Byte1(d.h),
     Byte0(d.size), Byte1(d.size), Byte2(d.size), Byte3(d.size)]
  }

  function Word(a: Byte, b: Byte, c: Byte, d: Byte): U32
  {
    (a as int) + 0x100 * (b as int) + 0x1_0000 * (c as int) + 0x100_0000 * (d as int)
  }

  function HeadOf(s: seq<Byte>): Head
    requires HEADER_SIZE <= |s|
  {
    Head(Word(s[4], s[5], s[6], s[7]), s[8] % 2 == 1, Word(s[9], s[10], 0, 0), Word(s[11], s[12], 0, 0), Word(s[13], s[14], s[15], s[16]))
  }

  lemma WordRoundTrip(n: U32)
    ensures Word(Byte0(n), Byte1(n), Byte2(n), Byte3(n)) == n
    ensures n < 0x1_0000 ==> Word(Byte0(n), Byte1(n), 0, 0) == n
  {
    var a := n / 0x100;
    var b := a / 0x100;
    var c := b / 0x100;
    assert n == 0x100 * a + n % 0x100;
    assert a == 0x100 * b + a % 0x100;
    assert b == 0x100 * c + b % 0x100;
    assert c % 0x100 == c;
  }

  lemma HeadRoundTrip(d: Head, s: seq<Byte>)
    ensures HeadOf(HeadBytes(d) + s) == d
  {
    hide Byte0, Byte1, Byte2, Byte3, Word;
    WordRoundTrip(d.peerId);
    WordRoundTrip(d.w);
    WordRoundTrip(d.h);
    WordRoundTrip(d.size);
    var t := HeadBytes(d) + s;
    assert forall i :: 0 <= i < HEADER_SIZE ==> t[i] == HeadBytes(d)[i];
  }

  datatype Frame = Frame(peerId: U32, isScreen: bool, w: nat, h: nat, data: seq<Byte>)

  /** The reader's test of a header. */
  predicate Plausible(d: Head)
  {
    0 < d.size <= MAX_DATA && d.size == DataSize(d.w, d.h)
  }

  predicate Sendable(f: Frame)
  {
    f.w < 0x1_0000 && f.h < 0x1_0000 && 0 < |f.data| <= MAX_DATA && |f.data| == DataSize(f.w, f.h)
  }

  function HeadFor(f: Frame): Head
  {
    Head(f.peerId, f.isScreen, Low16(f.w), Low16(f.h), Low32(|f.data|))
  }

  function Wire(f: Frame): seq<Byte>
  {
    HeadBytes(HeadFor(f)) + f.data
  }

  /** For a frame as the writer builds it, the reader takes its header exactly when the frame has some
      data, at most 8 MiB of it, and both sides fit sixteen bits. */
  lemma WrittenIsPlausibleIff(f: Frame)
    requires f.w * f.h * 3 < 0x1_0000_0000 && |f.data| == DataSize(f.w, f.h)
    ensures Plausible(HeadFor(f)) <==> 0 < |f.data| <= 8_388_608 && f.w < 0x1_0000 && f.h < 0x1_0000
  {
    hide DataSize;
    TruncationShows(f.w, f.h);
    assert Low32(|f.data|) == |f.data|;
  }

  /** A frame 65538 pixels wide: 196614 bytes of data, announced as 2 pixels wide. */
  lemma WideFrameIsRefused(f: Frame)
    requires f.w == 65538 && f.h == 2 && |f.data| == DataSize(f.w, f.h)
    ensures |f.data| == 196614 && HeadFor(f).w == 2 && !Plausible(HeadFor(f))
  {
    WrittenIsPlausibleIff(f);
  }

  lemma TruncationShows(w: nat, h: nat)
    requires w * h * 3 < 0x1_0000_0000
    ensures w < 0x1_0000 && h < 0x1_0000 ==> DataSize(Low16(w), Low16(h)) == DataSize(w, h)
    ensures !(w < 0x1_0000 && h < 0x1_0000) && 0 < DataSize(w, h) ==> DataSize(Low16(w), Low16(h)) != DataSize(w, h)
  {
    hide PackedSize;
    if !(w < 0x1_0000 && h < 0x1_0000) && 0 < DataSize(w, h) {
      NotNothing(w * h);
      TruncationShrinks(w, h);
      SmallerIsDifferent(Low16(w) * Low16(h), w * h);
    }
  }

  lemma NotNothing(area: nat)
    requires 0 < PackedSize(area)
    ensures 0 < area
  {
  }

  lemma SmallerIsDifferent(less: nat, area: nat)
    requires less + 0x1_0000 <= area && area * 3 < 0x1_0000_0000
    ensures PackedSize(less) != PackedSize(area)
  {
  }

  lemma TruncationShrinks(w: nat, h: nat)
    requires 0 < w * h && (0x1_0000 <= w || 0x1_0000 <= h)
    ensures Low16(w) * Low16(h) + 0x1_0000 <= w * h
  {
    if 0x1_0000 <= w {
      LessWhenSmaller(Low16(w), w - 0x1_0000, Low16(h), h);
      Shrunk(w, h);
    } else {
      LessWhenSmaller(Low16(w), w, Low16(h), h - 0x1_0000);
      Shrunk(h, w);
    }
  }

  lemma LessWhenSmaller(a: nat, w: nat, b: nat, h: nat)
    requires a <= w && b <= h
    ensures a * b <= w * h
  {
  }

  lemma Shrunk(w: nat, h: nat)
    requires 0 < w * h && 0x1_0000 <= w
    ensures (w - 0x1_0000) * h + 0x1_0000 <= w * h
  {
  }

  lemma WireLength(f: Frame)
    ensures |Wire(f)| == HEADER_SIZE + |f.data|
  {
  }

  function LittleEndian(a: int, b: int, c: int, d: int): int { a + 0x100 * b + 0x1_0000 * c + 0x100_0000 * d }

  /** The bytes of a frame on the wire: the magic, then little-endian peer, flags, width, height and size,
      then the data. */
  lemma WireBytes(f: Frame)
    requires |f.data| < 0x1_0000_0000
    ensures var b := Wire(f);
      && |b| == 17 + |f.data| && b[..4] == [79, 86, 70, 0] && b[17..] == f.data
      && LittleEndian(b[4], b[5], b[6], b[7]) == f.peerId
      && b[8] == (if f.isScreen then 1 else 0)
      && LittleEndian(b[9], b[10], 0, 0) == f.w % 0x1_0000
      && LittleEndian(b[11], b[12], 0, 0) == f.h % 0x1_0000
      && LittleEndian(b[13], b[14], b[15], b[16]) == |f.data|
  {
    hide Byte0, Byte1, Byte2, Byte3, LittleEndian;
    var d := HeadFor(f);
    Peel(HeadBytes(d), f.data);
    assert forall i :: 0 <= i < 17 ==> Wire(f)[i] == HeadBytes(d)[i];
    LittleEndianWord(d.peerId);
    LittleEndianWord(d.w);
    LittleEndianWord(d.h);
    LittleEndianWord(d.size);
  }

  lemma LittleEndianWord(n: U32)
    ensures LittleEndian(Byte0(n), Byte1(n), Byte2(n), Byte3(n)) == n
    ensures n < 0x1_0000 ==> LittleEndian(Byte0(n), Byte1(n), 0, 0) == n
  {
    hide Byte0, Byte1, Byte2, Byte3;
    WordRoundTrip(n);
  }

  // ---- what a reader makes of a stream ----

  predicate AtMagic(s: seq<Byte>) { 4 <= |s| && s[..4] == MAGIC }

  /** Sliding one byte at a time until a header begins with the magic bytes. */
  function Resync(s: seq<Byte>): (r: Option<seq<Byte>>)
    ensures r.Some? ==> HEADER_SIZE <= |r.value| <= |s| && AtMagic(r.value)
  {
    if |s| < HEADER_SIZE then None else if AtMagic(s) then Some(s) else Resync(s[1..])
  }

  /** The frames a reader delivers from a stream that ends. */
  function Frames(s: seq<Byte>): seq<Frame>
    decreases |s|
  {
    match Resync(s)
    case None => []
    case Some(t) =>
      var d, body := HeadOf(t), t[HEADER_SIZE..];
      if !Plausible(d) then Frames(body)
      else if |body| < d.size then []
      else [Frame(d.peerId, d.isScreen, d.w, d.h, body[..d.size])] + Frames(body[d.size..])
  }

  function Stream(fs: seq<Frame>): seq<Byte>
  {
    if fs == [] then [] else Stream(fs[..|fs| - 1]) + Wire(fs[|fs| - 1])
  }

  lemma ResyncAtHeader(d: Head, s: seq<Byte>)
    ensures Resync(HeadBytes(d) + s) == Some(HeadBytes(d) + s)
  {
    assert (HeadBytes(d) + s)[..4] == HeadBytes(d)[..4];
  }

  lemma FramesAtHeader(d: Head, s: seq<Byte>)
    ensures Frames(HeadBytes(d) + s) ==
      if !Plausible(d) then Frames(s)
      else if |s| < d.size then []
      else [Frame(d.peerId, d.isScreen, d.w, d.h, s[..d.size])] + Frames(s[d.size..])
  {
    hide HeadBytes, HeadOf, Plausible;
    ResyncAtHeader(d, s);
    HeadRoundTrip(d, s);
    Peel(HeadBytes(d), s);
  }

  lemma OneFrame(f: Frame, s: seq<Byte>)
    requires Sendable(f)
    ensures Frames(Wire(f) + s) == [f] + Frames(s)
  {
    hide HeadBytes, Frames;
    Assoc(HeadBytes(HeadFor(f)), f.data, s);
    FramesAtHeader(HeadFor(f), f.data + s);
    Peel(f.data, s);
  }

  /** Whole frames come out whole, in order, and leave the reader at what follows them. */
  lemma {:induction false} StreamIsRead(fs: seq<Frame>, s: seq<Byte>)
    requires forall f :: f in fs ==> Sendable(f)
    ensures Frames(Stream(fs) + s) == fs + Frames(s)
    decreases |fs|
  {
    hide Frames, Wire, Sendable;
    if fs == [] {
      assert [] + s == s;
      assert fs + Frames(s) == Frames(s);
    } else {
      var front, last := fs[..|fs| - 1], fs[|fs| - 1];
      Assoc(Stream(front), Wire(last), s);
      StreamIsRead(front, Wire(last) + s);
      OneFrame(last, s);
      Assoc(front, [last], Frames(s));
      assert fs == front + [last];
    }
  }

  lemma StreamAlone(fs: seq<Frame>)
    requires forall f :: f in fs ==> Sendable(f)
    ensures Frames(Stream(fs)) == fs
  {
    hide Sendable, Wire, Resync;
    StreamIsRead(fs, []);
    assert Stream(fs) + [] == Stream(fs);
    NoBytesNoFrames();
    assert fs + [] == fs;
  }

  /** The round trip, also when the writer dies in the middle of a frame. */
  lemma RoundTrip(fs: seq<Frame>, f: Frame, cut: nat)
    requires (forall g :: g in fs ==> Sendable(g)) && Sendable(f) && cut < HEADER_SIZE + |f.data|
    ensures Frames(Stream(fs)) == fs
    ensures Frames(Stream(fs) + Wire(f)[..cut]) == fs
  {
    hide Sendable, Frames, Wire, Stream;
    WireLength(f);
    StreamAlone(fs);
    StreamIsRead(fs, Wire(f)[..cut]);
    NothingFromPart(f, cut);
    assert fs + [] == fs;
  }

  lemma NothingFromPart(f: Frame, cut: nat)
    requires Sendable(f) && cut < HEADER_SIZE + |f.data|
    ensures Frames(Wire(f)[..cut]) == []
  {
    hide HeadBytes, Plausible, Frames, HeadFor, Sendable;
    if cut < HEADER_SIZE {
      UnlockedIsEmpty(Wire(f)[..cut]);
    } else {
      var d := HeadFor(f);
      PrefixOfSum(HeadBytes(d), f.data, cut);
      FramesAtHeader(d, f.data[..cut - HEADER_SIZE]);
      SendableIsPlausible(f);
    }
  }

  lemma PrefixOfSum(a: seq<Byte>, b: seq<Byte>, cut: nat)
    requires |a| <= cut <= |a| + |b|
    ensures (a + b)[..cut] == a + b[..cut - |a|]
  {
  }

  lemma SendableIsPlausible(f: Frame)
    requires Sendable(f)
    ensures Plausible(HeadFor(f)) && HeadFor(f).size == |f.data|
  {
    hide DataSize;
    assert Low16(f.w) == f.w && Low16(f.h) == f.h && Low32(|f.data|) == |f.data|;
  }

  // ---- garbage ----

  ghost predicate HasMagic(s: seq<Byte>)
  {
    exists i :: 0 <= i <= |s| - 4 && AtMagic(s[i..])
  }

  lemma MagicHasNoBorder(g: seq<Byte>, t: seq<Byte>)
    requires g != [] && !HasMagic(g) && AtMagic(t)
    ensures !AtMagic(g + t)
  {
    var s := g + t;
    if 4 <= |g| {
      assert g[0..] == g && s[..4] == g[..4];
    } else {
      assert s[|g|] == t[0] == t[..4][0] == 79;
      assert s[..4][|g|] != MAGIC[|g|];
    }
  }

  lemma NoMagicAfter(g: seq<Byte>)
    requires g != [] && !HasMagic(g)
    ensures !HasMagic(g[1..])
  {
    forall i | 0 <= i <= |g| - 5 ensures !AtMagic(g[1..][i..]) {
      assert g[1..][i..] == g[i + 1..];
    }
  }

  lemma {:induction false} ResyncSkips(g: seq<Byte>, t: seq<Byte>)
    requires !HasMagic(g) && AtMagic(t) && HEADER_SIZE <= |t|
    ensures Resync(g + t) == Some(t)
    decreases |g|
  {
    if g == [] {
      assert g + t == t;
    } else {
      MagicHasNoBorder(g, t);
      NoMagicAfter(g);
      assert (g + t)[1..] == g[1..] + t;
      ResyncSkips(g[1..], t);
    }
  }

  lemma {:induction false} GarbageAlone(g: seq<Byte>)
    requires !HasMagic(g)
    ensures Resync(g) == None
    decreases |g|
  {
    if HEADER_SIZE <= |g| {
      assert g[0..] == g;
      NoMagicAfter(g);
      GarbageAlone(g[1..]);
    }
  }

  /** Garbage that does not contain the magic bytes is skipped: between frames or before the first, the
      reader locks onto the next real frame and loses none. */
  lemma GarbageIsSkipped(before: seq<Frame>, g: seq<Byte>, after: seq<Frame>)
    requires (forall f :: f in before ==> Sendable(f)) && (forall f :: f in after ==> Sendable(f)) && !HasMagic(g)
    ensures Frames(Stream(before) + (g + Stream(after))) == before + after
  {
    hide Sendable, HasMagic, Wire, Frames, Resync, AtMagic;
    StreamIsRead(before, g + Stream(after));
    StreamAlone(after);
    if after == [] {
      assert g + Stream(after) == g;
      GarbageAlone(g);
      UnlockedIsEmpty(g);
    } else {
      StreamBeginsWithMagic(after);
      ResyncSkips(g, Stream(after));
      LockedFrames(g + Stream(after), Stream(after));
    }
  }

  lemma NoBytesNoFrames()
    ensures Frames([]) == []
  {
  }

  lemma UnlockedIsEmpty(s: seq<Byte>)
    requires Resync(s) == None
    ensures Frames(s) == []
  {
  }

  lemma LockedFrames(s: seq<Byte>, t: seq<Byte>)
    requires Resync(s) == Some(t)
    ensures Frames(s) == Frames(t)
  {
    assert Resync(t) == Some(t);
  }

  lemma {:induction false} StreamBeginsWithMagic(fs: seq<Frame>)
    requires fs != [] && forall f :: f in fs ==> Sendable(f)
    ensures HEADER_SIZE <= |Stream(fs)| && AtMagic(Stream(fs))
    decreases |fs|
  {
    hide HeadBytes;
    var front, last := fs[..|fs| - 1], fs[|fs| - 1];
    if front == [] {
      assert Stream(front) == [];
      assert Stream(fs) == [] + Wire(last) == Wire(last);
      assert Wire(last)[..4] == HeadBytes(HeadFor(last))[..4];
    } else {
      StreamBeginsWithMagic(front);
      assert Stream(fs)[..4] == Stream(front)[..4];
    }
  }
}
