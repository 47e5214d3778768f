/** Loss concealment over whole runs: a specification without the vector cache, runs of it, and the
    class that caches vectors for a gap and still does the same. */
module VideoPlc {
  import opened Words
  import opened VideoPlanes
  import opened MotionSearch
  import opened VideoConcealment

  datatype Strategy = Skip | Hold | Interpolate | MotionCompensated

  const DEFAULT_CAP := 5

  /** The frames a concealment may use: the last real frame, the one before it, a hint for the next
      concealment; how many were emitted since the last real frame, and ever. */
  datatype History = History(prev: Option<Yuv>, last: Option<Yuv>, hint: Option<Yuv>, streak: nat, total: U64)

  const NO_HISTORY := History(None, None, None, 0, 0)

  predicate Holding(f: Option<Yuv>) { f.Some? ==> WellFormed(f.value) }

  predicate Sound(h: History) { Holding(h.prev) && Holding(h.last) && Holding(h.hint) }

  predicate SameSize(f: Yuv, g: Yuv) { f.w == g.w && f.h == g.h }

  function LumaPair(prev: Yuv, last: Yuv): (p: Pair)
    requires WellFormed(prev) && WellFormed(last) && SameSize(prev, last)
    ensures Sized(p)
  {
    Pair(last.y, prev.y, last.w, last.h)
  }

  /** The k-th frame concealed in a gap, estimating motion afresh each time. */
  function Concealed(strategy: Strategy, prev: Option<Yuv>, last: Option<Yuv>, hint: Option<Yuv>, k: nat): (f: Option<Yuv>)
    requires Holding(prev) && Holding(last) && Holding(hint)
    ensures f.Some? <==> last.Some? && strategy != Skip
    ensures f.Some? ==> WellFormed(f.value) && SameSize(f.value, last.value)
  {
    if strategy == Skip || last == None then None
    else if strategy == Interpolate && hint.Some? && SameSize(hint.value, last.value)
    then Some(Blended(last.value, hint.value, k))
    else if strategy == MotionCompensated && prev.Some? && SameSize(prev.value, last.value)
    then Some(Displaced(last.value, Estimate(LumaPair(prev.value, last.value)), k + 1))
    else last
  }

  /** A real frame: the last one becomes the previous one, and a change of size forgets the hint. */
  function AfterReal(h: History, pic: Picture): History
    requires Readable(pic)
  {
    if pic.w <= 0 || pic.h <= 0 then h
    else
      var resized := h.last.Some? && (h.last.value.w != pic.w || h.last.value.h != pic.h);
      h.(prev := if h.last.Some? then h.last else h.prev, last := Some(Packed(pic)),
         hint := if resized then None else h.hint, streak := 0)
  }

  function AfterHint(h: History, pic: Picture): History
    requires Readable(pic)
  {
    if pic.w <= 0 || pic.h <= 0 then h else h.(hint := Some(Packed(pic)))
  }

  function Emitted(strategy: Strategy, cap: int, h: History): Option<Yuv>
    requires Sound(h)
  {
    if h.streak >= cap then None else Concealed(strategy, h.prev, h.last, h.hint, h.streak)
  }

  /** A refusal at the cap keeps even the hint. */
  function AfterConceal(strategy: Strategy, cap: int, h: History): History
    requires Sound(h)
  {
    if h.streak >= cap then h
    else if Emitted(strategy, cap, h).Some? then h.(hint := None, streak := h.streak + 1, total := Low64(h.total + 1))
    else h.(hint := None)
  }

  // ---- runs ----

  datatype Call = Real(pic: Picture) | Hint(pic: Picture) | Conceal

  predicate Acceptable(calls: seq<Call>)
  {
    forall i :: 0 <= i < |calls| && !calls[i].Conceal? ==> Readable(calls[i].pic)
  }

  predicate IsReal(c: Call) { c.Real? && c.pic.w > 0 && c.pic.h > 0 }

  function After(strategy: Strategy, cap: int, h: History, c: Call): (h': History)
    requires Sound(h) && (!c.Conceal? ==> Readable(c.pic))
    ensures Sound(h')
  {
    match c
    case Real(pic) => AfterReal(h, pic)
    case Hint(pic) => AfterHint(h, pic)
    case Conceal => AfterConceal(strategy, cap, h)
  }

  function Run(strategy: Strategy, cap: int, h: History, calls: seq<Call>): (h': History)
    requires Sound(h) && Acceptable(calls)
    ensures Sound(h')
    decreases |calls|
  {
    if calls == [] then h else Run(strategy, cap, After(strategy, cap, h, calls[0]), calls[1..])
  }

  /** The frames a run of calls emits, in order. */
  function Output(strategy: Strategy, cap: int, h: History, calls: seq<Call>): seq<Yuv>
    requires Sound(h) && Acceptable(calls)
    decreases |calls|
  {
    if calls == [] then []
    else
      var rest := Output(strategy, cap, After(strategy, cap, h, calls[0]), calls[1..]);
      if calls[0].Conceal? && Emitted(strategy, cap, h).Some? then [Emitted(strategy, cap, h).value] + rest else rest
  }

  ghost predicate Gap(calls: seq<Call>)
  {
    forall i :: 0 <= i < |calls| ==> !IsReal(calls[i])
  }

  /** Between real frames at most the cap is emitted, whatever is hinted and however often it is asked. */
  lemma {:induction false} CapHolds(strategy: Strategy, cap: int, h: History, calls: seq<Call>)
    requires Sound(h) && Acceptable(calls) && Gap(calls) && h.streak <= if cap < 0 then 0 else cap
    ensures |Output(strategy, cap, h, calls)| + h.streak == Run(strategy, cap, h, calls).streak
    ensures Run(strategy, cap, h, calls).streak <= if cap < 0 then 0 else cap
    ensures Run(strategy, cap, h, calls).last == h.last && Run(strategy, cap, h, calls).prev == h.prev
    decreases |calls|
  {
    hide Concealed, Packed, Holding, Readable;
    if calls == [] {
    } else {
      assert !IsReal(calls[0]);
      CapHolds(strategy, cap, After(strategy, cap, h, calls[0]), calls[1..]);
    }
  }

  /** Every frame emitted in a gap without hints is determined by the two last real frames and its place
      in the gap. */
  lemma {:induction false} GapFrames(strategy: Strategy, cap: int, h: History, calls: seq<Call>, i: nat)
    requires Sound(h) && Acceptable(calls) && h.hint == None
    requires forall j :: 0 <= j < |calls| ==> calls[j].Conceal?
    requires i < |Output(strategy, cap, h, calls)|
    ensures Some(Output(strategy, cap, h, calls)[i]) == Concealed(strategy, h.prev, h.last, None, h.streak + i)
    decreases |calls|
  {
    hide Concealed, Holding;
    if i > 0 || Emitted(strategy, cap, h) == None {
      var rest := Output(strategy, cap, After(strategy, cap, h, calls[0]), calls[1..]);
      if Emitted(strategy, cap, h) == None {
        GapFrames(strategy, cap, After(strategy, cap, h, calls[0]), calls[1..], i);
      } else {
        GapFrames(strategy, cap, After(strategy, cap, h, calls[0]), calls[1..], i - 1);
      }
    }
  }

  /** A gap is bridged completely up to the cap and then not at all. */
  lemma {:induction false} GapLength(strategy: Strategy, cap: int, h: History, calls: seq<Call>)
    requires Sound(h) && Acceptable(calls) && h.last.Some? && strategy != Skip
    requires forall j :: 0 <= j < |calls| ==> calls[j].Conceal?
    requires h.streak <= cap
    ensures |Output(strategy, cap, h, calls)| == Min(|calls|, cap - h.streak)
    decreases |calls|
  {
    hide Concealed, Holding;
    if calls == [] {
    } else {
      GapLength(strategy, cap, After(strategy, cap, h, calls[0]), calls[1..]);
    }
  }

  /** The accepted real frames among some calls, in order. */
  function Reals(calls: seq<Call>): (fs: seq<Yuv>)
    requires Acceptable(calls)
  {
    if calls == [] then []
    else
      var c := calls[|calls| - 1];
      Reals(calls[..|calls| - 1]) + (if IsReal(c) then [Packed(c.pic)] else [])
  }

  function FromEnd<T>(s: seq<T>, k: nat): Option<T>
    requires 0 < k
  {
    if k <= |s| then Some(s[|s| - k]) else None
  }

  lemma {:induction false} RunSnoc(strategy: Strategy, cap: int, h: History, calls: seq<Call>, c: Call)
    requires Sound(h) && Acceptable(calls + [c])
    ensures Acceptable(calls) && (!c.Conceal? ==> Readable(c.pic))
    ensures Run(strategy, cap, h, calls + [c]) == After(strategy, cap, Run(strategy, cap, h, calls), c)
    decreases |calls|
  {
    hide After, Readable;
    var all := calls + [c];
    assert all[|calls|] == c;
    assert forall i :: 0 <= i < |calls| ==> calls[i] == all[i];
    if calls == [] {
      assert all[1..] == [];
    } else {
      assert all[1..] == calls[1..] + [c];
      RunSnoc(strategy, cap, After(strategy, cap, h, calls[0]), calls[1..], c);
    }
  }

  /** In every reachable state the last frame is the latest real frame accepted, and the previous frame
      the one before it, whatever was hinted or concealed and however the sizes changed. */
  lemma {:induction false} HistoryIsLastTwo(strategy: Strategy, cap: int, calls: seq<Call>)
    requires Acceptable(calls)
    ensures var h := Run(strategy, cap, NO_HISTORY, calls);
      h.last == FromEnd(Reals(calls), 1) && h.prev == FromEnd(Reals(calls), 2)
    decreases |calls|
  {
    hide After, Readable, Run, FromEnd;
    if calls == [] {
      RunNothing(strategy, cap, NO_HISTORY);
      FromEndNothing<Yuv>();
    } else {
      var front, c := calls[..|calls| - 1], calls[|calls| - 1];
      assert calls == front + [c];
      RunSnoc(strategy, cap, NO_HISTORY, front, c);
      HistoryIsLastTwo(strategy, cap, front);
      FromEndSnoc(Reals(front));
      FramesAfter(strategy, cap, Run(strategy, cap, NO_HISTORY, front), c);
    }
  }

  lemma RunNothing(strategy: Strategy, cap: int, h: History)
    requires Sound(h)
    ensures Run(strategy, cap, h, []) == h
  {
  }

  lemma FromEndNothing<T>()
    ensures FromEnd<T>([], 1) == None && FromEnd<T>([], 2) == None
  {
  }

  lemma FromEndSnoc<T>(s: seq<T>)
    ensures FromEnd(s, 1) == None ==> FromEnd(s, 2) == None
    ensures s + [] == s
    ensures forall x :: FromEnd(s + [x], 1) == Some(x) && FromEnd(s + [x], 2) == FromEnd(s, 1)
  {
  }

  lemma FramesAfter(strategy: Strategy, cap: int, h: History, c: Call)
    requires Sound(h) && (!c.Conceal? ==> Readable(c.pic)) && (h.last == None ==> h.prev == None)
    ensures var h' := After(strategy, cap, h, c);
      if IsReal(c) then h'.last == Some(Packed(c.pic)) && h'.prev == h.last else h'.last == h.last && h'.prev == h.prev
  {
    hide Concealed, Packed, Holding, Readable;
  }

  // ---- still pictures ----

  /** If the last two frames are equal, a motion-compensated frame is the last one, byte for byte, at
      every place in the gap. */
  lemma StillPictureStays(strategy: Strategy, f: Yuv, k: nat)
    requires WellFormed(f) && strategy != Skip
    ensures Concealed(strategy, Some(f), Some(f), None, k) == Some(f)
  {
    hide Displaced, Estimate, Search;
    if strategy == MotionCompensated {
      var p := LumaPair(f, f);
      EqualPlanesDoNotMove(p);
      StillFrame(f, Estimate(p), k + 1);
    }
  }

  /** Motion carried on: a concealed pixel is read from the last frame, displaced by k + 1 times the
      vector of its block; that vector explains the block at least as well as no motion, and one that
      explains it perfectly took the last frame's pixel from the previous frame by the same reading. */
  lemma MotionIsCarriedOn(prev: Yuv, last: Yuv, hint: Option<Yuv>, k: nat, x: nat, y: nat)
    requires WellFormed(prev) && WellFormed(last) && SameSize(prev, last) && Holding(hint)
    requires x < last.w && y < last.h
    ensures var p := LumaPair(prev, last);
      var b := BlockAt(p, x / BLOCK_SIZE, y / BLOCK_SIZE);
      var v := Search(p, b);
      var out := Concealed(MotionCompensated, Some(prev), Some(last), hint, k);
      && b.x <= x < b.x + b.bw && b.y <= y < b.y + b.bh
      && out.Some? && WellFormed(out.value) && SameSize(out.value, last)
      && Pixel(out.value.y, last.w, last.h, x, y) == SampleDisplaced(last.y, last.w, last.h, x, y, v.dx * (k + 1), v.dy * (k + 1))
      && -7 <= v.dx <= 7 && -7 <= v.dy <= 7 && Sad(p, b, v) <= Sad(p, b, ZERO)
      && (Sad(p, b, v) == 0 ==> Pixel(last.y, last.w, last.h, x, y) == SampleDisplaced(prev.y, last.w, last.h, x, y, v.dx, v.dy))
  {
    hide Estimate, Search, Sad, Pixel, SampleDisplaced, BlockAt, IndexOf, Concealed, Displaced, WellFormed, Sized;
    var p := LumaPair(prev, last);
    PixelUsesItsBlock(p, x, y);
    var b := BlockAt(p, x / BLOCK_SIZE, y / BLOCK_SIZE);
    SearchIsSound(p, b);
    ConcealedIsDisplaced(prev, last, hint, k);
    LumaPixel(last, Estimate(p), k + 1, x, y);
    SadZeroIff(p, b, Search(p, b));
    if Sad(p, b, Search(p, b)) == 0 {
      MatchedPixel(p, b, Search(p, b), x, y);
    }
  }

  /** The colour planes follow: a concealed chroma pixel is read with the vector of the luma pixel it
      covers, carried on and then halved towards zero. */
  lemma ChromaIsCarriedOn(prev: Yuv, last: Yuv, hint: Option<Yuv>, k: nat, x: nat, y: nat)
    requires WellFormed(prev) && WellFormed(last) && SameSize(prev, last) && Holding(hint)
    requires x < last.w / 2 && y < last.h / 2
    ensures var p := LumaPair(prev, last);
      var v := Search(p, BlockAt(p, x * 2 / BLOCK_SIZE, y * 2 / BLOCK_SIZE));
      var dx, dy := Halved(v.dx * (k + 1)), Halved(v.dy * (k + 1));
      var out := Concealed(MotionCompensated, Some(prev), Some(last), hint, k);
      && out.Some? && WellFormed(out.value) && SameSize(out.value, last)
      && Pixel(out.value.u, last.w / 2, last.h / 2, x, y) == SampleDisplaced(last.u, last.w / 2, last.h / 2, x, y, dx, dy)
      && Pixel(out.value.v, last.w / 2, last.h / 2, x, y) == SampleDisplaced(last.v, last.w / 2, last.h / 2, x, y, dx, dy)
  {
    hide Estimate, Search, Pixel, SampleDisplaced, BlockAt, IndexOf, Concealed, Displaced, WellFormed, Sized, Halved;
    var p := LumaPair(prev, last);
    PixelUsesItsBlock(p, x * 2, y * 2);
    ConcealedIsDisplaced(prev, last, hint, k);
    ChromaPixels(last, Estimate(p), k + 1, x, y);
  }

  lemma ChromaPixels(f: Yuv, vs: seq<MotionVector>, scale: nat, x: nat, y: nat)
    requires WellFormed(f) && Vectors(f, vs) && x < f.w / 2 && y < f.h / 2
    ensures var v := vs[IndexOf(f.w, f.h, x * 2, y * 2)];
      var dx, dy := Halved(v.dx * scale), Halved(v.dy * scale);
      && Pixel(Displaced(f, vs, scale).u, f.w / 2, f.h / 2, x, y) == SampleDisplaced(f.u, f.w / 2, f.h / 2, x, y, dx, dy)
      && Pixel(Displaced(f, vs, scale).v, f.w / 2, f.h / 2, x, y) == SampleDisplaced(f.v, f.w / 2, f.h / 2, x, y, dx, dy)
  {
    hide SampleDisplaced, IndexOf, ChromaAt, Halved;
    ChromaCell(f, f.u, vs, scale, x, y);
    ChromaCell(f, f.v, vs, scale, x, y);
  }

  lemma ConcealedIsDisplaced(prev: Yuv, last: Yuv, hint: Option<Yuv>, k: nat)
    requires WellFormed(prev) && WellFormed(last) && SameSize(prev, last) && Holding(hint)
    ensures var p := LumaPair(prev, last);
      && Vectors(last, Estimate(p))
      && Concealed(MotionCompensated, Some(prev), Some(last), hint, k) == Some(Displaced(last, Estimate(p), k + 1))
  {
    hide Estimate, Displaced;
  }

  lemma LumaPixel(f: Yuv, vs: seq<MotionVector>, scale: nat, x: nat, y: nat)
    requires WellFormed(f) && Vectors(f, vs) && x < f.w && y < f.h
    ensures var v := vs[IndexOf(f.w, f.h, x, y)];
      Pixel(Displaced(f, vs, scale).y, f.w, f.h, x, y) == SampleDisplaced(f.y, f.w, f.h, x, y, v.dx * scale, v.dy * scale)
  {
    hide SampleDisplaced, IndexOf, LumaAt;
    LumaCell(f, vs, scale, x, y);
  }

  lemma MatchedPixel(p: Pair, b: Block, v: MotionVector, x: nat, y: nat)
    requires Sized(p) && Inside(p, b) && Matches(p, b, v, b.bh)
    requires b.x <= x < b.x + b.bw && b.y <= y < b.y + b.bh
    ensures Pixel(p.cur, p.w, p.h, x, y) == SampleDisplaced(p.ref, p.w, p.h, x, y, v.dx, v.dy)
  {
    hide Pixel, SampleDisplaced;
    assert BlockDifference(p, b, v, x - b.x, y - b.y) == 0;
  }

  /** Blending a frame with itself changes nothing. */
  lemma EqualHintStays(f: Yuv, prev: Option<Yuv>, k: nat)
    requires WellFormed(f) && Holding(prev)
    ensures Concealed(Interpolate, prev, Some(f), Some(f), k) == Some(f)
  {
    hide Weight, Blend;
    assert BlendPlane(f.y, f.y, Weight(k)) == f.y;
    assert BlendPlane(f.u, f.u, Weight(k)) == f.u;
    assert BlendPlane(f.v, f.v, Weight(k)) == f.v;
  }

  /** After a change of size the old frame is kept as the previous one, but motion is never estimated
      from it: until a second frame of the new size arrives the last frame is held. */
  lemma ResizeHolds(h: History, pic: Picture, k: nat)
    requires Sound(h) && Readable(pic) && pic.w > 0 && pic.h > 0
    requires h.last.Some? && (h.last.value.w != pic.w || h.last.value.h != pic.h)
    ensures var h' := AfterReal(h, pic);
      h'.prev == h.last && h'.hint == None
      && forall s: Strategy :: s != Skip ==> Concealed(s, h'.prev, h'.last, h'.hint, k) == Some(Packed(pic))
  {
    hide Packed, Displaced, Blended, Estimate;
  }

  /** What each strategy falls back on: holding always shows the last frame, and so does blending
      without a hint of its size and carrying motion on without a previous frame of its size. */
  lemma FallsBackToLast(s: Strategy, prev: Option<Yuv>, last: Yuv, hint: Option<Yuv>, k: nat)
    requires Holding(prev) && WellFormed(last) && Holding(hint)
    requires s == Hold
      || (s == Interpolate && (hint == None || hint.value.w != last.w || hint.value.h != last.h))
      || (s == MotionCompensated && (prev == None || prev.value.w != last.w || prev.value.h != last.h))
    ensures Concealed(s, prev, Some(last), hint, k) == Some(last)
  {
  }

  /** A byte of a concealed plane is within two of the exact weighted mean, (k + 1) / (k + 2) of the way
      from the last frame to the hint. */
  ghost predicate NearMean(a: seq<Byte>, b: seq<Byte>, out: seq<Byte>, k: nat)
    requires |a| == |b| == |out|
  {
    forall i :: 0 <= i < |out| ==> Abs((out[i] - a[i]) * (k + 2) - (b[i] - a[i]) * (k + 1)) < 2 * (k + 2)
  }

  /** Blending a hint in: all three planes of the frame concealed lie near the weighted mean of the last
      frame and the hint, and in the first concealment of a gap on the mean of the two, rounded down. */
  lemma InterpolatesTowardsHint(prev: Option<Yuv>, last: Yuv, hint: Yuv, k: nat)
    requires Holding(prev) && WellFormed(last) && WellFormed(hint) && SameSize(hint, last)
    ensures var out := Concealed(Interpolate, prev, Some(last), Some(hint), k);
      && out.Some? && WellFormed(out.value) && SameSize(out.value, last)
      && NearMean(last.y, hint.y, out.value.y, k) && NearMean(last.u, hint.u, out.value.u, k) && NearMean(last.v, hint.v, out.value.v, k)
      && (k == 0 ==> HalfWayPlane(last.y, hint.y, out.value.y) && HalfWayPlane(last.u, hint.u, out.value.u) && HalfWayPlane(last.v, hint.v, out.value.v))
  {
    hide Blend, Weight, BlendPlane, NearMean, HalfWayPlane;
    PlaneIsNearMean(last.y, hint.y, k);
    PlaneIsNearMean(last.u, hint.u, k);
    PlaneIsNearMean(last.v, hint.v, k);
  }

  ghost predicate HalfWayPlane(a: seq<Byte>, b: seq<Byte>, out: seq<Byte>)
    requires |a| == |b| == |out|
  {
    forall i :: 0 <= i < |out| ==> out[i] == (a[i] as int + b[i]) / 2
  }

  lemma PlaneIsNearMean(a: seq<Byte>, b: seq<Byte>, k: nat)
    requires |a| == |b|
    ensures NearMean(a, b, BlendPlane(a, b, Weight(k)), k)
    ensures k == 0 ==> HalfWayPlane(a, b, BlendPlane(a, b, Weight(k)))
  {
    hide Blend, Weight;
    forall i | 0 <= i < |a|
      ensures Abs((Blend(a[i], b[i], Weight(k)) - a[i]) * (k + 2) - (b[i] - a[i]) * (k + 1)) < 2 * (k + 2)
      ensures k == 0 ==> Blend(a[i], b[i], Weight(k)) == (a[i] as int + b[i]) / 2
    {
      BlendIsMean(a[i], b[i], k);
    }
  }

  /** A hint serves one request: whatever comes of it, the next one of the gap does without, unless the
      request was refused at the cap, which changes nothing. */
  lemma HintServesOnce(strategy: Strategy, cap: int, h: History)
    requires Sound(h)
    ensures var h' := AfterConceal(strategy, cap, h);
      if h.streak >= cap then h' == h && Emitted(strategy, cap, h) == None
      else h'.streak < cap ==> Emitted(strategy, cap, h') == Concealed(strategy, h.prev, h.last, None, h'.streak)
  {
    hide Concealed, Holding;
  }

  /** Only real frames of one size. */
  ghost predicate Steady(calls: seq<Call>, w: int, h: int)
  {
    0 < w && 0 < h && forall i :: 0 <= i < |calls| ==> calls[i].Real? && calls[i].pic.w == w && calls[i].pic.h == h
  }

  predicate LastFits(h: History, w: int, height: int)
  {
    h.last.Some? ==> h.last.value.w == w && h.last.value.h == height
  }

  lemma {:induction false} FramesKeepHint(strategy: Strategy, cap: int, h: History, calls: seq<Call>, w: int, height: int)
    requires Sound(h) && Acceptable(calls) && Steady(calls, w, height) && LastFits(h, w, height)
    ensures var h' := Run(strategy, cap, h, calls);
      && h'.hint == h.hint && LastFits(h', w, height)
      && (if calls == [] then h' == h else h'.streak == 0 && h'.last == Some(Packed(calls[|calls| - 1].pic)))
    decreases |calls|
  {
    hide Packed, Holding, Readable;
    if calls != [] {
      PackedSize(calls[0].pic);
      FramesKeepHint(strategy, cap, After(strategy, cap, h, calls[0]), calls[1..], w, height);
    }
  }

  lemma PackedSize(pic: Picture)
    requires Readable(pic) && pic.w > 0 && pic.h > 0
    ensures Packed(pic).w == pic.w && Packed(pic).h == pic.h
  {
  }

  /** A hint waits for the next concealment: whatever frames of its size come in between, that
      concealment is blended from the last of them towards the hint. */
  lemma HintWaits(cap: int, h: History, pic: Picture, calls: seq<Call>)
    requires Sound(h) && Readable(pic) && Acceptable(calls) && Steady(calls, pic.w, pic.h) && LastFits(h, pic.w, pic.h)
    requires calls != [] && 0 < cap
    ensures Acceptable([Hint(pic)] + calls)
    ensures var (h', last) := (Run(Interpolate, cap, h, [Hint(pic)] + calls), Packed(calls[|calls| - 1].pic));
      && WellFormed(last) && SameSize(last, Packed(pic))
      && Emitted(Interpolate, cap, h') == Some(Blended(last, Packed(pic), 0))
  {
    hide Packed, Readable, Blended;
    var all := [Hint(pic)] + calls;
    assert all[1..] == calls;
    PackedSize(pic);
    PackedSize(calls[|calls| - 1].pic);
    FramesKeepHint(Interpolate, cap, AfterHint(h, pic), calls, pic.w, pic.h);
  }

  /** Over every run the total counts the frames emitted, modulo 2^64. */
  lemma {:induction false} TotalCountsEmitted(strategy: Strategy, cap: int, h: History, calls: seq<Call>)
    requires Sound(h) && Acceptable(calls)
    ensures Run(strategy, cap, h, calls).total == (h.total + |Output(strategy, cap, h, calls)|) % 0x1_0000_0000_0000_0000
    decreases |calls|
  {
    hide Emitted, After, Holding, Readable;
    if calls == [] {
    } else {
      TotalAfter(strategy, cap, h, calls[0]);
      TotalCountsEmitted(strategy, cap, After(strategy, cap, h, calls[0]), calls[1..]);
    }
  }

  lemma TotalAfter(strategy: Strategy, cap: int, h: History, c: Call)
    requires Sound(h) && (!c.Conceal? ==> Readable(c.pic))
    ensures After(strategy, cap, h, c).total == Low64(h.total + if c.Conceal? && Emitted(strategy, cap, h).Some? then 1 else 0)
  {
    hide Concealed, Packed, Holding, Readable;
  }

  // ---- the class ----

  class VideoPlc {
    const strategy: Strategy
    var lastFrame: Option<Yuv>
    var prevFrame: Option<Yuv>
    var nextFrameHint: Option<Yuv>
    var haveNextHint: bool
    var motionVectors: seq<MotionVector>
    var consecutiveConcealments: nat
    var maxConsecutiveConcealments: int
    var totalConcealments: U64

    ghost function Value(): History
      reads this
    {
      History(prevFrame, lastFrame, if haveNextHint then nextFrameHint else None, consecutiveConcealments, totalConcealments)
    }

    predicate HistoryUsable()
      reads this
    {
      prevFrame.Some? && lastFrame.Some? && SameSize(prevFrame.value, lastFrame.value)
    }

    // Inside a gap the cached vectors are the estimate for the current pair of frames.
    ghost predicate Fresh()
      reads this
      requires Sound(Value())
    {
      strategy == MotionCompensated && consecutiveConcealments > 0 && HistoryUsable() ==>
        motionVectors == Estimate(LumaPair(prevFrame.value, lastFrame.value))
    }

    ghost predicate Valid()
      reads this
    {
      Sound(Value()) && (haveNextHint ==> nextFrameHint.Some?) && Fresh()
    }

    constructor (s: Strategy)
      ensures Valid() && Value() == NO_HISTORY && strategy == s && maxConsecutiveConcealments == 5
    {
      strategy := s;
      lastFrame, prevFrame, nextFrameHint, haveNextHint := None, None, None, false;
      motionVectors, consecutiveConcealments, maxConsecutiveConcealments, totalConcealments := [], 0, DEFAULT_CAP, 0;
    }

    method SetMaxConsecutiveConcealments(n: int)
      requires Valid()
      modifies this`maxConsecutiveConcealments
      ensures Valid() && maxConsecutiveConcealments == n && Value() == old(Value())
    {
      maxConsecutiveConcealments := n;
    }

    method OnRealFrame(pic: Picture)
      requires Valid() && Readable(pic)
      modifies this`lastFrame, this`prevFrame, this`nextFrameHint, this`haveNextHint, this`consecutiveConcealments
      ensures Valid() && Value() == AfterReal(old(Value()), pic)
    {
      hide Packed, Readable, Estimate;
      if pic.w <= 0 || pic.h <= 0 {
        return;
      }
      if lastFrame.Some? && (lastFrame.value.w != pic.w || lastFrame.value.h != pic.h) {
        prevFrame := None;
        nextFrameHint := None;
        haveNextHint := false;
      }
      if lastFrame.Some? {
        prevFrame := lastFrame;
      }
      var f := CopyFrom(pic);
      lastFrame := Some(f);
      consecutiveConcealments := 0;
    }

    method HintNextFrame(pic: Picture)
      requires Valid() && Readable(pic)
      modifies this`nextFrameHint, this`haveNextHint
      ensures Valid() && Value() == AfterHint(old(Value()), pic)
    {
      hide Packed, Readable, Estimate;
      if pic.w <= 0 || pic.h <= 0 {
        return;
      }
      var f := CopyFrom(pic);
      nextFrameHint := Some(f);
      haveNextHint := true;
    }

    method Conceal() returns (out: Option<Yuv>)
      requires Valid()
      modifies this`haveNextHint, this`consecutiveConcealments, this`totalConcealments, this`motionVectors
      ensures Valid()
      ensures out == Emitted(strategy, maxConsecutiveConcealments, old(Value()))
      ensures Value() == AfterConceal(strategy, maxConsecutiveConcealments, old(Value()))
    {
      hide Estimate, Displaced, Blended;
      if consecutiveConcealments >= maxConsecutiveConcealments {
        return None;
      }
      match strategy {
        case Skip => out := None;
        case Hold => out := lastFrame;
        case Interpolate => out := ConcealInterp();
        case MotionCompensated => out := ConcealMotion();
      }
      haveNextHint := false;
      if out.Some? {
        consecutiveConcealments := consecutiveConcealments + 1;
        totalConcealments := Low64(totalConcealments + 1);
      }
    }

    method ConcealInterp() returns (out: Option<Yuv>)
      requires Valid()
      ensures out == Concealed(Interpolate, Value().prev, Value().last, Value().hint, consecutiveConcealments)
    {
      hide Blend;
      if lastFrame == None {
        return None;
      }
      var last := lastFrame.value;
      if !(haveNextHint && nextFrameHint.Some? && SameSize(nextFrameHint.value, last)) {
        return lastFrame;
      }
      var hint := nextFrameHint.value;
      var weight := (consecutiveConcealments + 1) * 256 / (consecutiveConcealments + 2);
      assert weight == Weight(consecutiveConcealments);
      var y := BlendPlanes(last.y, hint.y, weight);
      var u := BlendPlanes(last.u, hint.u, weight);
      var v := BlendPlanes(last.v, hint.v, weight);
      out := Some(Yuv(last.w, last.h, y, u, v));
    }

    method ConcealMotion() returns (out: Option<Yuv>)
      requires Valid() && strategy == MotionCompensated
      modifies this`motionVectors
      ensures Value() == old(Value())
      ensures HistoryUsable() ==> motionVectors == Estimate(LumaPair(prevFrame.value, lastFrame.value))
      ensures out == Concealed(MotionCompensated, Value().prev, Value().last, Value().hint, consecutiveConcealments)
    {
      hide Estimate, Luma, Chroma;
      if lastFrame == None {
        return None;
      }
      if !HistoryUsable() {
        return lastFrame;
      }
      if consecutiveConcealments == 0 {
        EstimateMotion();
      }
      var last, scale := lastFrame.value, consecutiveConcealments + 1;
      var y := DisplaceLuma(last, motionVectors, scale);
      var u := DisplaceChroma(last, last.u, motionVectors, scale);
      var v := DisplaceChroma(last, last.v, motionVectors, scale);
      out := Some(Yuv(last.w, last.h, y, u, v));
    }

    method EstimateMotion()
      requires Sound(Value()) && HistoryUsable()
      modifies this`motionVectors
      ensures motionVectors == Estimate(LumaPair(prevFrame.value, lastFrame.value))
    {
      hide Search, BlockAt, VectorAt, Blocks, RowStart, WellFormed, Sized;
      ghost var p := LumaPair(prevFrame.value, lastFrame.value);
      var w, h := lastFrame.value.w, lastFrame.value.h;
      var columns, rows := Blocks(w), Blocks(h);
      motionVectors := seq(columns * rows, _ => ZERO);
      RowEnds(columns, rows);
      for row := 0 to rows
        invariant |motionVectors| == columns * rows
        invariant forall j :: 0 <= j < RowStart(row, columns) && j < |motionVectors| ==> motionVectors[j] == VectorAt(p, j)
      {
        EstimateRow(row);
        NextRow(row, columns);
      }
    }

    method EstimateRow(row: nat)
      requires Sound(Value()) && HistoryUsable()
      requires row < Blocks(lastFrame.value.h) && |motionVectors| == Blocks(lastFrame.value.w) * Blocks(lastFrame.value.h)
      modifies this`motionVectors
      ensures |motionVectors| == old(|motionVectors|)
      ensures var p := LumaPair(prevFrame.value, lastFrame.value);
        && RowStart(row, Blocks(p.w)) + Blocks(p.w) <= |motionVectors|
        && (forall j :: 0 <= j < RowStart(row, Blocks(p.w)) ==> motionVectors[j] == old(motionVectors)[j])
        && (forall j :: RowStart(row, Blocks(p.w)) <= j < RowStart(row, Blocks(p.w)) + Blocks(p.w) ==> motionVectors[j] == VectorAt(p, j))
    {
      hide Search, BlockAt, VectorAt, Blocks, RowStart;
      var p := LumaPair(prevFrame.value, lastFrame.value);
      var columns := Blocks(p.w);
      RowFits(columns, Blocks(p.h), row);
      var start := RowStart(row, columns);
      for column := 0 to columns
        invariant |motionVectors| == old(|motionVectors|)
        invariant forall j :: 0 <= j < start ==> motionVectors[j] == old(motionVectors)[j]
        invariant forall j :: start <= j < start + column ==> motionVectors[j] == VectorAt(p, j)
      {
        VectorAtCell(p, column, row);
        var v := SearchBlock(p.cur, p.ref, p.w, p.h, BlockAt(p, column, row));
        motionVectors := motionVectors[start + column := v];
      }
    }
  }

  lemma VectorAtCell(p: Pair, column: nat, row: nat)
    requires Sized(p) && column < Blocks(p.w) && row < Blocks(p.h)
    ensures RowStart(row, Blocks(p.w)) + column < Blocks(p.w) * Blocks(p.h)
    ensures VectorAt(p, RowStart(row, Blocks(p.w)) + column) == Search(p, BlockAt(p, column, row))
  {
    hide Search, BlockAt, Blocks;
    Cell(Blocks(p.w), Blocks(p.h), column, row);
  }
}
