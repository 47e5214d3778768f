/** Splitting encoded frames into packets, and the layout of the stream this produces. */
module VideoPacketizer {
  import opened Words
  import opened Packets

  datatype Sender = Sender(ssrc: U32, sequence: U16, timestamp: U32, step: U32, payloadType: Byte)

  function Fragment(s: Sender, bytes: seq<Byte>, offset: nat, size: nat): Packet
    requires offset + size <= |bytes|
  {
    Packet(s.ssrc, s.timestamp, s.sequence, s.payloadType,
           if offset + size == |bytes| then MARKER_FLAG else 0, bytes[offset..offset + size])
  }

  function ChunkSize(remaining: nat): nat { Min(remaining, MAX_VIDEO_CHUNK) }

  /** The packets of a frame from an offset on. */
  function Fragments(s: Sender, bytes: seq<Byte>, offset: nat): seq<Packet>
    requires offset <= |bytes|
    decreases |bytes| - offset
  {
    if offset == |bytes| then []
    else
      var size := ChunkSize(|bytes| - offset);
      [Fragment(s, bytes, offset, size)] + Fragments(s.(sequence := Low16(s.sequence + 1)), bytes, offset + size)
  }

  /** The sender after a frame: an empty frame changes nothing. */
  function SentFrame(s: Sender, bytes: seq<Byte>): Sender
  {
    if bytes == [] then s
    else s.(sequence := Low16(s.sequence + |Fragments(s, bytes, 0)|), timestamp := Low32(s.timestamp + s.step))
  }

  function SentFrames(s: Sender, frames: seq<seq<Byte>>): seq<Packet>
    decreases |frames|
  {
    if frames == [] then [] else Fragments(s, frames[0], 0) + SentFrames(SentFrame(s, frames[0]), frames[1..])
  }

  class VideoPacketizer {
    var ssrc: U32
    var sequence: U16
    var timestamp: U32
    var timestampStep: U32
    var payloadType: Byte

    ghost function Value(): Sender
      reads this
    {
      Sender(ssrc, sequence, timestamp, timestampStep, payloadType)
    }

    method Init(newSsrc: U32, stepPerFrame: U32, newPayloadType: Byte)
      modifies this
      ensures Value() == Sender(newSsrc, 0, 0, stepPerFrame, newPayloadType)
    {
      ssrc, sequence, timestamp, timestampStep, payloadType := newSsrc, 0, 0, stepPerFrame, newPayloadType;
    }

    method PacketizeFrame(bytes: seq<Byte>) returns (packets: seq<Packet>)
      modifies this
      ensures packets == Fragments(old(Value()), bytes, 0)
      ensures Value() == SentFrame(old(Value()), bytes)
    {
      hide Fragments;
      packets := [];
      FragmentsEnd(Value(), bytes);
      if bytes == [] {
        return;
      }
      ghost var start := Value();
      var offset := 0;
      assert [] + Fragments(start, bytes, 0) == Fragments(start, bytes, 0);
      while offset < |bytes|
        invariant 0 <= offset <= |bytes|
        invariant sequence == Low16(start.sequence + |packets|)
        invariant Value() == start.(sequence := sequence)
        invariant packets + Fragments(Value(), bytes, offset) == Fragments(start, bytes, 0)
      {
        var remaining := |bytes| - offset;
        var thisChunk := if remaining < MAX_VIDEO_CHUNK then remaining else MAX_VIDEO_CHUNK;
        var isLast := offset + thisChunk == |bytes|;
        var packet := Packet(ssrc, timestamp, sequence, payloadType, if isLast then MARKER_FLAG else 0,
                             bytes[offset..offset + thisChunk]);
        ghost var rest := Fragments(Value().(sequence := Low16(sequence + 1)), bytes, offset + thisChunk);
        FragmentsStep(Value(), bytes, offset);
        Assoc(packets, [packet], rest);
        sequence := Low16(sequence + 1);
        packets := packets + [packet];
        offset := offset + thisChunk;
      }
      FragmentsEnd(Value(), bytes);
      assert packets + [] == packets;
      timestamp := Low32(timestamp + timestampStep);
    }
  }

  lemma FragmentsStep(s: Sender, bytes: seq<Byte>, offset: nat)
    requires offset < |bytes|
    ensures var size := ChunkSize(|bytes| - offset);
      Fragments(s, bytes, offset)
        == [Fragment(s, bytes, offset, size)] + Fragments(s.(sequence := Low16(s.sequence + 1)), bytes, offset + size)
  {
  }

  lemma FragmentsEnd(s: Sender, bytes: seq<Byte>)
    ensures Fragments(s, bytes, |bytes|) == []
  {
  }

  // ---- the layout of a stream ----

  /** owner[x] is the frame packet x belongs to.  Frames follow each other without a gap, exactly the
      last packet of a frame is marked, and all packets of a frame carry its timestamp. */
  ghost predicate Layout(stream: seq<Packet>, owner: seq<nat>, step: U32, firstFrame: nat)
  {
    && |owner| == |stream|
    && (forall x :: 0 <= x < |stream| - 1 ==> Follows(stream[x], owner[x], owner[x + 1]))
    && (|stream| > 0 ==> owner[0] == firstFrame && stream[|stream| - 1].HasMarker())
    && (forall x :: 0 <= x < |stream| ==> stream[x].timestamp == FrameTime(owner[x], step))
  }

  ghost predicate Follows(p: Packet, frame: nat, next: nat)
  {
    next == (if p.HasMarker() then frame + 1 else frame)
  }

  function FrameTime(frame: nat, step: U32): U32 { Low32(frame * step) }

  lemma NextFrameTime(frame: nat, step: U32)
    ensures Low32(FrameTime(frame, step) + step) == FrameTime(frame + 1, step)
  {
    RowAfter(frame, step);
    Low32Sum(frame * step, step);
  }

  lemma Low32Sum(x: nat, y: nat)
    ensures Low32(Low32(x) + y) == Low32(x + y)
  {
  }

  function Joined(packets: seq<Packet>): seq<Byte>
  {
    if packets == [] then [] else Joined(packets[..|packets| - 1]) + packets[|packets| - 1].payload
  }

  lemma {:induction false} JoinedAppend(a: seq<Packet>, b: seq<Packet>)
    ensures Joined(a + b) == Joined(a) + Joined(b)
    decreases |b|
  {
    if b == [] {
      assert a + b == a;
    } else {
      var n := |b| - 1;
      AppendLast(a, b);
      JoinedAppend(a, b[..n]);
      Assoc(Joined(a), Joined(b[..n]), b[n].payload);
    }
  }

  /** The packets of frame i are those numbered from low to high, and together they carry the frame. */
  ghost predicate Carries(stream: seq<Packet>, owner: seq<nat>, frame: seq<Byte>, i: nat, low: nat, high: nat)
  {
    && low < high <= |stream| == |owner|
    && (forall x :: 0 <= x < |owner| ==> (owner[x] == i <==> low <= x < high))
    && Joined(stream[low..high]) == frame
  }

  // One frame.

  lemma JoinedOne(p: Packet)
    ensures Joined([p]) == p.payload
  {
    assert [p][..0] == [];
    assert Joined([]) + p.payload == p.payload;
  }

  lemma {:induction false} FragmentsJoin(s: Sender, bytes: seq<Byte>, offset: nat)
    requires offset <= |bytes|
    ensures Joined(Fragments(s, bytes, offset)) == bytes[offset..]
    decreases |bytes| - offset
  {
    if offset < |bytes| {
      var size := ChunkSize(|bytes| - offset);
      var first := Fragment(s, bytes, offset, size);
      var s' := s.(sequence := Low16(s.sequence + 1));
      FragmentsJoin(s', bytes, offset + size);
      JoinedOne(first);
      JoinedAppend([first], Fragments(s', bytes, offset + size));
      SplitAt(bytes, offset, offset + size);
    }
  }

  ghost predicate Framed(out: seq<Packet>, timestamp: U32)
  {
    && (forall x :: 0 <= x < |out| ==> (out[x].HasMarker() <==> x == |out| - 1))
    && (forall x :: 0 <= x < |out| ==> out[x].timestamp == timestamp)
    && (forall x :: 0 <= x < |out| ==> 0 < |out[x].payload| <= MAX_VIDEO_CHUNK)
  }

  ghost predicate Sequenced(out: seq<Packet>, first: int)
  {
    forall x :: 0 <= x < |out| ==> out[x].sequence == Low16(first + x)
  }

  /** A frame's fragments: one mark, on the last; one timestamp; consecutive sequence numbers. */
  lemma {:induction false} FragmentsShape(s: Sender, bytes: seq<Byte>, offset: nat)
    requires offset <= |bytes|
    ensures Framed(Fragments(s, bytes, offset), s.timestamp)
    ensures Sequenced(Fragments(s, bytes, offset), s.sequence)
    ensures offset < |bytes| ==> |Fragments(s, bytes, offset)| > 0
    decreases |bytes| - offset
  {
    if offset < |bytes| {
      var size := ChunkSize(|bytes| - offset);
      var s' := s.(sequence := Low16(s.sequence + 1));
      FragmentsShape(s', bytes, offset + size);
      PrependShape(Fragment(s, bytes, offset, size), Fragments(s', bytes, offset + size), s.sequence);
    }
  }

  /** Every packet names the sender's stream and kind, and all but the last are filled to 1200 bytes. */
  lemma {:induction false} FragmentsNameSender(s: Sender, bytes: seq<Byte>, offset: nat)
    requires offset <= |bytes|
    ensures var out := Fragments(s, bytes, offset);
      && (forall x :: 0 <= x < |out| ==> out[x].ssrc == s.ssrc && out[x].payloadType == s.payloadType)
      && (forall x :: 0 <= x < |out| - 1 ==> |out[x].payload| == 1200)
      && (forall x :: 0 <= x < |out| ==> 0 < |out[x].payload| <= 1200)
      && |out| == (|bytes| - offset + 1199) / 1200
    decreases |bytes| - offset
  {
    if offset < |bytes| {
      var size := ChunkSize(|bytes| - offset);
      var rest := Fragments(s.(sequence := Low16(s.sequence + 1)), bytes, offset + size);
      FragmentsNameSender(s.(sequence := Low16(s.sequence + 1)), bytes, offset + size);
      var out := Fragments(s, bytes, offset);
      assert forall x :: 0 < x < |out| ==> out[x] == rest[x - 1];
    }
  }

  /** So does every packet of a stream. */
  lemma {:induction false} SentNamesSender(s: Sender, frames: seq<seq<Byte>>)
    ensures forall p :: p in SentFrames(s, frames) ==> p.ssrc == s.ssrc && p.payloadType == s.payloadType
    decreases |frames|
  {
    if frames == [] {
    } else {
      FragmentsNameSender(s, frames[0], 0);
      SentNamesSender(SentFrame(s, frames[0]), frames[1..]);
    }
  }

  lemma PrependShape(first: Packet, rest: seq<Packet>, sequence: U16)
    requires Framed(rest, first.timestamp) && Sequenced(rest, Low16(sequence + 1))
    requires first.HasMarker() <==> rest == []
    requires 0 < |first.payload| <= MAX_VIDEO_CHUNK && first.sequence == sequence
    ensures Framed([first] + rest, first.timestamp) && Sequenced([first] + rest, sequence)
  {
    var out := [first] + rest;
    forall x | 0 <= x < |out| ensures out[x].sequence == Low16(sequence + x) {
      if x > 0 {
        assert out[x] == rest[x - 1];
        assert Low16(Low16(sequence + 1) + (x - 1)) == Low16(sequence + x);
      }
    }
  }

  // All frames.

  function Repeated(i: nat, n: nat): (r: seq<nat>)
    ensures |r| == n
  {
    seq(n, _ => i)
  }

  function Owners(s: Sender, frames: seq<seq<Byte>>, firstFrame: nat): seq<nat>
    decreases |frames|
  {
    if frames == [] then []
    else
      Repeated(firstFrame, |Fragments(s, frames[0], 0)|)
      + Owners(SentFrame(s, frames[0]), frames[1..], firstFrame + 1)
  }

  ghost predicate NonEmpty(frames: seq<seq<Byte>>)
  {
    forall i :: 0 <= i < |frames| ==> frames[i] != []
  }

  lemma FrameLayout(out: seq<Packet>, i: nat, step: U32)
    requires Framed(out, FrameTime(i, step)) && |out| > 0
    ensures Layout(out, Repeated(i, |out|), step, i)
  {
  }

  lemma JoinLayouts(a: seq<Packet>, ownA: seq<nat>, b: seq<Packet>, ownB: seq<nat>, step: U32, i: nat)
    requires |a| > 0 && Layout(a, ownA, step, i) && ownA[|ownA| - 1] == i
    requires Layout(b, ownB, step, i + 1)
    ensures Layout(a + b, ownA + ownB, step, i)
  {
    var (c, own) := (a + b, ownA + ownB);
    forall x | 0 <= x < |c| - 1 ensures Follows(c[x], own[x], own[x + 1]) {
      if x >= |a| {
        assert Follows(b[x - |a|], ownB[x - |a|], ownB[x - |a| + 1]);
      }
    }
    assert b != [] ==> c[|c| - 1] == b[|b| - 1];
  }

  lemma JoinSequenced(a: seq<Packet>, b: seq<Packet>, first: int)
    requires Sequenced(a, first) && Sequenced(b, first + |a|)
    ensures Sequenced(a + b, first)
  {
  }

  /** What the packetizer sends for a list of frames is a stamped stream with the layout above. */
  lemma {:induction false} SentLayout(s: Sender, frames: seq<seq<Byte>>, first: nat, i: nat)
    requires NonEmpty(frames) && s.sequence == Low16(first) && s.timestamp == FrameTime(i, s.step)
    ensures Layout(SentFrames(s, frames), Owners(s, frames, i), s.step, i)
    ensures Sequenced(SentFrames(s, frames), first)
    decreases |frames|
  {
    hide Layout, Framed, Sequenced, Fragments, FrameTime;
    if frames == [] {
      NothingLayout(s, first, i);
    } else {
      var out := Fragments(s, frames[0], 0);
      var s' := SentFrame(s, frames[0]);
      FragmentsShape(s, frames[0], 0);
      FrameLayout(out, i, s.step);
      NextFrameTime(i, s.step);
      assert s'.sequence == Low16(first + |out|);
      SentLayout(s', frames[1..], first + |out|, i + 1);
      JoinLayouts(out, Repeated(i, |out|), SentFrames(s', frames[1..]), Owners(s', frames[1..], i + 1), s.step, i);
      SequencedLow(out, s.sequence, first);
      JoinSequenced(out, SentFrames(s', frames[1..]), first);
    }
  }

  lemma NothingLayout(s: Sender, first: nat, i: nat)
    ensures Layout([], [], s.step, i) && Sequenced([], first)
  {
  }

  lemma SequencedLow(out: seq<Packet>, low: U16, first: nat)
    requires low == Low16(first) && Sequenced(out, low)
    ensures Sequenced(out, first)
  {
    forall x | 0 <= x < |out| ensures out[x].sequence == Low16(first + x) {
      assert Low16(low + x) == Low16(first + x);
    }
  }

  /** Every frame is carried whole by a contiguous block of the stream. */
  lemma {:induction false} SentCarries(s: Sender, frames: seq<seq<Byte>>, i: nat, j: nat) returns (low: nat, high: nat)
    requires NonEmpty(frames) && j < |frames|
    ensures |Owners(s, frames, i)| == |SentFrames(s, frames)|
    ensures Carries(SentFrames(s, frames), Owners(s, frames, i), frames[j], i + j, low, high)
    decreases |frames|
  {
    hide Carries, Fragments, SentFrame;
    var out := Fragments(s, frames[0], 0);
    var s' := SentFrame(s, frames[0]);
    var rest, own := SentFrames(s', frames[1..]), Owners(s', frames[1..], i + 1);
    OwnersBound(s', frames[1..], i + 1);
    if j == 0 {
      low, high := 0, |out|;
      FragmentsShape(s, frames[0], 0);
      FragmentsJoin(s, frames[0], 0);
      assert frames[0][0..] == frames[0];
      HeadCarries(out, i, rest, own, frames[0]);
    } else {
      low, high := SentCarries(s', frames[1..], i + 1, j - 1);
      ShiftCarries(out, i, rest, own, frames[j], i + j, low, high);
      low, high := low + |out|, high + |out|;
    }
  }

  lemma {:induction false} OwnersBound(s: Sender, frames: seq<seq<Byte>>, i: nat)
    ensures |Owners(s, frames, i)| == |SentFrames(s, frames)|
    ensures forall x :: 0 <= x < |Owners(s, frames, i)| ==> Owners(s, frames, i)[x] >= i
    decreases |frames|
  {
    if frames == [] {
    } else {
      OwnersBound(SentFrame(s, frames[0]), frames[1..], i + 1);
    }
  }

  lemma HeadCarries(out: seq<Packet>, i: nat, rest: seq<Packet>, own: seq<nat>, frame: seq<Byte>)
    requires |own| == |rest| && |out| > 0 && Joined(out) == frame
    requires forall x :: 0 <= x < |own| ==> own[x] > i
    ensures Carries(out + rest, Repeated(i, |out|) + own, frame, i, 0, |out|)
  {
    assert (out + rest)[0..|out|] == out;
  }

  lemma ShiftCarries(out: seq<Packet>, i: nat, rest: seq<Packet>, own: seq<nat>, frame: seq<Byte>, j: nat, low: nat, high: nat)
    requires Carries(rest, own, frame, j, low, high) && i < j
    ensures Carries(out + rest, Repeated(i, |out|) + own, frame, j, low + |out|, high + |out|)
  {
    assert (out + rest)[low + |out|..high + |out|] == rest[low..high];
  }

  /** Empty frames leave no trace: they send no packet and do not advance the clock. */
  function WithoutEmpty(frames: seq<seq<Byte>>): (kept: seq<seq<Byte>>)
    ensures NonEmpty(kept)
  {
    if frames == [] then []
    else (if frames[0] == [] then [] else [frames[0]]) + WithoutEmpty(frames[1..])
  }

  lemma {:induction false} EmptyFramesVanish(s: Sender, frames: seq<seq<Byte>>)
    ensures SentFrames(s, frames) == SentFrames(s, WithoutEmpty(frames))
    decreases |frames|
  {
    if frames == [] {
    } else {
      EmptyFramesVanish(SentFrame(s, frames[0]), frames[1..]);
      var kept := WithoutEmpty(frames[1..]);
      if frames[0] != [] {
        assert ([frames[0]] + kept)[0] == frames[0] && ([frames[0]] + kept)[1..] == kept;
      } else {
        assert WithoutEmpty(frames) == kept;
        assert [] + SentFrames(s, kept) == SentFrames(s, kept);
      }
    }
  }
}
