/** Joining the payloads of in-order packets back into frames. */
module VideoReassembler {
  import opened Words
  import opened Packets

  datatype Assembly = Assembly(buffer: seq<Byte>, timestamp: U32, haveTimestamp: bool, ready: bool)

  const EMPTY := Assembly([], 0, false, false)

  /** Whether a packet starts from an empty buffer: the last frame was complete, or time moved on. */
  predicate Clears(a: Assembly, p: Packet)
  {
    a.ready || (a.haveTimestamp && p.timestamp != a.timestamp)
  }

  function Fed(a: Assembly, p: Packet): Assembly
  {
    Assembly((if Clears(a, p) then [] else a.buffer) + p.payload, p.timestamp, true, p.HasMarker())
  }

  class VideoReassembler {
    var frameBuffer: seq<Byte>
    var currentTimestamp: U32
    var haveTimestamp: bool
    var frameReady: bool

    ghost function Value(): Assembly
      reads this
    {
      Assembly(frameBuffer, currentTimestamp, haveTimestamp, frameReady)
    }

    constructor ()
      ensures Value() == EMPTY
    {
      frameBuffer, currentTimestamp, haveTimestamp, frameReady := [], 0, false, false;
    }

    method Feed(p: Packet) returns (completed: bool)
      modifies this
      ensures Value() == Fed(old(Value()), p)
      ensures completed == Value().ready
    {
      if frameReady {
        frameBuffer := [];
        frameReady := false;
      }
      if haveTimestamp && p.timestamp != currentTimestamp {
        frameBuffer := [];
      }
      currentTimestamp := p.timestamp;
      haveTimestamp := true;
      frameBuffer := frameBuffer + p.payload;
      if p.HasMarker() {
        frameReady := true;
        return true;
      }
      completed := false;
    }

    method TakeCompleteFrame() returns (frame: seq<Byte>)
      ensures frame == if Value().ready then Value().buffer else []
    {
      frame := if frameReady then frameBuffer else [];
    }
  }

  /** After a fragment whose frame lost its mark, a marked fragment completes its own bytes alone exactly
      when the two timestamps differ (or the orphan carried nothing). */
  lemma OrphanIsAbandonedIff(a: Assembly, orphan: Packet, last: Packet)
    requires !orphan.HasMarker() && last.HasMarker() && Clears(a, orphan)
    ensures Fed(Fed(a, orphan), last).ready
    ensures Fed(Fed(a, orphan), last).buffer == last.payload
      <==> orphan.timestamp != last.timestamp || orphan.payload == []
  {
    assert [] + last.payload == last.payload && [] + orphan.payload == orphan.payload;
    if orphan.timestamp == last.timestamp && orphan.payload != [] {
      assert |orphan.payload + last.payload| > |last.payload|;
    }
  }
}
