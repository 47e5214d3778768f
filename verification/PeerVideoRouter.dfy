/** One video source of the router: loss detection at frame boundaries, and the calls made to the
    concealer and the decoder. */
module PeerVideoRouter {
  import opened Words
  import opened Packets
  import opened JitterBuffer
  import opened VideoReassembler

  const MAX_MISSED_STEPS := 30

  datatype Call = Conceal | Decode(frame: seq<Byte>)

  datatype Source = Source(assembly: Assembly, timestamp: U32, haveTimestamp: bool, frameCompleted: bool, step: U32,
                           lastSequence: U16, haveSequence: bool, dropped: nat, missed: nat, calls: seq<Call>)

  const NEW_SOURCE := Source(EMPTY, 0, false, true, 0, 0, false, 0, 0, [])

  predicate Contiguous(s: Source, p: Packet) { s.haveSequence && Low16(s.lastSequence + 1) == p.sequence }

  predicate Boundary(s: Source, p: Packet) { s.haveTimestamp && p.timestamp != s.timestamp }

  function Vanished(s: Source, p: Packet): nat
  {
    if !Boundary(s, p) || Contiguous(s, p) || s.step == 0 then 0
    else
      var steps := Low32(p.timestamp - s.timestamp) / s.step;
      if 1 < steps <= MAX_MISSED_STEPS then steps - 1 else 0
  }

  function Abandoned(s: Source, p: Packet): nat { if Boundary(s, p) && !s.frameCompleted then 1 else 0 }

  function LearnedStep(s: Source, p: Packet): U32
  {
    if Boundary(s, p) && Contiguous(s, p) then Low32(p.timestamp - s.timestamp) else s.step
  }

  function Conceals(n: nat): (calls: seq<Call>)
    ensures |calls| == n
  {
    seq(n, _ => Conceal)
  }

  function Routed(s: Source, p: Packet): Source
  {
    var assembly := Fed(s.assembly, p);
    var newFrame := !s.haveTimestamp || Boundary(s, p);
    Source(assembly, p.timestamp, true,
           assembly.ready || (!newFrame && s.frameCompleted),
           LearnedStep(s, p), p.sequence, true,
           s.dropped + Abandoned(s, p), s.missed + Vanished(s, p),
           s.calls + Conceals(Abandoned(s, p) + Vanished(s, p))
           + Decodes(assembly))
  }

  function Decodes(a: Assembly): seq<Call> { if a.ready then [Decode(a.buffer)] else [] }

  function RoutedAll(s: Source, packets: seq<Packet>): Source
  {
    if packets == [] then s else Routed(RoutedAll(s, packets[..|packets| - 1]), packets[|packets| - 1])
  }

  /** Popping until the buffer has nothing ready. */
  function Drained(b: Buffer): (r: (Buffer, seq<Packet>))
    requires WellFormed(b)
    ensures WellFormed(r.0)
    decreases |b.packets|
  {
    if HeadKey(b).None? then (b, [])
    else
      PopShrinks(b);
      var (b', out) := Popped(b);
      var (end, rest) := Drained(b');
      (end, [out.value] + rest)
  }

  lemma PopShrinks(b: Buffer)
    requires WellFormed(b) && HeadKey(b).Some?
    ensures WellFormed(Popped(b).0) && |Popped(b).0.packets| < |b.packets|
  {
    var k := HeadKey(b).value;
    PopShape(b);
    assert (b.packets - {k}).Keys == b.packets.Keys - {k};
    assert |b.packets - {k}| == |(b.packets - {k}).Keys|;
  }

  class VideoSource {
    const jitterBuffer: PacketJitterBuffer
    const reassembler: VideoReassembler
    var currentTimestamp: U32
    var haveTimestamp: bool
    var frameCompleted: bool
    var timestampStep: U32
    var lastSequence: U16
    var haveSequence: bool
    var framesDropped: nat
    var framesMissed: nat
    var calls: seq<Call>

    ghost function Value(): Source
      reads this, reassembler
    {
      Source(reassembler.Value(), currentTimestamp, haveTimestamp, frameCompleted, timestampStep, lastSequence,
             haveSequence, framesDropped, framesMissed, calls)
    }

    constructor ()
      ensures Value() == NEW_SOURCE && jitterBuffer.Valid() && jitterBuffer.Value() == FRESH
      ensures fresh(jitterBuffer) && fresh(reassembler)
    {
      jitterBuffer := new PacketJitterBuffer();
      reassembler := new VideoReassembler();
      currentTimestamp, haveTimestamp, frameCompleted, timestampStep := 0, false, true, 0;
      lastSequence, haveSequence, framesDropped, framesMissed, calls := 0, false, 0, 0, [];
    }

    method Pump()
      requires jitterBuffer.Valid()
      modifies this, jitterBuffer, reassembler
      ensures jitterBuffer.Valid()
      ensures jitterBuffer.Value() == Drained(old(jitterBuffer.Value())).0
      ensures Value() == RoutedAll(old(Value()), Drained(old(jitterBuffer.Value())).1)
    {
      hide Routed, Adapted;
      ghost var start, source, popped := jitterBuffer.Value(), Value(), [];
      var more := true;
      assert [] + Drained(start).1 == Drained(start).1;
      while more
        invariant jitterBuffer.Valid()
        invariant Value() == RoutedAll(source, popped)
        invariant Drained(start) == (Drained(jitterBuffer.Value()).0, popped + Drained(jitterBuffer.Value()).1)
        invariant !more ==> Drained(jitterBuffer.Value()) == (jitterBuffer.Value(), [])
        decreases |jitterBuffer.packets|, more
      {
        ghost var before := jitterBuffer.Value();
        var out := jitterBuffer.Pop();
        if out.None? {
          more := false;
        } else {
          PopShrinks(before);
          Route(out.value);
          Assoc(popped, [out.value], Drained(jitterBuffer.Value()).1);
          popped := popped + [out.value];
          assert popped[..|popped| - 1] + [out.value] == popped;
        }
      }
      assert popped + [] == popped;
    }

    // The body of the pump loop for one packet.
    method Route(p: Packet)
      modifies this, reassembler
      ensures Value() == Routed(old(Value()), p)
    {
      hide Fed, Decodes, Vanished, Abandoned, LearnedStep, Conceals;
      ghost var before := Value();
      var contiguous := haveSequence && Low16(lastSequence + 1) == p.sequence;
      lastSequence := p.sequence;
      haveSequence := true;
      var timestampChanged := haveTimestamp && p.timestamp != currentTimestamp;
      AccountLoss(p, contiguous, timestampChanged, before);
      if !haveTimestamp || timestampChanged {
        currentTimestamp := p.timestamp;
        haveTimestamp := true;
        frameCompleted := false;
      }
      Assemble(p);
    }

    method Assemble(p: Packet)
      modifies this`frameCompleted, this`calls, reassembler
      ensures reassembler.Value() == Fed(old(reassembler.Value()), p)
      ensures frameCompleted == (old(frameCompleted) || reassembler.Value().ready)
      ensures calls == old(calls) + Decodes(reassembler.Value())
    {
      var completed := reassembler.Feed(p);
      if completed {
        frameCompleted := true;
        var frame := reassembler.TakeCompleteFrame();
        calls := calls + [Decode(frame)];
      }
    }

    // What a frame boundary says about the frames before it.
    method AccountLoss(p: Packet, contiguous: bool, timestampChanged: bool, ghost before: Source)
      requires before == Value().(lastSequence := before.lastSequence, haveSequence := before.haveSequence)
      requires contiguous == Contiguous(before, p) && timestampChanged == Boundary(before, p)
      modifies this`framesDropped, this`framesMissed, this`timestampStep, this`calls
      ensures framesDropped == before.dropped + Abandoned(before, p)
      ensures framesMissed == before.missed + Vanished(before, p)
      ensures timestampStep == LearnedStep(before, p)
      ensures calls == before.calls + Conceals(Abandoned(before, p) + Vanished(before, p))
    {
      var toConceal := 0;
      if timestampChanged {
        if !frameCompleted {
          framesDropped := framesDropped + 1;
          toConceal := toConceal + 1;
        }
        var delta := Low32(p.timestamp - currentTimestamp);
        if contiguous {
          timestampStep := delta;
        } else if timestampStep != 0 {
          var steps := delta / timestampStep;
          if steps > 1 && steps <= MAX_MISSED_STEPS {
            framesMissed := framesMissed + steps - 1;
            toConceal := toConceal + steps - 1;
          }
        }
      }
      ConcealMany(toConceal);
    }

    method ConcealMany(n: nat)
      modifies this`calls
      ensures calls == old(calls) + Conceals(n)
    {
      for i := 0 to n
        invariant calls == old(calls) + Conceals(i)
      {
        assert Conceals(i + 1) == Conceals(i) + [Conceal];
        Assoc(old(calls), Conceals(i), [Conceal]);
        calls := calls + [Conceal];
      }
    }
  }
}
