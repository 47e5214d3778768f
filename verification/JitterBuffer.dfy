/** The playout buffer: arrival statistics, push and pop, and the class that updates them in place. */
module JitterBuffer {
  import opened Words
  import opened Packets
  import opened SerialNumbers

  const CAPACITY := 50
  const POPS_BETWEEN_ADAPT := 50

  // ---- inter-arrival jitter (section 6.4.1 of RFC 3550) ----

  datatype Stats = Stats(initialized: bool, lastArrival: int, lastTimestamp: U32, lastSequence: U16,
                         observed: nat, lost: nat, outOfOrder: nat, jitter: real)

  const FRESH_STATS := Stats(false, 0, 0, 0, 0, 0, 0, 0.0)

  function ToInt32(n: U32): int { if n < 0x8000_0000 then n else n - 0x1_0000_0000 }

  function Deviation(s: Stats, p: Packet, now: int): nat
  {
    Abs((now - s.lastArrival) - ToInt32(Low32(p.timestamp - s.lastTimestamp)))
  }

  function Observe(s: Stats, p: Packet, now: int): Stats
  {
    if !s.initialized then
      s.(initialized := true, lastArrival := now, lastTimestamp := p.timestamp,
         lastSequence := p.sequence, observed := s.observed + 1)
    else
      var gap := ToInt16(Low16(p.sequence - s.lastSequence));
      s.(lastArrival := now, lastTimestamp := p.timestamp, lastSequence := p.sequence,
         observed := s.observed + 1,
         lost := if gap > 1 then s.lost + gap - 1 else s.lost,
         outOfOrder := if gap < 0 then s.outOfOrder + 1 else s.outOfOrder,
         jitter := s.jitter + (Deviation(s, p, now) as real - s.jitter) / 16.0)
  }

  // ---- the buffer as a value ----

  datatype Buffer = Buffer(packets: map<U16, Packet>, next: U16, threshold: nat, playing: bool, stats: Stats,
                           adaptive: bool, minThreshold: nat, maxThreshold: nat,
                           popsSinceAdapt: nat, adaptations: nat)

  const FRESH := Buffer(map[], 0, 2, false, FRESH_STATS, false, 1, 20, 0, 0)

  ghost predicate WellFormed(b: Buffer)
  {
    && 1 <= b.threshold
    && |b.packets| <= CAPACITY
    && 1 <= b.minThreshold <= b.maxThreshold
    && b.popsSinceAdapt < POPS_BETWEEN_ADAPT
    && 0.0 <= b.stats.jitter
  }

  /** The first key of the ordered map: the numerically smallest one. */
  function FirstKey<V>(m: map<U16, V>): (k: U16)
    requires m != map[]
    ensures k in m && forall j :: j in m ==> k <= j
  {
    assert exists j :: j in m && 0 <= j by { var j :| j in m; assert 0 <= j; }
    FirstKeyFrom(m, 0)
  }

  function FirstKeyFrom<V>(m: map<U16, V>, low: U16): (k: U16)
    requires exists j :: j in m && low <= j
    ensures low <= k && k in m && forall j :: j in m && low <= j ==> k <= j
    decreases 0x1_0000 - low
  {
    if low in m then low else FirstKeyFrom(m, low + 1)
  }

  // ---- push ----

  predicate Late(b: Buffer, sequence: U16) { b.playing && SequenceLess(sequence, b.next) }

  predicate Accepts(b: Buffer, p: Packet) { !Late(b, p.sequence) && |b.packets| < CAPACITY }

  predicate Inserts(b: Buffer, p: Packet) { Accepts(b, p) && p.sequence !in b.packets }

  function Pushed(b: Buffer, p: Packet, now: int): Buffer
  {
    b.(stats := Observe(b.stats, p, now),
       packets := if Inserts(b, p) then b.packets[p.sequence := p] else b.packets)
  }

  // ---- pop ----

  predicate PileUp(b: Buffer) { |b.packets| >= b.threshold + 3 }

  predicate Burst(b: Buffer)
  {
    b.packets != map[] && SequenceLess(Low16(b.next + 5), FirstKey(b.packets))
  }

  predicate Starts(b: Buffer) { !b.playing && |b.packets| >= b.threshold }

  predicate Skips(b: Buffer) { b.playing && b.next !in b.packets && (PileUp(b) || Burst(b)) }

  /** The key the next pop delivers, if it delivers any. */
  function HeadKey(b: Buffer): Option<U16>
    requires WellFormed(b)
  {
    if b.playing && b.next in b.packets then Some(b.next)
    else if Starts(b) || Skips(b) then assert b.packets != map[]; Some(FirstKey(b.packets))
    else None
  }

  function Ceiling(r: real): int { if r.Floor as real == r then r.Floor else r.Floor + 1 }

  /** Twice the smoothed jitter over a base of 20 ms, in frames of 10 ms, within the bounds. */
  function TargetThreshold(jitter: real, low: nat, high: nat): (target: nat)
    requires low <= high
    ensures low <= target <= high
    ensures target < high ==> 20.0 + 2.0 * (jitter / 1000.0) <= 10.0 * target as real
    ensures low < target ==> 10.0 * (target - 1) as real < 20.0 + 2.0 * (jitter / 1000.0)
  {
    var targetMs := 20.0 + 2.0 * (jitter / 1000.0);
    Clamp(Ceiling(targetMs / 10.0), low, high)
  }

  function Target(b: Buffer): nat
    requires WellFormed(b)
  {
    TargetThreshold(b.stats.jitter, b.minThreshold, b.maxThreshold)
  }

  function Slid(threshold: nat, target: nat): nat
  {
    if target > threshold then threshold + 1 else if target < threshold then threshold - 1 else threshold
  }

  function Adapted(b: Buffer): Buffer
    requires WellFormed(b)
  {
    if !b.adaptive then b
    else if b.popsSinceAdapt + 1 < POPS_BETWEEN_ADAPT then b.(popsSinceAdapt := b.popsSinceAdapt + 1)
    else
      b.(threshold := Slid(b.threshold, Target(b)), popsSinceAdapt := 0,
         adaptations := b.adaptations + Abs(Slid(b.threshold, Target(b)) - b.threshold))
  }

  function Popped(b: Buffer): (Buffer, Option<Packet>)
    requires WellFormed(b)
  {
    match HeadKey(b)
    case None => (b, None)
    case Some(k) =>
      (Adapted(b.(playing := true, packets := b.packets - {k}, next := Low16(k + 1))), Some(b.packets[k]))
  }

  lemma StepsKeepWellFormed(b: Buffer, p: Packet, now: int)
    requires WellFormed(b)
    ensures WellFormed(Pushed(b, p, now))
    ensures WellFormed(Popped(b).0)
  {
    match HeadKey(b)
    case None =>
    case Some(k) =>
      assert (b.packets - {k}).Keys == b.packets.Keys - {k};
      assert |b.packets - {k}| == |b.packets.Keys - {k}|;
  }

  lemma PopShape(b: Buffer)
    requires WellFormed(b) && HeadKey(b).Some?
    ensures var k: U16 := HeadKey(b).value;
      var b' := Popped(b).0;
      WellFormed(b') && b'.playing && b'.next == Low16(k + 1) && b'.packets == b.packets - {k}
  {
    StepsKeepWellFormed(b, b.packets[HeadKey(b).value], 0);
  }

  // ---- runs ----

  datatype Event = Arrive(packet: Packet, now: int) | Take

  function Apply(b: Buffer, e: Event): (r: (Buffer, seq<Packet>))
    requires WellFormed(b)
    ensures WellFormed(r.0)
  {
    match e
    case Arrive(p, now) =>
      StepsKeepWellFormed(b, p, now);
      (Pushed(b, p, now), [])
    case Take =>
      StepsKeepWellFormed(b, Packet(0, 0, 0, 0, 0, []), 0);
      var (b', out) := Popped(b);
      (b', if out.Some? then [out.value] else [])
  }

  /** What a run of arrivals and pops leaves in the buffer, and what it delivers. */
  function Run(b: Buffer, events: seq<Event>): (r: (Buffer, seq<Packet>))
    requires WellFormed(b)
    ensures WellFormed(r.0)
    decreases |events|
  {
    if events == [] then (b, [])
    else
      var (b', out) := Apply(b, events[0]);
      var (end, rest) := Run(b', events[1..]);
      (end, out + rest)
  }

  lemma RunNothing(b: Buffer)
    requires WellFormed(b)
    ensures Run(b, []) == (b, [])
  {
  }

  // ---- the class ----

  class PacketJitterBuffer {
    var packets: map<U16, Packet>
    var nextSequence: U16
    var playoutThreshold: nat
    var playing: bool
    var stats: Stats
    var adaptive: bool
    var minThreshold: nat
    var maxThreshold: nat
    var popsSinceAdapt: nat
    var adaptations: nat

    ghost function Value(): Buffer
      reads this
    {
      Buffer(packets, nextSequence, playoutThreshold, playing, stats, adaptive, minThreshold, maxThreshold,
             popsSinceAdapt, adaptations)
    }

    ghost predicate Valid()
      reads this
    {
      WellFormed(Value())
    }

    constructor ()
      ensures Valid() && Value() == FRESH
    {
      packets, nextSequence, playoutThreshold, playing, stats := map[], 0, 2, false, FRESH_STATS;
      adaptive, minThreshold, maxThreshold, popsSinceAdapt, adaptations := false, 1, 20, 0, 0;
    }

    method SetPlayoutThreshold(threshold: nat)
      requires Valid()
      modifies this`playoutThreshold
      ensures Value() == old(Value()).(threshold := threshold)
      ensures Valid() <==> 1 <= threshold   // with 0, pop would read the first packet of an empty buffer
    {
      playoutThreshold := threshold;
    }

    method SetAdaptiveBounds(minFrames: nat, maxFrames: nat)
      requires Valid()
      modifies this
      ensures Valid()
      ensures Value() == old(Value()).(minThreshold := minThreshold, maxThreshold := maxThreshold)
      ensures minThreshold == (if minFrames > 0 then minFrames else 1)
      ensures minThreshold <= maxThreshold && maxFrames <= maxThreshold
      ensures maxThreshold == maxFrames || maxThreshold == minThreshold
    {
      minThreshold := if minFrames > 0 then minFrames else 1;
      maxThreshold := if maxFrames > minThreshold then maxFrames else minThreshold;
    }

    method Push(p: Packet, now: int) returns (accepted: bool)
      requires Valid()
      modifies this
      ensures Valid()
      ensures Value() == Pushed(old(Value()), p, now)
      ensures accepted == Accepts(old(Value()), p)
    {
      StepsKeepWellFormed(Value(), p, now);
      stats := Observe(stats, p, now);
      if playing && SequenceLess(p.sequence, nextSequence) {
        return false;
      }
      if |packets| >= CAPACITY {
        return false;
      }
      if p.sequence !in packets {
        packets := packets[p.sequence := p];
      }
      return true;
    }

    method Pop() returns (out: Option<Packet>)
      requires Valid()
      modifies this
      ensures Valid()
      ensures (Value(), out) == Popped(old(Value()))
    {
      var ready := SeekHead();
      if !ready {
        return None;
      }
      out := Some(packets[nextSequence]);
      RemoveHead();
      AdaptPlayout();
    }

    method RemoveHead()
      requires Valid() && nextSequence in packets
      modifies this`packets, this`nextSequence
      ensures Valid()
      ensures Value() == old(Value()).(packets := old(packets) - {old(nextSequence)}, next := Low16(old(nextSequence) + 1))
    {
      assert (packets - {nextSequence}).Keys == packets.Keys - {nextSequence};
      assert |packets - {nextSequence}| == |packets.Keys - {nextSequence}|;
      packets := packets - {nextSequence};
      nextSequence := Low16(nextSequence + 1);
    }

    // The head of pop: start playback, or give up on a missing head and jump to the first key.
    method SeekHead() returns (ready: bool)
      requires Valid()
      modifies this`playing, this`nextSequence
      ensures ready == HeadKey(old(Value())).Some?
      ensures ready ==> playing && Some(nextSequence) == HeadKey(old(Value()))
      ensures !ready ==> Value() == old(Value())
      ensures ready ==> nextSequence in packets
    {
      if !playing {
        if |packets| < playoutThreshold {
          return false;
        }
        playing := true;
        nextSequence := FirstKey(packets);
      }
      if nextSequence !in packets {
        var pileUp := |packets| >= playoutThreshold + 3;
        var burst := packets != map[] && SequenceLess(Low16(nextSequence + 5), FirstKey(packets));
        if !pileUp && !burst {
          return false;
        }
        nextSequence := FirstKey(packets);
      }
      return true;
    }

    // The tail of pop: every fiftieth successful pop moves the threshold one step.
    method AdaptPlayout()
      requires Valid()
      modifies this
      ensures Valid() && Value() == Adapted(old(Value()))
    {
      if adaptive {
        popsSinceAdapt := popsSinceAdapt + 1;
        if popsSinceAdapt >= POPS_BETWEEN_ADAPT {
          var target := TargetThreshold(stats.jitter, minThreshold, maxThreshold);
          if target > playoutThreshold {
            playoutThreshold, adaptations := playoutThreshold + 1, adaptations + 1;
          } else if target < playoutThreshold {
            playoutThreshold, adaptations := playoutThreshold - 1, adaptations + 1;
          }
          popsSinceAdapt := 0;
        }
      }
    }
  }
}
