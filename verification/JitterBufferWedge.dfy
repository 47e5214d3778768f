/** A full buffer that delivers nothing: it never happens while the threshold is at most 47, and can be
    brought about whenever the threshold is, or may become, larger. */
module JitterBufferWedge {
  import opened Words
  import opened Packets
  import opened SerialNumbers
  import opened JitterBuffer
  import opened JitterBufferRuns

  const LARGEST_SAFE_THRESHOLD := CAPACITY - 3

  /** A full buffer whose next pop delivers nothing: it rejects every push, so nothing can change. */
  ghost predicate Wedged(b: Buffer)
    requires WellFormed(b)
  {
    |b.packets| == CAPACITY && HeadKey(b).None?
  }

  lemma {:induction false} WedgedForever(b: Buffer, events: seq<Event>)
    requires WellFormed(b) && Wedged(b)
    ensures var (end, delivered) := Run(b, events); Wedged(end) && delivered == []
    decreases |events|
  {
    if events == [] {
    } else {
      assert Wedged(Apply(b, events[0]).0);
      WedgedForever(Apply(b, events[0]).0, events[1..]);
    }
  }

  /** Along every run the threshold stays in range, the buffer within capacity, and a full buffer
      yields a packet and accepts pushes again. */
  lemma {:induction false} NeverWedges(b: Buffer, events: seq<Event>)
    requires WellFormed(b)
    requires b.threshold <= LARGEST_SAFE_THRESHOLD && (b.adaptive ==> b.maxThreshold <= LARGEST_SAFE_THRESHOLD)
    ensures var end := Run(b, events).0;
      && 1 <= end.threshold <= LARGEST_SAFE_THRESHOLD
      && |end.packets| <= CAPACITY
      && !Wedged(end)
      && (|end.packets| >= end.threshold + 3 || (!end.playing && |end.packets| >= end.threshold)
          ==> Popped(end).1.Some? && |Popped(end).0.packets| == |end.packets| - 1)
    decreases |events|
  {
    if events == [] {
      if HeadKey(b).Some? {
        PopShape(b);
        RemoveSmaller(b.packets, HeadKey(b).value);
      }
    } else {
      var b' := Apply(b, events[0]).0;
      assert b'.adaptive == b.adaptive && b'.maxThreshold == b.maxThreshold;
      assert b'.threshold <= LARGEST_SAFE_THRESHOLD;
      NeverWedges(b', events[1..]);
    }
  }

  // A concrete run towards the wedge: numbered packets with nothing else in them.

  function Numbered(i: U16): Packet { Packet(0, 0, i, 0, 0, []) }

  function Span(low: U16, high: U16): (m: map<U16, Packet>)
    requires low <= high
    ensures forall i: U16 :: i in m <==> low <= i < high
    ensures forall i: U16 :: i in m ==> m[i] == Numbered(i)
  {
    map i: U16 | low <= i < high :: Numbered(i)
  }

  function Sends(low: U16, high: U16): seq<Event>
    requires low <= high
    decreases high - low
  {
    if low == high then [] else [Arrive(Numbered(low), 0)] + Sends(low + 1, high)
  }

  lemma {:induction false} SpanSize(low: U16, high: U16)
    requires low <= high
    ensures |Span(low, high)| == high - low
    decreases high - low
  {
    if low == high {
      assert Span(low, high) == map[];
    } else {
      SpanSize(low + 1, high);
      assert Span(low, high) == Span(low + 1, high)[low := Numbered(low)];
    }
  }

  /** Spans at their ends. */
  lemma SpanEnds(low: U16, high: U16)
    requires low < high
    ensures low in Span(low, high) && FirstKey(Span(low, high)) == low
    ensures Span(low, high) - {low} == Span(low + 1, high)
    ensures high - 1 !in Span(low, high - 1) && Span(low, high) == Span(low, high - 1)[high - 1 := Numbered(high - 1)]
  {
  }

  const FAR := 0x4000

  /** b holds the packets numbered first to low, and high is within reach; then the packets up to
      high are all taken in. */
  lemma {:induction false} SendsFill(b: Buffer, first: U16, low: U16, high: U16)
    requires WellFormed(b)
    requires first <= low <= high <= first + CAPACITY && high < FAR
    requires b.packets == Span(first, low)
    requires b.playing ==> b.next <= low
    ensures var (end, out) := Run(b, Sends(low, high));
      && out == []
      && end.packets == Span(first, high)
      && end.(stats := b.stats, packets := b.packets) == b
      && (low < high ==> end.stats.initialized)
    decreases high - low
  {
    hide Apply;
    if low == high {
    } else {
      SendTakenIn(b, first, low);
      SendsFill(Apply(b, Arrive(Numbered(low), 0)).0, first, low + 1, high);
      assert Sends(low, high)[1..] == Sends(low + 1, high);
      if low + 1 == high {
        assert Sends(low + 1, high) == [];
      }
    }
  }

  lemma SendTakenIn(b: Buffer, first: U16, low: U16)
    requires WellFormed(b) && first <= low < first + CAPACITY && low < FAR
    requires b.packets == Span(first, low)
    requires b.playing ==> b.next <= low
    ensures var (b', out) := Apply(b, Arrive(Numbered(low), 0));
      out == [] && b' == b.(stats := b'.stats, packets := Span(first, low + 1)) && b'.stats.initialized
  {
    hide Span, Apply, Inserts;
    SpanInserts(b, first, low);
    InsertShape(b, Numbered(low), 0);
    SpanEnds(first, low + 1);
  }

  lemma SpanInserts(b: Buffer, first: U16, low: U16)
    requires WellFormed(b) && first <= low < first + CAPACITY && low < FAR
    requires b.packets == Span(first, low)
    requires b.playing ==> b.next <= low
    ensures Inserts(b, Numbered(low))
  {
    hide SequenceLess;
    SpanSize(first, low);
    if b.playing {
      SequenceLessIsOrder(low, b.next);
    }
  }

  lemma InsertShape(b: Buffer, p: Packet, now: int)
    requires WellFormed(b) && Inserts(b, p)
    ensures var (b', out) := Apply(b, Arrive(p, now));
      out == [] && b' == b.(stats := b'.stats, packets := b.packets[p.sequence := p]) && b'.stats.initialized
  {
  }

  /** After n pops with at most one adaptation among them; none if the counter does not come round. */
  ghost predicate FewPops(b: Buffer, n: nat, end: Buffer)
  {
    && (!b.adaptive || b.popsSinceAdapt + n < POPS_BETWEEN_ADAPT ==>
          end.threshold == b.threshold && end.popsSinceAdapt == (if b.adaptive then b.popsSinceAdapt + n else b.popsSinceAdapt))
    && b.threshold <= end.threshold + 1
  }

  lemma {:induction false} TakesDrain(b: Buffer, low: U16, high: U16)
    requires WellFormed(b) && b.popsSinceAdapt + (high - low) <= POPS_BETWEEN_ADAPT
    requires low <= high < FAR && b.packets == Span(low, high)
    requires b.playing ==> b.next == low
    requires !b.playing ==> b.threshold <= high - low && low < high
    ensures var end := Run(b, Takes(high - low)).0;
      && end == b.(packets := map[], playing := true, next := high, threshold := end.threshold,
                   popsSinceAdapt := end.popsSinceAdapt, adaptations := end.adaptations)
      && FewPops(b, high - low, end)
    decreases high - low
  {
    hide Apply;
    if low == high {
    } else {
      TakeFirst(b, low, high);
      assert Takes(high - low)[1..] == Takes(high - (low + 1));
      TakesDrain(Apply(b, Take).0, low + 1, high);
    }
  }

  lemma TakeFirst(b: Buffer, low: U16, high: U16)
    requires WellFormed(b)
    requires low < high < FAR && b.packets == Span(low, high)
    requires b.playing ==> b.next == low
    requires !b.playing ==> b.threshold <= high - low
    ensures var end := Apply(b, Take).0;
      && end == b.(packets := Span(low + 1, high), playing := true, next := low + 1, threshold := end.threshold,
                   popsSinceAdapt := end.popsSinceAdapt, adaptations := end.adaptations)
      && FewPops(b, 1, end)
      && (b.adaptive && b.popsSinceAdapt + 1 == POPS_BETWEEN_ADAPT ==> end.popsSinceAdapt == 0)
  {
    hide HeadKey, FewPops, Apply, Span;
    HeadOfSpan(b, low, high);
    SpanEnds(low, high);
    TakeShape(b, low);
  }

  lemma TakeShape(b: Buffer, k: U16)
    requires WellFormed(b) && HeadKey(b) == Some(k)
    ensures var end := Apply(b, Take).0;
      && end == b.(packets := b.packets - {k}, playing := true, next := Low16(k + 1), threshold := end.threshold,
                   popsSinceAdapt := end.popsSinceAdapt, adaptations := end.adaptations)
      && FewPops(b, 1, end)
      && (b.adaptive && b.popsSinceAdapt + 1 == POPS_BETWEEN_ADAPT ==> end.popsSinceAdapt == 0)
  {
    hide HeadKey, Target;
  }

  lemma HeadOfSpan(b: Buffer, low: U16, high: U16)
    requires WellFormed(b) && low < high && b.packets == Span(low, high)
    requires b.playing ==> b.next == low
    requires !b.playing ==> b.threshold <= high - low
    ensures HeadKey(b) == Some(low)
  {
    hide Span;
    SpanSize(low, high);
    SpanEnds(low, high);
  }

  /** Playing on an empty buffer, with more than 47 packets required: lose one packet and the buffer fills
      up behind the gap. */
  lemma GapWedges(b: Buffer)
    requires WellFormed(b) && b.playing && b.packets == map[] && b.threshold > LARGEST_SAFE_THRESHOLD
    requires b.next + 1 + CAPACITY < FAR
    ensures Wedged(Run(b, Sends(b.next + 1, b.next + 1 + CAPACITY)).0)
  {
    hide Apply, HeadKey;
    var low := b.next + 1;
    assert Span(low, low) == map[];
    SendsFill(b, low, low, low + CAPACITY);
    SpanSize(low, low + CAPACITY);
    FullSpanIsWedged(Run(b, Sends(low, low + CAPACITY)).0, b.next);
  }

  lemma FullUnstartedIsWedged(b: Buffer)
    requires WellFormed(b) && !b.playing && |b.packets| == CAPACITY < b.threshold
    ensures Wedged(b)
  {
  }

  lemma FullSpanIsWedged(b: Buffer, lost: U16)
    requires WellFormed(b) && b.playing && b.next == lost && lost + 1 + CAPACITY < FAR
    requires b.packets == Span(lost + 1, lost + 1 + CAPACITY)
    requires |b.packets| == CAPACITY && b.threshold > LARGEST_SAFE_THRESHOLD
    ensures Wedged(b)
  {
    hide Span, SequenceLess, FirstKey, Wedged;
    SpanEnds(lost + 1, lost + 1 + CAPACITY);
    SequenceLessIsOrder(lost + 5, lost + 1);
    LostIsAbsent(lost);
    StalledIsWedged(b);
  }

  lemma StalledIsWedged(b: Buffer)
    requires WellFormed(b) && b.playing && b.next !in b.packets && |b.packets| == CAPACITY
    requires b.threshold > LARGEST_SAFE_THRESHOLD && !Burst(b)
    ensures Wedged(b)
  {
    hide Burst;
  }

  lemma LostIsAbsent(lost: U16)
    requires lost + 1 + CAPACITY < FAR
    ensures lost !in Span(lost + 1, lost + 1 + CAPACITY)
  {
  }

  /** An unstarted buffer that starts once it holds its threshold, and is then drained. */
  lemma StartAndDrain(b: Buffer) returns (events: seq<Event>)
    requires WellFormed(b) && b.packets == map[] && !b.playing && b.next == 0 && b.popsSinceAdapt == 0
    requires b.threshold <= CAPACITY
    ensures var end := Run(b, events).0;
      && end.playing && end.packets == map[] && end.next == b.threshold && end.stats.initialized
      && end.adaptive == b.adaptive && end.minThreshold == b.minThreshold && end.maxThreshold == b.maxThreshold
      && FewPops(b, b.threshold, end)
  {
    hide Apply, HeadKey;
    var t := b.threshold;
    assert Span(0, 0) == map[];
    SendsFill(b, 0, 0, t);
    var full := Run(b, Sends(0, t)).0;
    TakesDrain(full, 0, t);
    RunAppend(b, Sends(0, t), Takes(t));
    events := Sends(0, t) + Takes(t);
  }

  lemma HighThresholdWedges(b: Buffer) returns (events: seq<Event>)
    requires WellFormed(b) && b.packets == map[] && !b.playing && b.next == 0 && b.popsSinceAdapt == 0
    requires b.threshold > LARGEST_SAFE_THRESHOLD
    ensures Wedged(Run(b, events).0)
  {
    hide Apply, HeadKey;
    if b.threshold > CAPACITY {
      events := Sends(0, CAPACITY);
      assert Span(0, 0) == map[];
      SendsFill(b, 0, 0, CAPACITY);
      SpanSize(0, CAPACITY);
      FullUnstartedIsWedged(Run(b, events).0);
    } else {
      var start := StartAndDrain(b);
      var drained := Run(b, start).0;
      GapWedges(drained);
      var rest := Sends(drained.next + 1, drained.next + 1 + CAPACITY);
      RunAppend(b, start, rest);
      events := start + rest;
    }
  }

  // ---- driving an adaptive threshold up ----

  const LATE := 4_000_000   // microseconds

  function Jittery(b: Buffer): Packet { Packet(0, b.stats.lastTimestamp, b.next, 0, 0, []) }

  /** One late packet arriving at a drained buffer and being popped at once. */
  function Cycle(b: Buffer): seq<Event> { [Arrive(Jittery(b), b.stats.lastArrival + LATE), Take] }

  ghost predicate Drained(b: Buffer)
  {
    && WellFormed(b) && b.playing && b.packets == map[] && b.stats.initialized
    && b.adaptive && b.maxThreshold > LARGEST_SAFE_THRESHOLD
  }

  lemma CycleArrives(b: Buffer)
    requires Drained(b)
    ensures var (b', out) := Apply(b, Cycle(b)[0]);
      && out == [] && b' == b.(stats := b'.stats, packets := map[b.next := Jittery(b)])
      && b'.stats.initialized && b'.stats.jitter >= 250000.0
  {
    SequenceLessIsOrder(b.next, b.next);
    assert Deviation(b.stats, Jittery(b), b.stats.lastArrival + LATE) == LATE;
    assert b.packets[b.next := Jittery(b)] == map[b.next := Jittery(b)];
  }

  lemma CyclePops(b: Buffer, p: Packet)
    requires WellFormed(b) && b.playing && b.packets == map[b.next := p] && b.adaptive
    requires b.stats.jitter >= 250000.0 && b.maxThreshold > LARGEST_SAFE_THRESHOLD && b.threshold <= LARGEST_SAFE_THRESHOLD
    ensures var b' := Apply(b, Take).0;
      var round := b.popsSinceAdapt + 1 == POPS_BETWEEN_ADAPT;
      && b' == b.(packets := map[], next := Low16(b.next + 1), threshold := b'.threshold,
                  popsSinceAdapt := b'.popsSinceAdapt, adaptations := b'.adaptations)
      && b'.threshold == (if round then b.threshold + 1 else b.threshold)
      && b'.popsSinceAdapt == (if round then 0 else b.popsSinceAdapt + 1)
  {
    hide TargetThreshold;
    assert HeadKey(b) == Some(b.next);
    assert b.packets - {b.next} == map[];
    HighJitterTarget(b);
  }

  lemma HighJitterTarget(b: Buffer)
    requires WellFormed(b) && b.stats.jitter >= 250000.0 && b.maxThreshold > LARGEST_SAFE_THRESHOLD
    ensures Target(b) > LARGEST_SAFE_THRESHOLD
  {
    var frames := (20.0 + 2.0 * (b.stats.jitter / 1000.0)) / 10.0;
    assert frames >= 52.0;
    assert Ceiling(frames) >= 52;
  }

  lemma OneCycle(b: Buffer)
    requires Drained(b) && b.threshold <= LARGEST_SAFE_THRESHOLD
    ensures var b' := Run(b, Cycle(b)).0;
      var round := b.popsSinceAdapt + 1 == POPS_BETWEEN_ADAPT;
      && Drained(b') && b'.next == Low16(b.next + 1)
      && b'.threshold == (if round then b.threshold + 1 else b.threshold)
      && b'.popsSinceAdapt == (if round then 0 else b.popsSinceAdapt + 1)
  {
    hide Apply;
    CycleArrives(b);
    var mid := Apply(b, Cycle(b)[0]).0;
    CyclePops(mid, Jittery(b));
    assert Cycle(b)[1..] == [Take] && [Take][1..] == [];
    assert Run(mid, [Take]).0 == Apply(mid, Take).0;
  }

  /** Pops left until the threshold stands at 48. */
  function PopsLeft(b: Buffer): nat
    requires b.threshold <= LARGEST_SAFE_THRESHOLD + 1 && b.popsSinceAdapt < POPS_BETWEEN_ADAPT
  {
    if b.threshold > LARGEST_SAFE_THRESHOLD then 0
    else POPS_BETWEEN_ADAPT * (LARGEST_SAFE_THRESHOLD + 1 - b.threshold) - b.popsSinceAdapt
  }

  lemma {:induction false} DrivenUp(b: Buffer) returns (events: seq<Event>)
    requires Drained(b) && b.threshold <= LARGEST_SAFE_THRESHOLD + 1 && b.next + PopsLeft(b) < 0x1_0000
    ensures var end := Run(b, events).0;
      Drained(end) && end.threshold == LARGEST_SAFE_THRESHOLD + 1 && end.next == b.next + PopsLeft(b)
    decreases PopsLeft(b)
  {
    hide Run, Cycle;
    if b.threshold > LARGEST_SAFE_THRESHOLD {
      events := [];
      RunNothing(b);
    } else {
      OneCycle(b);
      var b' := Run(b, Cycle(b)).0;
      var rest := DrivenUp(b');
      RunAppend(b, Cycle(b), rest);
      events := Cycle(b) + rest;
    }
  }

  lemma HighBoundWedges(b: Buffer) returns (events: seq<Event>)
    requires WellFormed(b) && b.packets == map[] && !b.playing && b.next == 0 && b.popsSinceAdapt == 0
    requires b.adaptive && b.threshold <= LARGEST_SAFE_THRESHOLD < b.maxThreshold
    ensures Wedged(Run(b, events).0)
  {
    hide Run, Wedged;
    var start := StartAndDrain(b);
    var drained := Run(b, start).0;
    var up := DrivenUp(drained);
    var ready := Run(drained, up).0;
    GapWedges(ready);
    var rest := Sends(ready.next + 1, ready.next + 1 + CAPACITY);
    RunAppend(drained, up, rest);
    RunAppend(b, start, up + rest);
    events := start + (up + rest);
  }

  /** A buffer with any threshold and any bounds can be driven into a permanent wedge exactly when the
      threshold exceeds 47 or may be adapted beyond it. */
  lemma WedgeIffThreshold(b: Buffer)
    requires b == FRESH.(threshold := b.threshold, adaptive := b.adaptive, minThreshold := b.minThreshold, maxThreshold := b.maxThreshold)
    requires 1 <= b.threshold && 1 <= b.minThreshold <= b.maxThreshold
    ensures WellFormed(b)
    ensures (exists events :: Wedged(Run(b, events).0))
       <==> b.threshold > 47 || (b.adaptive && b.maxThreshold > 47)
  {
    hide Run, Wedged;
    if b.threshold > LARGEST_SAFE_THRESHOLD {
      var events := HighThresholdWedges(b);
    } else if b.adaptive && b.maxThreshold > LARGEST_SAFE_THRESHOLD {
      var events := HighBoundWedges(b);
    } else {
      forall events ensures !Wedged(Run(b, events).0) {
        NeverWedges(b, events);
      }
    }
  }
}
