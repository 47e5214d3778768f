/** The receive statistics in terms of what was sent and when it arrived: the smoothed jitter, the
    estimates of loss and disorder, and the threshold they drive. */
module ArrivalStatistics {
  import opened Words
  import opened Packets
  import opened SerialNumbers
  import opened JitterBuffer
  import opened JitterBufferRuns

  /** A packet, the time it arrived, and the unbounded number and media time its header abbreviates. */
  datatype Arrival = Arrival(packet: Packet, now: int, number: int, media: int)

  ghost predicate Genuine(a: Arrival)
  {
    a.packet.sequence == Low16(a.number) && a.packet.timestamp == Low32(a.media)
  }

  /** Two arrivals in a row are less than half a period of numbers and of media time apart. */
  ghost predicate Near(a: Arrival, b: Arrival)
  {
    -0x8000 <= b.number - a.number < 0x8000 && -0x8000_0000 <= b.media - a.media < 0x8000_0000
  }

  ghost predicate Plausible(arrivals: seq<Arrival>)
  {
    && (forall i :: 0 <= i < |arrivals| ==> Genuine(arrivals[i]))
    && (forall i :: 0 < i < |arrivals| ==> Near(arrivals[i - 1], arrivals[i]))
  }

  /** How much later than its media time says the second of two packets came, if negative how much earlier. */
  function Lateness(a: Arrival, b: Arrival): int { (b.now - a.now) - (b.media - a.media) }

  function StatsAfter(s: Stats, arrivals: seq<Arrival>): Stats
  {
    if arrivals == [] then s
    else
      var a := arrivals[|arrivals| - 1];
      Observe(StatsAfter(s, arrivals[..|arrivals| - 1]), a.packet, a.now)
  }

  // ---- one arrival ----

  lemma MediaGap(x: int, y: int)
    requires -0x8000_0000 <= x - y < 0x8000_0000
    ensures ToInt32(Low32(Low32(x) - Low32(y))) == x - y
  {
    var p, q := x / 0x1_0000_0000, y / 0x1_0000_0000;
    assert Low32(x) - Low32(y) == (x - y) - 0x1_0000_0000 * (p - q);
    assert Low32(Low32(x) - Low32(y)) == Low32(x - y);
  }

  lemma NumberGap(x: int, y: int)
    requires -0x8000 <= x - y < 0x8000
    ensures ToInt16(Low16(Low16(x) - Low16(y))) == x - y
  {
    LowDifference(x, y);
  }

  ghost predicate Remembers(s: Stats, a: Arrival)
  {
    s.initialized && s.lastArrival == a.now && s.lastTimestamp == a.packet.timestamp && s.lastSequence == a.packet.sequence
  }

  lemma FirstObserved(a: Arrival)
    ensures var s := Observe(FRESH_STATS, a.packet, a.now);
      Remembers(s, a) && s.jitter == 0.0 && s.observed == 1 && s.lost == 0 && s.outOfOrder == 0
  {
  }

  /** What one more arrival does, in unbounded terms. */
  lemma NextObserved(s: Stats, a: Arrival, b: Arrival)
    requires Remembers(s, a) && Genuine(a) && Genuine(b) && Near(a, b)
    ensures var t := Observe(s, b.packet, b.now);
      && Remembers(t, b) && t.observed == s.observed + 1
      && t.jitter == s.jitter + (Abs(Lateness(a, b)) as real - s.jitter) / 16.0
      && t.lost == s.lost + (if b.number - a.number > 1 then b.number - a.number - 1 else 0)
      && t.outOfOrder == s.outOfOrder + (if b.number < a.number then 1 else 0)
  {
    hide Low16, Low32, ToInt16, ToInt32;
    MediaGap(b.media, a.media);
    NumberGap(b.number, a.number);
  }

  // ---- runs of arrivals ----

  lemma Shorter(arrivals: seq<Arrival>)
    requires Plausible(arrivals) && |arrivals| >= 2
    ensures var n := |arrivals|;
      && Plausible(arrivals[..n - 1]) && Genuine(arrivals[n - 2]) && Genuine(arrivals[n - 1])
      && Near(arrivals[n - 2], arrivals[n - 1])
      && arrivals[..n - 1][n - 2] == arrivals[n - 2]
  {
  }

  lemma {:induction false} LastIsRemembered(arrivals: seq<Arrival>)
    requires arrivals != []
    ensures Remembers(StatsAfter(FRESH_STATS, arrivals), arrivals[|arrivals| - 1])
    decreases |arrivals|
  {
    if |arrivals| == 1 {
      OneArrival(arrivals[0]);
      assert arrivals == [arrivals[0]];
    } else {
      LastIsRemembered(arrivals[..|arrivals| - 1]);
    }
  }

  lemma OneArrival(a: Arrival)
    ensures StatsAfter(FRESH_STATS, [a]) == Observe(FRESH_STATS, a.packet, a.now)
  {
    assert [a][..0] == [];
  }

  lemma OneMoreArrival(arrivals: seq<Arrival>)
    requires Plausible(arrivals) && |arrivals| >= 2
    ensures var n := |arrivals|;
      var s, t := StatsAfter(FRESH_STATS, arrivals[..n - 1]), StatsAfter(FRESH_STATS, arrivals);
      && t.observed == s.observed + 1
      && t.jitter == s.jitter + (Abs(Lateness(arrivals[n - 2], arrivals[n - 1])) as real - s.jitter) / 16.0
      && var step := arrivals[n - 1].number - arrivals[n - 2].number;
      && t.lost == s.lost + (if step > 1 then step - 1 else 0)
      && t.outOfOrder == s.outOfOrder + (if step < 0 then 1 else 0)
  {
    hide Observe, Plausible, StatsAfter;
    Shorter(arrivals);
    var n := |arrivals|;
    LastIsRemembered(arrivals[..n - 1]);
    NextObserved(StatsAfter(FRESH_STATS, arrivals[..n - 1]), arrivals[n - 2], arrivals[n - 1]);
    UnfoldStats(arrivals);
  }

  lemma UnfoldStats(arrivals: seq<Arrival>)
    requires arrivals != []
    ensures var n := |arrivals|;
      var last := arrivals[n - 1];
      StatsAfter(FRESH_STATS, arrivals) == Observe(StatsAfter(FRESH_STATS, arrivals[..n - 1]), last.packet, last.now)
  {
  }

  /** No packet was more than d earlier or later than the one before it lets expect. */
  ghost predicate Punctual(arrivals: seq<Arrival>, d: nat)
  {
    forall i :: 0 < i < |arrivals| ==> Abs(Lateness(arrivals[i - 1], arrivals[i])) <= d
  }

  lemma PunctualSoFar(arrivals: seq<Arrival>, d: nat)
    requires Punctual(arrivals, d) && |arrivals| >= 2
    ensures Punctual(arrivals[..|arrivals| - 1], d) && Abs(Lateness(arrivals[|arrivals| - 2], arrivals[|arrivals| - 1])) <= d
  {
  }

  /** The smoothed jitter never exceeds the largest deviation. */
  lemma {:induction false} JitterIsBounded(arrivals: seq<Arrival>, d: nat)
    requires Plausible(arrivals) && Punctual(arrivals, d)
    ensures 0.0 <= StatsAfter(FRESH_STATS, arrivals).jitter <= d as real
    decreases |arrivals|
  {
    hide Observe, Plausible, Punctual, StatsAfter;
    if arrivals == [] {
      NoArrivals();
    } else if |arrivals| == 1 {
      assert arrivals == [arrivals[0]];
      OneArrival(arrivals[0]);
      FirstObserved(arrivals[0]);
    } else {
      Shorter(arrivals);
      PunctualSoFar(arrivals, d);
      OneMoreArrival(arrivals);
      JitterIsBounded(arrivals[..|arrivals| - 1], d);
    }
  }

  lemma NoArrivals()
    ensures StatsAfter(FRESH_STATS, []) == FRESH_STATS
  {
  }

  /** From any jitter, deviations of at most d never raise it above the larger of the two. */
  lemma JitterStepIsBounded(s: Stats, a: Arrival, b: Arrival, d: nat)
    requires Remembers(s, a) && Genuine(a) && Genuine(b) && Near(a, b) && Abs(Lateness(a, b)) <= d && s.jitter >= 0.0
    ensures var j := Observe(s, b.packet, b.now).jitter;
      0.0 <= j && (j <= s.jitter || j <= d as real)
  {
    hide Observe;
    NextObserved(s, a, b);
  }

  /** Perfectly paced packets leave the jitter at zero; one packet d early or late then adds exactly a
      sixteenth of d. */
  lemma OneLatePacket(arrivals: seq<Arrival>, late: Arrival)
    requires Plausible(arrivals + [late]) && Plausible(arrivals) && Punctual(arrivals, 0) && arrivals != []
    ensures StatsAfter(FRESH_STATS, arrivals).jitter == 0.0
    ensures StatsAfter(FRESH_STATS, arrivals + [late]).jitter == Abs(Lateness(arrivals[|arrivals| - 1], late)) as real / 16.0
  {
    hide StatsAfter, Observe, Punctual;
    JitterIsBounded(arrivals, 0);
    var all := arrivals + [late];
    assert all[..|all| - 1] == arrivals && all[|all| - 2] == arrivals[|arrivals| - 1];
    OneMoreArrival(all);
  }

  // ---- loss and disorder ----

  /** Numbers skipped over by forward steps. */
  function SkippedIn(arrivals: seq<Arrival>): nat
  {
    if |arrivals| < 2 then 0
    else
      var step := arrivals[|arrivals| - 1].number - arrivals[|arrivals| - 2].number;
      SkippedIn(arrivals[..|arrivals| - 1]) + (if step > 1 then step - 1 else 0)
  }

  function BackwardIn(arrivals: seq<Arrival>): nat
  {
    if |arrivals| < 2 then 0
    else
      var step := arrivals[|arrivals| - 1].number - arrivals[|arrivals| - 2].number;
      BackwardIn(arrivals[..|arrivals| - 1]) + (if step < 0 then 1 else 0)
  }

  /** The counters are the arrivals, the numbers stepped over, and the steps backwards, over any number of
      wraps. */
  lemma {:induction false} CountersAreExact(arrivals: seq<Arrival>)
    requires Plausible(arrivals)
    ensures var s := StatsAfter(FRESH_STATS, arrivals);
      s.observed == |arrivals| && s.lost == SkippedIn(arrivals) && s.outOfOrder == BackwardIn(arrivals)
    decreases |arrivals|
  {
    hide Observe, Plausible, StatsAfter;
    if arrivals == [] {
      NoArrivals();
    } else if |arrivals| == 1 {
      assert arrivals == [arrivals[0]];
      OneArrival(arrivals[0]);
      FirstObserved(arrivals[0]);
    } else {
      Shorter(arrivals);
      OneMoreArrival(arrivals);
      CountersAreExact(arrivals[..|arrivals| - 1]);
    }
  }

  // ---- the threshold ----

  /** The arrivals in a run of pushes and pops are these. */
  ghost predicate Arrives(events: seq<Event>, arrivals: seq<Arrival>)
  {
    if events == [] then arrivals == []
    else
      var e := events[|events| - 1];
      if e.Take? then Arrives(events[..|events| - 1], arrivals)
      else
        && arrivals != [] && arrivals[|arrivals| - 1].packet == e.packet && arrivals[|arrivals| - 1].now == e.now
        && Arrives(events[..|events| - 1], arrivals[..|arrivals| - 1])
  }

  lemma {:induction false} RunSnoc(b: Buffer, events: seq<Event>)
    requires WellFormed(b) && events != []
    ensures Run(b, events).0 == Apply(Run(b, events[..|events| - 1]).0, events[|events| - 1]).0
  {
    hide Apply, Run;
    assert events == events[..|events| - 1] + [events[|events| - 1]];
    RunOneMore(b, events[..|events| - 1], events[|events| - 1]);
  }

  lemma {:induction false} RunOneMore(b: Buffer, front: seq<Event>, e: Event)
    requires WellFormed(b)
    ensures Run(b, front + [e]).0 == Apply(Run(b, front).0, e).0
  {
    hide Apply, Run;
    RunAppend(b, front, [e]);
    RunOne(Run(b, front).0, e);
  }

  lemma {:induction false} RunOne(b: Buffer, e: Event)
    requires WellFormed(b)
    ensures Run(b, [e]).0 == Apply(b, e).0
  {
    hide Apply;
    assert [e][1..] == [];
  }

  lemma ApplyStats(b: Buffer, e: Event)
    requires WellFormed(b)
    ensures Apply(b, e).0.stats == if e.Arrive? then Observe(b.stats, e.packet, e.now) else b.stats
  {
  }

  /** Pops leave the statistics alone; every push, accepted or not, is observed. */
  lemma {:induction false} StatsOfRun(b: Buffer, events: seq<Event>, arrivals: seq<Arrival>)
    requires WellFormed(b) && b.stats == FRESH_STATS && Arrives(events, arrivals)
    ensures Run(b, events).0.stats == StatsAfter(FRESH_STATS, arrivals)
    decreases |events|
  {
    hide Apply, Observe, Run;
    if events == [] {
      RunNothing(b);
    } else {
      var front, e := events[..|events| - 1], events[|events| - 1];
      RunSnoc(b, events);
      ApplyStats(Run(b, front).0, e);
      StatsOfRun(b, front, if e.Take? then arrivals else arrivals[..|arrivals| - 1]);
    }
  }

  lemma PlausibleSoFar(arrivals: seq<Arrival>, d: nat)
    requires Plausible(arrivals) && Punctual(arrivals, d) && arrivals != []
    ensures Plausible(arrivals[..|arrivals| - 1]) && Punctual(arrivals[..|arrivals| - 1], d)
  {
  }

  lemma StillTarget(low: nat, high: nat)
    requires low <= high
    ensures TargetThreshold(0.0, low, high) == Clamp(2, low, high)
  {
    assert (20.0 + 2.0 * (0.0 / 1000.0)) / 10.0 == 2.0;
    assert Ceiling(2.0) == 2;
  }

  lemma StillApply(b: Buffer, e: Event)
    requires WellFormed(b) && b.threshold == 2 && b.minThreshold <= 2 <= b.maxThreshold
    requires e.Take? ==> b.stats.jitter == 0.0
    ensures var b' := Apply(b, e).0;
      && b'.threshold == 2 && b'.adaptations == b.adaptations
      && b'.minThreshold == b.minThreshold && b'.maxThreshold == b.maxThreshold
  {
    hide TargetThreshold;
    StillTarget(b.minThreshold, b.maxThreshold);
  }

  /** A perfectly paced stream never moves the threshold from its initial two frames, however long it
      plays and however pushes and pops interleave. */
  lemma {:induction false} PacedStreamKeepsThreshold(b: Buffer, events: seq<Event>, arrivals: seq<Arrival>)
    requires WellFormed(b) && b.stats == FRESH_STATS && b.threshold == 2 && b.minThreshold <= 2 <= b.maxThreshold
    requires Arrives(events, arrivals) && Plausible(arrivals) && Punctual(arrivals, 0)
    ensures var end := Run(b, events).0;
      && end.threshold == 2 && end.adaptations == b.adaptations && end.stats.jitter == 0.0
      && end.minThreshold == b.minThreshold && end.maxThreshold == b.maxThreshold
    decreases |events|
  {
    hide Apply, Observe, Run, Plausible, Punctual, StatsAfter;
    StatsOfRun(b, events, arrivals);
    JitterIsBounded(arrivals, 0);
    if events == [] {
      RunNothing(b);
    } else {
      var front, e := events[..|events| - 1], events[|events| - 1];
      RunSnoc(b, events);
      if e.Take? {
        PacedStreamKeepsThreshold(b, front, arrivals);
      } else {
        PlausibleSoFar(arrivals, 0);
        PacedStreamKeepsThreshold(b, front, arrivals[..|arrivals| - 1]);
      }
      StillApply(Run(b, front).0, e);
    }
  }
}
