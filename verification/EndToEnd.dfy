/** The whole video path: packetizer, a network that loses, reorders and repeats, the playout buffer
    with its pops interleaved, and the router feeding the decoder. */
module EndToEnd {
  import opened Words
  import opened Packets
  import opened JitterBuffer
  import opened JitterBufferOrder
  import opened JitterBufferRuns
  import opened VideoPacketizer
  import opened PeerVideoRouter
  import opened VideoPipeline
  import opened DisplayOrder

  // ---- how far apart deliveries can be ----

  ghost predicate CloseTogether(t: Tracked, xs: seq<int>)
  {
    && (t.buf.playing && xs != [] ==> xs[0] < t.head + 0x1_0000)
    && forall i :: 0 <= i < |xs| - 1 ==> xs[i + 1] - xs[i] <= 0x1_0000
  }

  /** The playout buffer never jumps over a whole period of sequence numbers. */
  lemma {:induction false} DeliveriesAreClose(stream: seq<Packet>, t: Tracked, steps: seq<Step>)
    requires Stamped(stream) && Known(stream, steps) && Consistent(stream, t)
    requires GoodRun(stream, t, steps)
    ensures CloseTogether(t, Deliver(stream, t, steps).1)
    decreases |steps|
  {
    hide After, Allowed, Consistent;
    if steps == [] {
    } else {
      var s := steps[0];
      StepKeepsConsistent(stream, t, s);
      StepDelivers(stream, t, s);
      StepIsClose(stream, t, s);
      var (t', out) := After(stream, t, s);
      DeliveriesAreClose(stream, t', steps[1..]);
      PrependClose(t, t', out, Deliver(stream, t', steps[1..]).1);
    }
  }

  lemma StepIsClose(stream: seq<Packet>, t: Tracked, s: Step)
    requires Consistent(stream, t) && Allowed(t, s)
    requires s.Receive? ==> s.x < |stream|
    ensures CloseTogether(t, After(stream, t, s).1)
  {
    if s.Play? && HeadKey(t.buf).Some? {
      HeadIsEarliest(stream, t);
    }
  }

  lemma PrependClose(t: Tracked, t': Tracked, out: seq<int>, rest: seq<int>)
    requires |out| <= 1 && CloseTogether(t, out) && CloseTogether(t', rest)
    requires out == [] ==> t'.head == t.head && t'.buf.playing == t.buf.playing
    requires |out| == 1 ==> t'.buf.playing && t'.head == out[0] + 1
    ensures CloseTogether(t, out + rest)
  {
    if out == [] {
      assert out + rest == rest;
    } else {
      forall i | 0 <= i < |out + rest| - 1 ensures (out + rest)[i + 1] - (out + rest)[i] <= 0x1_0000 {
        if i > 0 {
          assert rest[i] - rest[i - 1] <= 0x1_0000;
        }
      }
    }
  }

  lemma CloseIsTight(v: Stream, xs: seq<int>)
    requires WellSent(v) && v.step < 0x1_0000
    requires InStream(v.packets, xs) && Increasing(xs)
    requires forall i :: 0 <= i < |xs| - 1 ==> xs[i + 1] - xs[i] <= 0x1_0000
    ensures Tight(v, xs)
  {
    forall i | 0 <= i < |xs| - 1 ensures ShortHop(v, xs[i], xs[i + 1]) {
      OwnersGrow(v, xs[i], xs[i + 1]);
      var d := v.owner[xs[i + 1]] - v.owner[xs[i]];
      SmallProduct(d, v.step);
    }
  }

  lemma SmallProduct(d: nat, step: nat)
    requires d <= 0x1_0000 && step < 0x1_0000
    ensures d * step < 0x1_0000_0000
  {
    assert d * step <= 0x1_0000 * step;
  }

  // ---- the path ----

  function Sent(s: Sender, frames: seq<seq<Byte>>): (v: Stream)
    ensures |v.owner| == |v.packets|
  {
    OwnersBound(s, frames, 0);
    Stream(SentFrames(s, frames), Owners(s, frames, 0), s.step)
  }

  ghost predicate Fresh(s: Sender)
  {
    s.sequence == 0 && s.timestamp == 0 && 0 < s.step
  }

  lemma SentIsWellSent(s: Sender, frames: seq<seq<Byte>>)
    requires NonEmpty(frames) && Fresh(s)
    ensures WellSent(Sent(s, frames))
  {
    SentLayout(s, frames, 0, 0);
  }

  function Unstarted(b: Buffer): Tracked { Tracked(b, map[], 0) }

  ghost predicate Schedule(v: Stream, b: Buffer, steps: seq<Step>)
  {
    && Stamped(v.packets)
    && WellFormed(b) && b.packets == map[] && !b.playing
    && Known(v.packets, steps)
    && GoodRun(v.packets, Unstarted(b), steps)
  }

  /** The numbers of the packets that come out of the playout buffer. */
  ghost function Heard(v: Stream, b: Buffer, steps: seq<Step>): seq<int>
    requires Schedule(v, b, steps)
  {
    Deliver(v.packets, Unstarted(b), steps).1
  }

  /** What the source has done once everything the buffer delivered was routed. */
  function Output(b: Buffer, events: seq<Event>): Source
    requires WellFormed(b)
  {
    RoutedAll(NEW_SOURCE, Run(b, events).1)
  }

  lemma PathIsReceived(v: Stream, b: Buffer, steps: seq<Step>)
    requires WellSent(v) && Schedule(v, b, steps)
    ensures Increasing(Heard(v, b, steps)) && InStream(v.packets, Heard(v, b, steps))
    ensures Output(b, Concrete(v.packets, steps)) == Received(v, Heard(v, b, steps))
    ensures v.step < 0x1_0000 ==> Tight(v, Heard(v, b, steps))
  {
    hide WellSent, GoodRun, Run, RoutedAll;
    OrderedDelivery(v.packets, Unstarted(b), steps);
    DeliveryIsRun(v.packets, Unstarted(b), steps);
    DeliveriesAreClose(v.packets, Unstarted(b), steps);
    if v.step < 0x1_0000 {
      CloseIsTight(v, Heard(v, b, steps));
    }
  }

  /** End to end.  For any frames and any schedule the playout buffer orders, if neighbouring surviving
      frames differ in timestamp, the decoder is handed one call per surviving mark, for strictly
      increasing frames, made of exactly that frame's surviving payloads in order. */
  lemma FramesArriveInOrder(s: Sender, frames: seq<seq<Byte>>, b: Buffer, steps: seq<Step>)
    requires NonEmpty(frames) && Fresh(s)
    requires Schedule(Sent(s, frames), b, steps)
    requires Survives(Sent(s, frames), Heard(Sent(s, frames), b, steps))
    ensures var v := Sent(s, frames);
      var xs := Heard(v, b, steps);
      var calls := DecodesOf(Output(b, Concrete(v.packets, steps)).calls);
      Increasing(Marked(v, xs)) && FrameCalls(v, xs, Marked(v, xs), calls)
  {
    SentIsWellSent(s, frames);
    var v := Sent(s, frames);
    var xs := Heard(v, b, steps);
    PathIsReceived(v, b, steps);
    ExactFrames(v, xs);
    EmissionsByFrame(v, xs);
  }

  /** Every frame all of whose packets come out of the buffer reaches the decoder byte for byte, and
      as call k alone. */
  lemma WholeFrameArrives(s: Sender, frames: seq<seq<Byte>>, b: Buffer, steps: seq<Step>, i: nat)
    returns (low: nat, high: nat, k: nat)
    requires NonEmpty(frames) && Fresh(s)
    requires Schedule(Sent(s, frames), b, steps)
    requires Survives(Sent(s, frames), Heard(Sent(s, frames), b, steps))
    requires i < |frames|
    ensures var v := Sent(s, frames);
      var xs := Heard(v, b, steps);
      var calls := DecodesOf(Output(b, Concrete(v.packets, steps)).calls);
      && Carries(v.packets, v.owner, frames[i], i, low, high)
      && |calls| == |Marked(v, xs)|
      && ((forall x :: low <= x < high ==> x in xs) ==>
            && k < |calls| && calls[k] == Decode(frames[i])
            && forall j :: 0 <= j < |calls| && Marked(v, xs)[j] == i ==> j == k)
  {
    hide WellSent, Schedule, Survives, Carries, RoutedAll, Run;
    var v := Sent(s, frames);
    var xs := Heard(v, b, steps);
    SentIsWellSent(s, frames);
    low, high := SentCarries(s, frames, 0, i);
    PathIsReceived(v, b, steps);
    ExactFrames(v, xs);
    EmissionsByFrame(v, xs);
    k := 0;
    if forall x :: low <= x < high ==> x in xs {
      k := CompleteFrameIsEmitted(v, xs, frames[i], i, low, high);
    }
  }

  /** If no two survivors that follow each other are a whole sequence or clock period apart, the
      timestamps always tell frames apart and the loss counters satisfy the accounting identity. */
  lemma LossIsAccounted(s: Sender, frames: seq<seq<Byte>>, b: Buffer, steps: seq<Step>)
    requires NonEmpty(frames) && Fresh(s)
    requires Schedule(Sent(s, frames), b, steps)
    requires Tight(Sent(s, frames), Heard(Sent(s, frames), b, steps))
    ensures var v := Sent(s, frames);
      var xs := Heard(v, b, steps);
      && WellSent(v) && Survives(v, xs)
      && (xs != [] ==> Accounts(v, xs, Output(b, Concrete(v.packets, steps))))
  {
    hide Schedule, Tight, WellSent, Accounts, Run, RoutedAll;
    SentIsWellSent(s, frames);
    var v := Sent(s, frames);
    var xs := Heard(v, b, steps);
    PathIsReceived(v, b, steps);
    TightSurvives(v, xs);
    if xs != [] {
      LossAccounting(v, xs);
    }
  }

  /** With a clock step below 65536 (the default is 3000) no condition on the survivors is left. */
  lemma SmallStepIsAccounted(s: Sender, frames: seq<seq<Byte>>, b: Buffer, steps: seq<Step>)
    requires NonEmpty(frames) && Fresh(s) && s.step < 0x1_0000
    requires Schedule(Sent(s, frames), b, steps)
    ensures var v := Sent(s, frames);
      var xs := Heard(v, b, steps);
      && WellSent(v) && Survives(v, xs) && Tight(v, xs)
      && (xs != [] ==> Accounts(v, xs, Output(b, Concrete(v.packets, steps))))
  {
    hide Schedule, Tight, WellSent, Accounts, Run, RoutedAll;
    SentIsWellSent(s, frames);
    PathIsReceived(Sent(s, frames), b, steps);
    LossIsAccounted(s, frames, b, steps);
  }

  /** What is shown, end to end: where the loss counters are exact, one entry per frame from the first
      heard to the last begun, in order, a substitute standing exactly for each frame without its mark. */
  lemma FramesAreShownInOrder(s: Sender, frames: seq<seq<Byte>>, b: Buffer, steps: seq<Step>)
    requires NonEmpty(frames) && Fresh(s)
    requires Schedule(Sent(s, frames), b, steps)
    requires var v := Sent(s, frames);
      && Tight(v, Heard(v, b, steps)) && WellSent(v)
      && JumpsCounted(v, Heard(v, b, steps)) && Heard(v, b, steps) != []
    ensures var v := Sent(s, frames);
      InStream(v.packets, Heard(v, b, steps)) && Displays(v, Heard(v, b, steps), Output(b, Concrete(v.packets, steps)).calls)
  {
    hide Schedule, Tight, WellSent, Run, RoutedAll, JumpsCounted, Displays;
    var v := Sent(s, frames);
    PathIsReceived(v, b, steps);
    DisplayIsExact(v, Heard(v, b, steps));
  }

  // ---- pushes and pumps ----

  /** What the receiver does: push a packet that has arrived, or pump the buffer empty. */
  datatype Turn = Got(x: nat, now: int) | PumpAll

  ghost predicate Arriving(stream: seq<Packet>, turns: seq<Turn>)
  {
    forall t :: t in turns && t.Got? ==> t.x < |stream|
  }

  /** The buffer and the source after some turns, as Push and Pump leave them. */
  function Pumped(stream: seq<Packet>, b: Buffer, src: Source, turns: seq<Turn>): (Buffer, Source)
    requires Arriving(stream, turns) && WellFormed(b)
    decreases |turns|
  {
    if turns == [] then (b, src)
    else
      match turns[0]
      case Got(x, now) =>
        assert turns[0] in turns;
        StepsKeepWellFormed(b, stream[x], now);
        Pumped(stream, Pushed(b, stream[x], now), src, turns[1..])
      case PumpAll =>
        var (b', out) := Drained(b);
        Pumped(stream, b', RoutedAll(src, out), turns[1..])
  }

  /** The same turns as single pushes and pops. */
  function EventsOf(stream: seq<Packet>, b: Buffer, turns: seq<Turn>): seq<Event>
    requires Arriving(stream, turns) && WellFormed(b)
    decreases |turns|
  {
    if turns == [] then []
    else
      match turns[0]
      case Got(x, now) =>
        assert turns[0] in turns;
        StepsKeepWellFormed(b, stream[x], now);
        [Arrive(stream[x], now)] + EventsOf(stream, Pushed(b, stream[x], now), turns[1..])
      case PumpAll => Takes(|Drained(b).1|) + EventsOf(stream, Drained(b).0, turns[1..])
  }

  function StepsOf(stream: seq<Packet>, b: Buffer, turns: seq<Turn>): seq<Step>
    requires Arriving(stream, turns) && WellFormed(b)
    decreases |turns|
  {
    if turns == [] then []
    else
      match turns[0]
      case Got(x, now) =>
        assert turns[0] in turns;
        StepsKeepWellFormed(b, stream[x], now);
        [Receive(x, now)] + StepsOf(stream, Pushed(b, stream[x], now), turns[1..])
      case PumpAll => Plays(|Drained(b).1|) + StepsOf(stream, Drained(b).0, turns[1..])
  }

  function Plays(n: nat): seq<Step> { seq(n, _ => Play) }

  lemma {:induction false} DrainIsTakes(b: Buffer)
    requires WellFormed(b)
    ensures Run(b, Takes(|Drained(b).1|)) == Drained(b)
    decreases |b.packets|
  {
    hide Popped, HeadKey;
    if HeadKey(b).None? {
      assert Takes(0) == [];
    } else {
      PopShrinks(b);
      var b', out := Popped(b).0, Popped(b).1;
      DrainIsTakes(b');
      var n := |Drained(b').1|;
      assert Takes(n + 1)[1..] == Takes(n) && Takes(n + 1)[0] == Take;
      TakeIsPop(b);
    }
  }

  lemma TakeIsPop(b: Buffer)
    requires WellFormed(b) && HeadKey(b).Some?
    ensures Popped(b).1.Some? && Apply(b, Take) == (Popped(b).0, [Popped(b).1.value])
  {
  }

  lemma {:induction false} RoutedAllAppend(s: Source, a: seq<Packet>, b: seq<Packet>)
    ensures RoutedAll(s, a + b) == RoutedAll(RoutedAll(s, a), b)
    decreases |b|
  {
    hide Routed;
    if b == [] {
      assert a + b == a;
    } else {
      AppendLast(a, b);
      RoutedAllAppend(s, a, b[..|b| - 1]);
    }
  }

  lemma {:induction false} PumpingIsRun(stream: seq<Packet>, b: Buffer, src: Source, turns: seq<Turn>)
    requires Arriving(stream, turns) && WellFormed(b)
    ensures var (end, out) := Run(b, EventsOf(stream, b, turns));
      Pumped(stream, b, src, turns) == (end, RoutedAll(src, out))
    decreases |turns|
  {
    hide Drained, Routed, Pushed, Run;
    if turns == [] {
      RunNothing(b);
    } else {
      var rest := turns[1..];
      assert turns[0] in turns;
      match turns[0]
      case Got(x, now) =>
        StepsKeepWellFormed(b, stream[x], now);
        var b' := Pushed(b, stream[x], now);
        PumpingIsRun(stream, b', src, rest);
        RunArrival(b, stream[x], now, EventsOf(stream, b', rest));
      case PumpAll =>
        var (b', out) := Drained(b);
        PumpingIsRun(stream, b', RoutedAll(src, out), rest);
        DrainIsTakes(b);
        RunAppend(b, Takes(|out|), EventsOf(stream, b', rest));
        RoutedAllAppend(src, out, Run(b', EventsOf(stream, b', rest)).1);
    }
  }

  lemma RunArrival(b: Buffer, p: Packet, now: int, rest: seq<Event>)
    requires WellFormed(b)
    ensures WellFormed(Pushed(b, p, now)) && Run(b, [Arrive(p, now)] + rest) == Run(Pushed(b, p, now), rest)
  {
    hide Observe, Inserts;
    assert ([Arrive(p, now)] + rest)[1..] == rest;
    StepsKeepWellFormed(b, p, now);
    assert [] + Run(Pushed(b, p, now), rest).1 == Run(Pushed(b, p, now), rest).1;
  }

  lemma {:induction false} StepsAreEvents(stream: seq<Packet>, b: Buffer, turns: seq<Turn>)
    requires Arriving(stream, turns) && WellFormed(b)
    ensures Known(stream, StepsOf(stream, b, turns))
    ensures Concrete(stream, StepsOf(stream, b, turns)) == EventsOf(stream, b, turns)
    decreases |turns|
  {
    hide Drained, Pushed;
    if turns == [] {
    } else {
      var rest := turns[1..];
      assert turns[0] in turns;
      match turns[0]
      case Got(x, now) =>
        StepsKeepWellFormed(b, stream[x], now);
        StepsAreEvents(stream, Pushed(b, stream[x], now), rest);
        ConcreteAppend(stream, [Receive(x, now)], StepsOf(stream, Pushed(b, stream[x], now), rest));
        assert Concrete(stream, [Receive(x, now)]) == [Arrive(stream[x], now)];
      case PumpAll =>
        StepsAreEvents(stream, Drained(b).0, rest);
        var n := |Drained(b).1|;
        ConcreteAppend(stream, Plays(n), StepsOf(stream, Drained(b).0, rest));
        assert Concrete(stream, Plays(n)) == Takes(n);
    }
  }

  lemma ConcreteAppend(stream: seq<Packet>, a: seq<Step>, b: seq<Step>)
    requires Known(stream, a) && Known(stream, b)
    ensures Known(stream, a + b)
    ensures Concrete(stream, a + b) == Concrete(stream, a) + Concrete(stream, b)
  {
  }

  /** The results above speak of the router as it works: whatever is pushed and pumped, the source ends as
      the corresponding pushes and pops leave it. */
  lemma PumpsComputeOutput(v: Stream, b: Buffer, turns: seq<Turn>)
    requires Arriving(v.packets, turns) && WellFormed(b)
    ensures Known(v.packets, StepsOf(v.packets, b, turns))
    ensures Pumped(v.packets, b, NEW_SOURCE, turns).1 == Output(b, Concrete(v.packets, StepsOf(v.packets, b, turns)))
  {
    hide Run, RoutedAll, Pumped, Concrete;
    PumpingIsRun(v.packets, b, NEW_SOURCE, turns);
    StepsAreEvents(v.packets, b, turns);
  }
}
