/** Order over unbounded runs: a ghost copy of the buffer remembers the unbounded number of every
    buffered packet, so that "in order" has a meaning across any number of sixteen-bit wraps. */
module JitterBufferOrder {
  import opened Words
  import opened Packets
  import opened SerialNumbers
  import opened JitterBuffer

  /** The buffer, the unbounded number behind each key, and the unbounded number behind next. */
  datatype Tracked = Tracked(buf: Buffer, tags: map<U16, int>, head: int)

  datatype Step = Receive(x: nat, now: int) | Play

  function Concrete(stream: seq<Packet>, steps: seq<Step>): (events: seq<Event>)
    requires Known(stream, steps)
    ensures |events| == |steps|
  {
    seq(|steps|, i requires 0 <= i < |steps| =>
      match steps[i]
      case Receive(x, now) => assert steps[i] in steps; Arrive(stream[x], now)
      case Play => Take)
  }

  ghost predicate Known(stream: seq<Packet>, steps: seq<Step>)
  {
    forall s :: s in steps && s.Receive? ==> s.x < |stream|
  }

  /** Each buffered packet is the one of the stream its tag names. */
  ghost predicate Matches(stream: seq<Packet>, packets: map<U16, Packet>, tags: map<U16, int>)
  {
    && tags.Keys == packets.Keys
    && (forall k :: k in tags ==> Low16(tags[k]) == k)
    && (forall k :: k in tags ==> 0 <= tags[k] < |stream| && packets[k] == stream[tags[k]])
  }

  ghost predicate Windowed(tags: map<U16, int>, head: int)
  {
    forall k :: k in tags ==> head <= tags[k] < head + 0x1_0000
  }

  ghost predicate Consistent(stream: seq<Packet>, t: Tracked)
  {
    && WellFormed(t.buf)
    && Matches(stream, t.buf.packets, t.tags)
    && (t.buf.playing ==> Low16(t.head) == t.buf.next && Windowed(t.tags, t.head))
  }

  /** Some buffered packets lie on either side of the wrap from 65535 to 0. */
  ghost predicate Straddles(tags: map<U16, int>)
  {
    exists j, k :: j in tags && k in tags && tags[j] / 0x1_0000 != tags[k] / 0x1_0000
  }

  ghost predicate Near(t: Tracked, x: int)
  {
    t.buf.playing ==> -0x8000 <= x - t.head < 0x8000
  }

  ghost predicate SafeHead(t: Tracked)
  {
    Starts(t.buf) || Skips(t.buf) ==> !Straddles(t.tags)
  }

  ghost function After(stream: seq<Packet>, t: Tracked, s: Step): (Tracked, seq<int>)
    requires Consistent(stream, t)
    requires s.Receive? ==> s.x < |stream|
  {
    match s
    case Receive(x, now) =>
      var p := stream[x];
      (Tracked(Pushed(t.buf, p, now), if Inserts(t.buf, p) then t.tags[p.sequence := x] else t.tags, t.head), [])
    case Play =>
      match HeadKey(t.buf)
      case None => (t, [])
      case Some(k) => (Tracked(Popped(t.buf).0, t.tags - {k}, t.tags[k] + 1), [t.tags[k]])
  }

  ghost predicate Allowed(t: Tracked, s: Step)
  {
    match s
    case Receive(x, _) => Near(t, x)
    case Play => SafeHead(t)
  }

  /** Every push of the run is within half a window of the play head, and every start or skip
      happens while the buffered numbers are on one side of the wrap. */
  ghost predicate GoodRun(stream: seq<Packet>, t: Tracked, steps: seq<Step>)
    requires Stamped(stream) && Known(stream, steps) && Consistent(stream, t)
    decreases |steps|
  {
    steps == [] ||
    (Allowed(t, steps[0]) &&
     (StepKeepsConsistent(stream, t, steps[0]);
      GoodRun(stream, After(stream, t, steps[0]).0, steps[1..])))
  }

  ghost function Deliver(stream: seq<Packet>, t: Tracked, steps: seq<Step>): (Tracked, seq<int>)
    requires Stamped(stream) && Known(stream, steps) && Consistent(stream, t)
    requires GoodRun(stream, t, steps)
    decreases |steps|
  {
    if steps == [] then (t, [])
    else
      StepKeepsConsistent(stream, t, steps[0]);
      var (t', out) := After(stream, t, steps[0]);
      var (end, rest) := Deliver(stream, t', steps[1..]);
      (end, out + rest)
  }

  // ---- single steps ----

  lemma StepKeepsConsistent(stream: seq<Packet>, t: Tracked, s: Step)
    requires Stamped(stream) && Consistent(stream, t)
    requires s.Receive? ==> s.x < |stream|
    requires Allowed(t, s)
    ensures Consistent(stream, After(stream, t, s).0)
  {
    match s
    case Receive(x, now) => PushKeepsConsistent(stream, t, x, now);
    case Play => PopKeepsConsistent(stream, t);
  }

  lemma InsertMatches(stream: seq<Packet>, packets: map<U16, Packet>, tags: map<U16, int>, x: nat)
    requires Stamped(stream) && Matches(stream, packets, tags) && x < |stream|
    ensures Matches(stream, packets[Low16(x) := stream[x]], tags[Low16(x) := x])
  {
  }

  lemma RemoveMatches(stream: seq<Packet>, packets: map<U16, Packet>, tags: map<U16, int>, k: U16)
    requires Matches(stream, packets, tags)
    ensures Matches(stream, packets - {k}, tags - {k})
  {
  }

  lemma PushKeepsConsistent(stream: seq<Packet>, t: Tracked, x: nat, now: int)
    requires Stamped(stream) && Consistent(stream, t) && x < |stream| && Near(t, x)
    ensures Consistent(stream, After(stream, t, Receive(x, now)).0)
  {
    StepsKeepWellFormed(t.buf, stream[x], now);
    InsertMatches(stream, t.buf.packets, t.tags, x);
    if t.buf.playing {
      SequenceLessIsOrder(x, t.head);
    }
  }

  lemma PopKeepsConsistent(stream: seq<Packet>, t: Tracked)
    requires Consistent(stream, t) && SafeHead(t)
    ensures Consistent(stream, After(stream, t, Play).0)
  {
    hide Popped, HeadKey;
    if HeadKey(t.buf).Some? {
      PopShape(t.buf);
      HeadIsEarliest(stream, t);
      TakeKeepsConsistent(stream, t, HeadKey(t.buf).value, Popped(t.buf).0);
    }
  }

  lemma TakeKeepsConsistent(stream: seq<Packet>, t: Tracked, k: U16, after: Buffer)
    requires Consistent(stream, t) && k in t.tags
    requires forall j :: j in t.tags && j != k ==> t.tags[k] < t.tags[j] <= t.tags[k] + 0xFFFF
    requires WellFormed(after) && after.playing && after.next == Low16(k + 1) && after.packets == t.buf.packets - {k}
    ensures Consistent(stream, Tracked(after, t.tags - {k}, t.tags[k] + 1))
  {
    RemoveMatches(stream, t.buf.packets, t.tags, k);
    RemoveWindowed(t.tags, k);
    LowSum(t.tags[k], 1);
  }

  lemma RemoveWindowed(tags: map<U16, int>, k: U16)
    requires k in tags
    requires forall j :: j in tags && j != k ==> tags[k] < tags[j] <= tags[k] + 0xFFFF
    ensures Windowed(tags - {k}, tags[k] + 1)
  {
  }

  /** The key a pop takes carries the smallest unbounded number in the buffer, at or after the play
      head, and the others are less than a period behind it. */
  lemma HeadIsEarliest(stream: seq<Packet>, t: Tracked)
    requires Consistent(stream, t) && SafeHead(t) && HeadKey(t.buf).Some?
    ensures var k := HeadKey(t.buf).value;
      && k in t.tags
      && (t.buf.playing ==> t.head <= t.tags[k])
      && forall j :: j in t.tags && j != k ==> t.tags[k] < t.tags[j] <= t.tags[k] + 0xFFFF
  {
    var k := HeadKey(t.buf).value;
    if t.buf.playing && t.buf.next in t.buf.packets {
      LowInjective(t.tags[k], t.head);
      forall j | j in t.tags && j != k ensures t.tags[j] != t.tags[k] {}
    } else {
      FirstKeyIsEarliest(t.tags);
    }
  }

  lemma FirstKeyIsEarliest(tags: map<U16, int>)
    requires forall k :: k in tags ==> Low16(tags[k]) == k
    requires tags != map[] && !Straddles(tags)
    ensures forall j :: j in tags && j != FirstKey(tags) ==>
      tags[FirstKey(tags)] < tags[j] <= tags[FirstKey(tags)] + 0xFFFF
  {
    var k := FirstKey(tags);
    forall j | j in tags && j != k ensures tags[k] < tags[j] <= tags[k] + 0xFFFF {
      assert tags[j] / 0x1_0000 == tags[k] / 0x1_0000;
      assert tags[j] == 0x1_0000 * (tags[j] / 0x1_0000) + j;
      assert tags[k] == 0x1_0000 * (tags[k] / 0x1_0000) + k;
    }
  }

  /** A stalled pop gives up on the missing packet exactly when enough others have piled up, or the
      earliest one waiting is more than five places ahead. */
  lemma GapIsSkippedIff(stream: seq<Packet>, t: Tracked)
    requires Consistent(stream, t) && t.buf.playing && t.buf.next !in t.tags && !Straddles(t.tags)
    requires forall j :: j in t.tags ==> t.tags[j] <= t.head + 0x8005
    ensures HeadKey(t.buf).Some?
       <==> |t.tags| >= t.buf.threshold + 3 || (t.tags != map[] && forall j :: j in t.tags ==> t.tags[j] > t.head + 5)
  {
    hide FirstKey, Straddles, SequenceLess;
    assert |t.tags| == |t.tags.Keys| && |t.buf.packets| == |t.buf.packets.Keys|;
    if t.tags != map[] {
      BurstIffFar(stream, t);
    }
  }

  /** When a pop delivers: before playback once the threshold is reached; afterwards if the packet at the
      play head is there, or its absence is given up on. */
  lemma PopDeliversIff(stream: seq<Packet>, t: Tracked)
    requires Consistent(stream, t)
    requires t.buf.playing && t.buf.next !in t.tags ==> !Straddles(t.tags) && forall j :: j in t.tags ==> t.tags[j] <= t.head + 0x8005
    ensures Popped(t.buf).1.Some?
       <==> if !t.buf.playing then |t.tags| >= t.buf.threshold
            else (exists j :: j in t.tags && t.tags[j] == t.head) || |t.tags| >= t.buf.threshold + 3
                 || (t.tags != map[] && forall j :: j in t.tags ==> t.tags[j] > t.head + 5)
  {
    hide FirstKey, Straddles, SequenceLess, Adapted;
    assert |t.tags| == |t.tags.Keys| && |t.buf.packets| == |t.buf.packets.Keys|;
    if t.buf.playing {
      HeadIsBufferedIff(stream, t);
      if t.buf.next !in t.tags {
        GapIsSkippedIff(stream, t);
      }
    }
  }

  lemma HeadIsBufferedIff(stream: seq<Packet>, t: Tracked)
    requires Consistent(stream, t) && t.buf.playing
    ensures t.buf.next in t.buf.packets <==> exists j :: j in t.tags && t.tags[j] == t.head
  {
    if t.buf.next in t.tags {
      LowInjective(t.tags[t.buf.next], t.head);
    }
  }

  /** What a push does with packet x: refused if it comes before the play head or fifty are held, and
      otherwise kept unless it is held already. */
  lemma AcceptedIff(stream: seq<Packet>, t: Tracked, x: nat)
    requires Stamped(stream) && Consistent(stream, t) && x < |stream| && Near(t, x)
    ensures Accepts(t.buf, stream[x]) <==> (t.buf.playing ==> t.head <= x) && |t.tags| < 50
    ensures t.buf.playing ==> (Inserts(t.buf, stream[x]) <==> Accepts(t.buf, stream[x]) && forall j :: j in t.tags ==> t.tags[j] != x)
  {
    hide SequenceLess;
    assert |t.tags| == |t.tags.Keys| && |t.buf.packets| == |t.buf.packets.Keys|;
    if t.buf.playing {
      SequenceLessIsOrder(x, t.head);
      if t.head <= x && Low16(x) in t.tags {
        LowInjective(t.tags[Low16(x)], x);
      }
    }
  }

  lemma BurstIffFar(stream: seq<Packet>, t: Tracked)
    requires Consistent(stream, t) && t.buf.playing && !Straddles(t.tags) && t.tags != map[]
    requires forall j :: j in t.tags ==> t.tags[j] <= t.head + 0x8005
    ensures t.buf.packets != map[]
    ensures Burst(t.buf) <==> forall j :: j in t.tags ==> t.tags[j] > t.head + 5
  {
    hide WellFormed, SequenceLess;
    var j :| j in t.tags;
    assert j in t.buf.packets;
    var k := FirstKey(t.buf.packets);
    FirstKeyIsEarliest(t.tags);
    assert FirstKey(t.tags) == k;
    SequenceLessIsOrder(t.head + 5, t.tags[k]);
    LowSum(t.head, 5);
  }

  // ---- runs ----

  function Select(stream: seq<Packet>, xs: seq<int>): (out: seq<Packet>)
    requires forall i :: 0 <= i < |xs| ==> 0 <= xs[i] < |stream|
    ensures |out| == |xs|
  {
    seq(|xs|, i requires 0 <= i < |xs| => stream[xs[i]])
  }

  ghost predicate From(t: Tracked, xs: seq<int>)
  {
    t.buf.playing ==> forall i :: 0 <= i < |xs| ==> t.head <= xs[i]
  }

  /** For any schedule of arrivals (losses, reorderings, repeats) and pops, over any number of wraps,
      the delivered packets have strictly increasing unbounded numbers: nothing is delivered twice or
      after a later packet. */
  lemma {:induction false} OrderedDelivery(stream: seq<Packet>, t: Tracked, steps: seq<Step>)
    requires Stamped(stream) && Known(stream, steps) && Consistent(stream, t)
    requires GoodRun(stream, t, steps)
    ensures var (end, xs) := Deliver(stream, t, steps);
      Consistent(stream, end) && Increasing(xs) && From(t, xs) && InStream(stream, xs)
    decreases |steps|
  {
    if steps == [] {
    } else {
      var s := steps[0];
      StepKeepsConsistent(stream, t, s);
      StepDelivers(stream, t, s);
      var (t', out) := After(stream, t, s);
      OrderedDelivery(stream, t', steps[1..]);
      PrependOrdered(stream, t, t', out, Deliver(stream, t', steps[1..]).1);
    }
  }

  lemma PrependOrdered(stream: seq<Packet>, t: Tracked, t': Tracked, out: seq<int>, rest: seq<int>)
    requires |out| <= 1 && From(t, out) && InStream(stream, out)
    requires out == [] ==> t'.head == t.head && t'.buf.playing == t.buf.playing
    requires |out| == 1 ==> t'.buf.playing && t'.head == out[0] + 1
    requires Increasing(rest) && From(t', rest) && InStream(stream, rest)
    ensures Increasing(out + rest) && From(t, out + rest) && InStream(stream, out + rest)
  {
    if out == [] {
      assert out + rest == rest;
    }
  }

  ghost predicate InStream(stream: seq<Packet>, xs: seq<int>)
  {
    forall i :: 0 <= i < |xs| ==> 0 <= xs[i] < |stream|
  }

  lemma StepDelivers(stream: seq<Packet>, t: Tracked, s: Step)
    requires Consistent(stream, t) && Allowed(t, s)
    requires s.Receive? ==> s.x < |stream|
    ensures var (t', out) := After(stream, t, s);
      && |out| <= 1 && From(t, out) && InStream(stream, out)
      && (out == [] ==> t'.head == t.head && t'.buf.playing == t.buf.playing)
      && (|out| == 1 ==> t'.buf.playing && t'.head == out[0] + 1)
  {
    hide Popped, HeadKey;
    if s.Play? && HeadKey(t.buf).Some? {
      HeadIsEarliest(stream, t);
      PopShape(t.buf);
    }
  }

  /** The tracked run is the run of the buffer itself: it delivers the packets of the stream that the
      tracked run names. */
  lemma {:induction false} DeliveryIsRun(stream: seq<Packet>, t: Tracked, steps: seq<Step>)
    requires Stamped(stream) && Known(stream, steps) && Consistent(stream, t)
    requires GoodRun(stream, t, steps)
    ensures var (end, xs) := Deliver(stream, t, steps);
      && InStream(stream, xs)
      && Run(t.buf, Concrete(stream, steps)) == (end.buf, Select(stream, xs))
    decreases |steps|
  {
    OrderedDelivery(stream, t, steps);
    if steps == [] {
      assert Concrete(stream, steps) == [];
    } else {
      var s := steps[0];
      StepKeepsConsistent(stream, t, s);
      StepDelivers(stream, t, s);
      var (t', out) := After(stream, t, s);
      DeliveryIsRun(stream, t', steps[1..]);
      ConcreteHead(stream, steps);
      StepIsBufferStep(stream, t, s, Concrete(stream, steps)[0]);
      SelectAppend(stream, out, Deliver(stream, t', steps[1..]).1);
    }
  }

  lemma ConcreteHead(stream: seq<Packet>, steps: seq<Step>)
    requires Known(stream, steps) && steps != []
    ensures Concrete(stream, steps)[1..] == Concrete(stream, steps[1..])
    ensures Concrete(stream, steps)[0] ==
      if steps[0].Receive? then assert steps[0] in steps; Arrive(stream[steps[0].x], steps[0].now) else Take
  {
  }

  lemma SelectAppend(stream: seq<Packet>, xs: seq<int>, ys: seq<int>)
    requires InStream(stream, xs) && InStream(stream, ys)
    ensures InStream(stream, xs + ys)
    ensures Select(stream, xs + ys) == Select(stream, xs) + Select(stream, ys)
  {
  }

  lemma StepIsBufferStep(stream: seq<Packet>, t: Tracked, s: Step, e: Event)
    requires Consistent(stream, t) && Allowed(t, s)
    requires s.Receive? ==> s.x < |stream| && e == Arrive(stream[s.x], s.now)
    requires s.Play? ==> e == Take
    ensures var (t', out) := After(stream, t, s);
      InStream(stream, out) && Apply(t.buf, e) == (t'.buf, Select(stream, out))
  {
    if s.Play? {
      if HeadKey(t.buf).Some? {
        HeadIsEarliest(stream, t);
        var k := HeadKey(t.buf).value;
        assert Select(stream, [t.tags[k]]) == [t.buf.packets[k]];
      } else {
        assert Select(stream, []) == [];
      }
    }
  }

  // ---- where the order is lost ----

  /** Jumping to the first key lands on the earliest buffered packet exactly when the buffered numbers
      do not straddle the wrap. */
  lemma FirstKeyIsEarliestIff(tags: map<U16, int>)
    requires forall k :: k in tags ==> Low16(tags[k]) == k
    requires tags != map[]
    requires forall j, k :: j in tags && k in tags ==> tags[j] - tags[k] < 0x1_0000
    ensures (forall j :: j in tags ==> tags[FirstKey(tags)] <= tags[j]) <==> !Straddles(tags)
  {
    if !Straddles(tags) {
      FirstKeyIsEarliest(tags);
    } else {
      var j, k :| j in tags && k in tags && tags[j] / 0x1_0000 != tags[k] / 0x1_0000;
      var f: U16 := FirstKey(tags);
      var far: U16 := if tags[j] / 0x1_0000 != tags[f] / 0x1_0000 then j else k;
      assert tags[far] == 0x1_0000 * (tags[far] / 0x1_0000) + far;
      assert tags[f] == 0x1_0000 * (tags[f] / 0x1_0000) + f;
      assert tags[far] < tags[f];
    }
  }

  /** A run that starts on straddling numbers: every push is within half a window of the play head,
      yet packet 65535 is delivered after packets 65536 and 98302. */
  lemma StraddlingStartReorders(early: Packet, wrapped: Packet, far: Packet, now: int)
    requires early.sequence == Low16(65535) && wrapped.sequence == Low16(65536) && far.sequence == Low16(98302)
    ensures Run(FRESH, [Arrive(early, now), Arrive(wrapped, now)] + [Take, Arrive(far, now), Take, Take]).1
         == [wrapped, far, early]
  {
    hide Run, Apply, Observe, HeadKey;
    var b1 := Arrived(FRESH, early, now);
    var b2 := Arrived(b1, wrapped, now);
    StraddlingStart(b2, early, wrapped, far, now);
    RunTwo(FRESH, Arrive(early, now), Arrive(wrapped, now), [Take, Arrive(far, now), Take, Take]);
  }

  ghost predicate HoldsOne(b: Buffer, j: U16, p: Packet)
  {
    b.packets.Keys == {j} && b.packets[j] == p
  }

  ghost predicate HoldsTwo(b: Buffer, j: U16, p: Packet, k: U16, q: Packet)
  {
    b.packets.Keys == {j, k} && b.packets[j] == p && b.packets[k] == q
  }

  lemma StraddlingStart(b2: Buffer, early: Packet, wrapped: Packet, far: Packet, now: int)
    requires early.sequence == 0xFFFF && wrapped.sequence == 0 && far.sequence == 0x7FFE
    requires WellFormed(b2) && !b2.playing && !b2.adaptive && b2.threshold == 2
    requires HoldsTwo(b2, 0xFFFF, early, 0, wrapped)
    ensures Run(b2, [Take, Arrive(far, now), Take, Take]).1 == [wrapped, far, early]
  {
    hide Run, Apply, HeadKey, Observe;
    HeadOfPair(b2, 0xFFFF, early, 0, wrapped);
    TakesOneOfTwo(b2, 0xFFFF, early, 0, wrapped);
    var b3 := Apply(b2, Take).0;
    var b4 := Arrived(b3, far, now);
    StraddlingSkip(b4, early, far);
    RunTwo(b2, Take, Arrive(far, now), [Take, Take]);
    assert [Take, Arrive(far, now)] + [Take, Take] == [Take, Arrive(far, now), Take, Take];
  }

  lemma StraddlingSkip(b4: Buffer, early: Packet, far: Packet)
    requires WellFormed(b4) && b4.playing && !b4.adaptive && b4.next == 1
    requires HoldsTwo(b4, 0xFFFF, early, 0x7FFE, far)
    ensures Run(b4, [Take, Take]).1 == [far, early]
  {
    hide Run, Apply, HeadKey;
    BurstSkipsTo(b4, 0x7FFE);
    TakesOneOfTwo(b4, 0xFFFF, early, 0x7FFE, far);
    var b5 := Apply(b4, Take).0;
    BurstSkipsTo(b5, 0xFFFF);
    TakesKey(b5, 0xFFFF);
    RunTwo(b4, Take, Take, []);
    RunNothing(Apply(b5, Take).0);
    assert [Take, Take] + [] == [Take, Take];
  }

  lemma TakesOneOfTwo(b: Buffer, j: U16, p: Packet, k: U16, q: Packet)
    requires WellFormed(b) && !b.adaptive && j != k && HoldsTwo(b, j, p, k, q) && HeadKey(b) == Some(k)
    ensures var (b', out) := Apply(b, Take);
      && out == [q] && HoldsOne(b', j, p)
      && b'.playing && b'.next == Low16(k + 1) && b'.adaptive == b.adaptive
  {
    hide Apply, HeadKey;
    TakesKey(b, k);
    assert (b.packets - {k}).Keys == {j};
  }

  lemma HeadOfPair(b: Buffer, j: U16, p: Packet, k: U16, q: Packet)
    requires WellFormed(b) && !b.playing && b.threshold <= 2
    requires k < j && HoldsTwo(b, j, p, k, q)
    ensures HeadKey(b) == Some(k)
  {
    assert |b.packets| == |b.packets.Keys| == 2;
  }

  lemma BurstSkipsTo(b: Buffer, k: U16)
    requires WellFormed(b) && b.playing && b.next !in b.packets
    requires k in b.packets && forall j :: j in b.packets ==> k <= j
    requires SequenceLess(Low16(b.next + 5), k)
    ensures HeadKey(b) == Some(k)
  {
    assert FirstKey(b.packets) == k;
  }

  lemma Arrived(b: Buffer, p: Packet, now: int) returns (b': Buffer)
    requires WellFormed(b) && Inserts(b, p)
    ensures Apply(b, Arrive(p, now)) == (b', []) && WellFormed(b')
    ensures b' == b.(stats := b'.stats, packets := b.packets[p.sequence := p])
  {
    b' := Apply(b, Arrive(p, now)).0;
  }

  lemma TakesKey(b: Buffer, k: U16)
    requires WellFormed(b) && !b.adaptive && HeadKey(b) == Some(k)
    ensures Apply(b, Take) == (b.(packets := b.packets - {k}, playing := true, next := Low16(k + 1)), [b.packets[k]])
  {
  }

  lemma RunTwo(b: Buffer, e0: Event, e1: Event, rest: seq<Event>)
    requires WellFormed(b)
    ensures var (b', out0) := Apply(b, e0);
      var (b'', out1) := Apply(b', e1);
      Run(b, [e0, e1] + rest).1 == out0 + out1 + Run(b'', rest).1
  {
    hide Apply;
    var events := [e0, e1] + rest;
    assert events[0] == e0 && events[1..][0] == e1 && events[1..][1..] == rest;
    var (b', out0) := Apply(b, e0);
    var (b'', out1) := Apply(b', e1);
    assert Run(b', events[1..]).1 == out1 + Run(b'', rest).1;
    assert out0 + (out1 + Run(b'', rest).1) == out0 + out1 + Run(b'', rest).1;
  }
}
