/** From packets to frames: what the router makes of any in-order subsequence of a packetized stream. */
module VideoPipeline {
  import opened Words
  import opened Packets
  import opened SerialNumbers
  import opened JitterBufferOrder
  import opened VideoPacketizer
  import opened VideoReassembler
  import opened PeerVideoRouter

  /** A video stream: stamped, laid out frame by frame, its clock advancing by step per frame. */
  datatype Stream = Stream(packets: seq<Packet>, owner: seq<nat>, step: U32)

  ghost predicate WellSent(v: Stream)
  {
    && Stamped(v.packets)
    && Layout(v.packets, v.owner, v.step, 0)
    && 0 < v.step
  }

  lemma {:induction false} OwnersGrow(v: Stream, x: nat, y: nat)
    requires WellSent(v) && x < y < |v.packets|
    ensures v.owner[x] <= v.owner[y]
    ensures v.packets[x].HasMarker() ==> v.owner[x] < v.owner[y]
    ensures v.owner[y] - v.owner[x] <= y - x
    ensures v.owner[x] == v.owner[y] ==> !v.packets[x].HasMarker()
    decreases y - x
  {
    assert Follows(v.packets[x], v.owner[x], v.owner[x + 1]);
    if x + 1 < y {
      OwnersGrow(v, x + 1, y);
    }
  }

  // ---- in-order subsequences ----

  /** Strictly increasing packet numbers, in which different neighbouring frames have different
      timestamps. */
  ghost predicate Survives(v: Stream, xs: seq<int>)
  {
    && InStream(v.packets, xs)
    && forall i :: 0 <= i < |xs| - 1 ==> Hop(v, xs[i], xs[i + 1])
  }

  ghost predicate Hop(v: Stream, x: int, y: int)
  {
    && 0 <= x < y < |v.packets| == |v.owner|
    && (v.owner[x] != v.owner[y] ==> v.packets[x].timestamp != v.packets[y].timestamp)
  }

  /** No jump over a whole sixteen-bit period of sequence numbers, nor over a whole thirty-two-bit
      period of the media clock. */
  ghost predicate Tight(v: Stream, xs: seq<int>)
  {
    && InStream(v.packets, xs)
    && forall i :: 0 <= i < |xs| - 1 ==> ShortHop(v, xs[i], xs[i + 1])
  }

  ghost predicate ShortHop(v: Stream, x: int, y: int)
  {
    && 0 <= x < y < |v.packets| == |v.owner|
    && y - x <= 0x1_0000
    && (v.owner[y] - v.owner[x]) * v.step < 0x1_0000_0000
  }

  lemma TightSurvives(v: Stream, xs: seq<int>)
    requires WellSent(v) && Tight(v, xs)
    ensures Survives(v, xs)
  {
    forall i | 0 <= i < |xs| - 1 ensures Hop(v, xs[i], xs[i + 1]) {
      assert ShortHop(v, xs[i], xs[i + 1]);
      FrameTimesDiffer(v, xs[i], xs[i + 1]);
    }
  }

  function Last<T>(s: seq<T>): T
    requires s != []
  {
    s[|s| - 1]
  }

  function Front<T>(s: seq<T>): seq<T>
    requires s != []
  {
    s[..|s| - 1]
  }

  /** The survivors of frame i among the packets numbered xs, in order. */
  function Survivors(v: Stream, xs: seq<int>, i: nat): seq<Packet>
    requires InStream(v.packets, xs) && |v.owner| == |v.packets|
  {
    if xs == [] then []
    else
      Survivors(v, Front(xs), i) + (if v.owner[Last(xs)] == i then [v.packets[Last(xs)]] else [])
  }

  /** One emission for every surviving mark, in order: the surviving payloads of its frame, joined. */
  function Emissions(v: Stream, xs: seq<int>): seq<Call>
    requires InStream(v.packets, xs) && |v.owner| == |v.packets|
  {
    if xs == [] then []
    else
      Emissions(v, Front(xs))
      + (if v.packets[Last(xs)].HasMarker() then [Decode(Joined(Survivors(v, xs, v.owner[Last(xs)])))] else [])
  }

  function DecodesOf(calls: seq<Call>): seq<Call>
  {
    if calls == [] then []
    else DecodesOf(Front(calls)) + (if Last(calls).Decode? then [Last(calls)] else [])
  }

  function CountConceals(calls: seq<Call>): nat
  {
    if calls == [] then 0 else CountConceals(Front(calls)) + (if Last(calls).Conceal? then 1 else 0)
  }

  lemma {:induction false} CallsAppend(a: seq<Call>, b: seq<Call>)
    ensures DecodesOf(a + b) == DecodesOf(a) + DecodesOf(b)
    ensures CountConceals(a + b) == CountConceals(a) + CountConceals(b)
    decreases |b|
  {
    if b == [] {
      assert a + b == a;
    } else {
      AppendLast(a, b);
      CallsAppend(a, Front(b));
      Assoc(DecodesOf(a), DecodesOf(Front(b)), if Last(b).Decode? then [Last(b)] else []);
    }
  }

  lemma {:induction false} ConcealsCount(n: nat)
    ensures DecodesOf(Conceals(n)) == [] && CountConceals(Conceals(n)) == n
  {
    if n == 0 {
    } else {
      assert Front(Conceals(n)) == Conceals(n - 1);
      ConcealsCount(n - 1);
    }
  }

  // ---- the state of the source after a prefix ----

  /** What the source remembers after the packets numbered xs. */
  ghost predicate Remembers(v: Stream, xs: seq<int>, s: Source)
    requires InStream(v.packets, xs) && |v.owner| == |v.packets|
  {
    if xs == [] then s == NEW_SOURCE
    else
      var last := v.packets[Last(xs)];
      && s.haveTimestamp && s.timestamp == last.timestamp
      && s.haveSequence && s.lastSequence == last.sequence
      && s.frameCompleted == last.HasMarker()
      && s.assembly == Assembly(Joined(Survivors(v, xs, v.owner[Last(xs)])), last.timestamp, true, last.HasMarker())
  }

  lemma {:induction false} NoSurvivorsYet(v: Stream, xs: seq<int>, i: nat)
    requires InStream(v.packets, xs) && |v.owner| == |v.packets|
    requires forall k :: 0 <= k < |xs| ==> v.owner[xs[k]] < i
    ensures Survivors(v, xs, i) == []
  {
    if xs == [] {
    } else {
      NoSurvivorsYet(v, Front(xs), i);
    }
  }

  lemma {:induction false} HopsGrow(v: Stream, xs: seq<int>, k: nat)
    requires WellSent(v) && Survives(v, xs) && k < |xs| - 1
    ensures xs[k] < xs[|xs| - 1]
    decreases |xs| - k
  {
    assert Hop(v, xs[k], xs[k + 1]);
    if k + 1 < |xs| - 1 {
      HopsGrow(v, xs, k + 1);
    }
  }

  /** Frames that are different and less than a clock period apart have different timestamps. */
  lemma FrameTimesDiffer(v: Stream, x: int, y: int)
    requires WellSent(v) && ShortHop(v, x, y)
    ensures v.owner[x] <= v.owner[y]
    ensures Low32(v.packets[y].timestamp - v.packets[x].timestamp) == (v.owner[y] - v.owner[x]) * v.step
    ensures v.packets[x].timestamp == v.packets[y].timestamp <==> v.owner[x] == v.owner[y]
  {
    OwnersGrow(v, x, y);
    ClockDifference(v.owner[x], v.owner[y], v.step);
  }

  lemma ClockDifference(i: nat, j: nat, step: U32)
    requires i <= j && 0 < step && (j - i) * step < 0x1_0000_0000
    ensures Low32(FrameTime(j, step) - FrameTime(i, step)) == (j - i) * step
    ensures FrameTime(j, step) == FrameTime(i, step) <==> j == i
  {
    Distribute(i, j - i, step);
    Positive(j - i, step);
    WrapDifference(i * step, (j - i) * step);
  }

  lemma Distribute(i: nat, n: nat, step: nat)
    ensures (i + n) * step == i * step + n * step
  {
  }

  lemma Positive(n: nat, step: nat)
    requires 0 < step
    ensures n * step >= 0 && (n * step == 0 <==> n == 0)
  {
  }

  lemma WrapDifference(a: nat, d: nat)
    requires d < 0x1_0000_0000
    ensures Low32(Low32(a + d) - Low32(a)) == d
    ensures Low32(a + d) == Low32(a) <==> d == 0
  {
  }

  // ---- one more packet ----

  lemma Snoc(v: Stream, xs: seq<int>, y: int)
    requires WellSent(v) && Survives(v, xs + [y])
    ensures Front(xs + [y]) == xs && Last(xs + [y]) == y
    ensures InStream(v.packets, xs) && Survives(v, xs) && 0 <= y < |v.packets| == |v.owner|
    ensures xs != [] ==> Hop(v, Last(xs), y)
  {
    var zs := xs + [y];
    assert zs[|xs|] == y;
    forall i | 0 <= i < |xs| ensures 0 <= xs[i] < |v.packets| {
      assert zs[i] == xs[i];
    }
    forall i | 0 <= i < |xs| - 1 ensures Hop(v, xs[i], xs[i + 1]) {
      assert Hop(v, zs[i], zs[i + 1]);
    }
    if xs != [] {
      assert Hop(v, zs[|xs| - 1], zs[|xs|]);
    }
  }

  lemma FreshFrame(v: Stream, xs: seq<int>, y: int)
    requires WellSent(v) && Survives(v, xs + [y]) && 0 <= y < |v.packets|
    requires xs != [] ==> InStream(v.packets, xs) && v.owner[Last(xs)] < v.owner[y]
    ensures InStream(v.packets, xs)
    ensures Survivors(v, xs, v.owner[y]) == []
  {
    Snoc(v, xs, y);
    forall k | 0 <= k < |xs| ensures v.owner[xs[k]] < v.owner[y] {
      if k < |xs| - 1 {
        HopsGrow(v, xs, k);
        OwnersGrow(v, xs[k], Last(xs));
      }
    }
    NoSurvivorsYet(v, xs, v.owner[y]);
  }

  lemma JoinedSnoc(packets: seq<Packet>, p: Packet)
    ensures Joined(packets + [p]) == Joined(packets) + p.payload
  {
    AppendLast(packets, [p]);
    assert packets + [p][..0] == packets;
  }

  lemma AssemblyStep(v: Stream, xs: seq<int>, y: int, s: Source)
    requires WellSent(v) && Survives(v, xs + [y])
    requires InStream(v.packets, xs) && Remembers(v, xs, s)
    ensures 0 <= y < |v.packets|
    ensures var p := v.packets[y];
      Fed(s.assembly, p) == Assembly(Joined(Survivors(v, xs + [y], v.owner[y])), p.timestamp, true, p.HasMarker())
  {
    Snoc(v, xs, y);
    var (p, j) := (v.packets[y], v.owner[y]);
    assert Survivors(v, xs + [y], j) == Survivors(v, xs, j) + [p];
    JoinedSnoc(Survivors(v, xs, j), p);
    if xs == [] {
      FreshFrame(v, xs, y);
    } else {
      var x := Last(xs);
      OwnersGrow(v, x, y);
      if v.owner[x] < j {
        FreshFrame(v, xs, y);
      }
    }
  }

  lemma RememberStep(v: Stream, xs: seq<int>, y: int, s: Source)
    requires WellSent(v) && Survives(v, xs + [y])
    requires InStream(v.packets, xs) && Remembers(v, xs, s)
    ensures 0 <= y < |v.packets|
    ensures Remembers(v, xs + [y], Routed(s, v.packets[y]))
    ensures DecodesOf(Routed(s, v.packets[y]).calls)
      == DecodesOf(s.calls)
         + (if v.packets[y].HasMarker() then [Decode(Joined(Survivors(v, xs + [y], v.owner[y])))] else [])
  {
    hide Survivors, Joined, Fed, WellSent, Survives;
    Snoc(v, xs, y);
    AssemblyStep(v, xs, y, s);
    var p := v.packets[y];
    RoutedCalls(s, p);
    if xs != [] {
      OwnersGrow(v, Last(xs), y);
      TimesTellFrames(v, Last(xs), y);
    }
  }

  lemma TimesTellFrames(v: Stream, x: int, y: int)
    requires WellSent(v) && Hop(v, x, y)
    ensures v.packets[x].timestamp == v.packets[y].timestamp <==> v.owner[x] == v.owner[y]
  {
  }

  lemma RoutedCalls(s: Source, p: Packet)
    ensures DecodesOf(Routed(s, p).calls) == DecodesOf(s.calls) + Decodes(Fed(s.assembly, p))
    ensures CountConceals(Routed(s, p).calls) == CountConceals(s.calls) + Abandoned(s, p) + Vanished(s, p)
  {
    hide Abandoned, Vanished, Fed;
    var n := Abandoned(s, p) + Vanished(s, p);
    ConcealsCount(n);
    CallsAppend(s.calls, Conceals(n));
    CallsAppend(s.calls + Conceals(n), Decodes(Fed(s.assembly, p)));
    DecodesAlone(Fed(s.assembly, p));
  }

  lemma DecodesAlone(a: Assembly)
    ensures DecodesOf(Decodes(a)) == Decodes(a) && CountConceals(Decodes(a)) == 0
  {
    if a.ready {
      assert Front(Decodes(a)) == [];
    }
  }

  // ---- exact frames ----

  /** The source after the packets numbered xs. */
  function Received(v: Stream, xs: seq<int>): Source
    requires InStream(v.packets, xs)
  {
    RoutedAll(NEW_SOURCE, Select(v.packets, xs))
  }

  lemma ReceivedSnoc(v: Stream, xs: seq<int>, y: int)
    requires InStream(v.packets, xs + [y])
    ensures InStream(v.packets, xs) && 0 <= y < |v.packets|
    ensures Received(v, xs + [y]) == Routed(Received(v, xs), v.packets[y])
  {
    var zs := xs + [y];
    assert zs[|xs|] == y;
    assert forall i :: 0 <= i < |xs| ==> zs[i] == xs[i];
    assert Select(v.packets, zs)[..|zs| - 1] == Select(v.packets, xs);
  }

  /** The decoder is handed exactly one frame for every surviving mark, in sending order, and each
      is the in-order concatenation of that frame's own surviving payloads. */
  lemma {:induction false} ExactFrames(v: Stream, xs: seq<int>)
    requires WellSent(v) && Survives(v, xs)
    ensures Remembers(v, xs, Received(v, xs))
    ensures DecodesOf(Received(v, xs).calls) == Emissions(v, xs)
    decreases |xs|
  {
    hide Remembers, Survives, WellSent, Survivors, Joined;
    if xs == [] {
      NothingReceived(v);
    } else {
      var ys, y := Front(xs), Last(xs);
      assert xs == ys + [y];
      Snoc(v, ys, y);
      ExactFrames(v, ys);
      RememberStep(v, ys, y, Received(v, ys));
      ReceivedSnoc(v, ys, y);
    }
  }

  lemma NothingReceived(v: Stream)
    requires WellSent(v)
    ensures Remembers(v, [], Received(v, [])) && Received(v, []) == NEW_SOURCE
  {
  }

  /** The frames whose mark survived, in order. */
  function Marked(v: Stream, xs: seq<int>): seq<int>
    requires InStream(v.packets, xs) && |v.owner| == |v.packets|
  {
    if xs == [] then []
    else Marked(v, Front(xs)) + (if v.packets[Last(xs)].HasMarker() then [v.owner[Last(xs)]] else [])
  }

  /** Call k hands over the joined survivors of frame ms[k]. */
  ghost predicate FrameCalls(v: Stream, xs: seq<int>, ms: seq<int>, calls: seq<Call>)
    requires InStream(v.packets, xs) && |v.owner| == |v.packets|
  {
    && |ms| == |calls|
    && forall k :: 0 <= k < |ms| ==> 0 <= ms[k] && calls[k] == Decode(Joined(Survivors(v, xs, ms[k])))
  }

  ghost predicate AllBelow(ms: seq<int>, bound: int)
  {
    forall k :: 0 <= k < |ms| ==> ms[k] < bound
  }

  /** Emissions by frame: strictly increasing frame numbers, so no frame is emitted twice or out of
      order, and each emission is made of all the surviving payloads of its frame. */
  lemma {:induction false} EmissionsByFrame(v: Stream, xs: seq<int>)
    requires WellSent(v) && Survives(v, xs)
    ensures Increasing(Marked(v, xs))
    ensures FrameCalls(v, xs, Marked(v, xs), Emissions(v, xs))
    ensures xs != [] ==> AllBelow(Marked(v, xs), v.owner[Last(xs)] + (if v.packets[Last(xs)].HasMarker() then 1 else 0))
    decreases |xs|
  {
    hide Joined, WellSent, Survives, Survivors, Hop, Increasing, FrameCalls, Marked, Emissions;
    if xs == [] {
      NoCalls(v);
    } else {
      var ys, y := Front(xs), Last(xs);
      assert xs == ys + [y];
      Snoc(v, ys, y);
      EmissionsByFrame(v, ys);
      if ys == [] {
        NoCalls(v);
      } else {
        HopGrows(v, Last(ys), y);
      }
      KeptCalls(v, ys, y, Marked(v, ys), Emissions(v, ys));
      OneMoreCall(v, ys, y);
      if v.packets[y].HasMarker() {
        AppendCall(v, xs, Marked(v, ys), Emissions(v, ys), v.owner[y]);
      }
    }
  }

  lemma NoCalls(v: Stream)
    requires WellSent(v)
    ensures |v.owner| == |v.packets| && Marked(v, []) == [] && Emissions(v, []) == []
    ensures Increasing([]) && FrameCalls(v, [], [], [])
  {
  }

  lemma OneMoreCall(v: Stream, ys: seq<int>, y: int)
    requires InStream(v.packets, ys + [y]) && InStream(v.packets, ys) && |v.owner| == |v.packets|
    requires Front(ys + [y]) == ys && Last(ys + [y]) == y && 0 <= y < |v.packets|
    ensures v.packets[y].HasMarker() ==>
      && Marked(v, ys + [y]) == Marked(v, ys) + [v.owner[y]]
      && Emissions(v, ys + [y]) == Emissions(v, ys) + [Decode(Joined(Survivors(v, ys + [y], v.owner[y])))]
    ensures !v.packets[y].HasMarker() ==> Marked(v, ys + [y]) == Marked(v, ys) && Emissions(v, ys + [y]) == Emissions(v, ys)
  {
    hide Joined, Survivors;
  }

  lemma AppendCall(v: Stream, xs: seq<int>, ms: seq<int>, calls: seq<Call>, m: nat)
    requires InStream(v.packets, xs) && |v.owner| == |v.packets|
    requires FrameCalls(v, xs, ms, calls) && Increasing(ms) && AllBelow(ms, m)
    ensures FrameCalls(v, xs, ms + [m], calls + [Decode(Joined(Survivors(v, xs, m)))])
    ensures Increasing(ms + [m]) && AllBelow(ms + [m], m + 1)
  {
    hide Joined, Survivors;
  }

  lemma HopGrows(v: Stream, x: int, y: int)
    requires WellSent(v) && Hop(v, x, y)
    ensures v.owner[x] + (if v.packets[x].HasMarker() then 1 else 0) <= v.owner[y]
  {
    OwnersGrow(v, x, y);
  }

  lemma KeptCalls(v: Stream, ys: seq<int>, y: int, ms: seq<int>, calls: seq<Call>)
    requires InStream(v.packets, ys) && |v.owner| == |v.packets| && 0 <= y < |v.packets|
    requires FrameCalls(v, ys, ms, calls) && AllBelow(ms, v.owner[y])
    ensures InStream(v.packets, ys + [y]) && FrameCalls(v, ys + [y], ms, calls)
  {
    hide Joined;
    assert Front(ys + [y]) == ys && Last(ys + [y]) == y;
    forall k | 0 <= k < |ms| ensures Survivors(v, ys + [y], ms[k]) == Survivors(v, ys, ms[k]) {}
  }

  /** Packet numbers received below b, and none from b on, within a block. */
  ghost predicate ReceivedBelow(xs: seq<int>, low: int, b: int, high: int)
  {
    forall x :: low <= x < high ==> (x in xs <==> x < b)
  }

  lemma LastIsLargest(v: Stream, ys: seq<int>, y: int)
    requires WellSent(v) && Survives(v, ys + [y])
    ensures forall x :: x in ys ==> x < y
    ensures forall x :: x in ys + [y] <==> x in ys || x == y
  {
    var xs := ys + [y];
    forall x | x in ys ensures x < y {
      var k :| 0 <= k < |ys| && ys[k] == x;
      HopsGrow(v, xs, k);
    }
  }

  lemma {:induction false} SurvivorsOfBlock(v: Stream, xs: seq<int>, i: nat, low: nat, b: nat, high: nat)
    requires WellSent(v) && Survives(v, xs)
    requires low <= b <= high <= |v.packets|
    requires forall x :: 0 <= x < |v.owner| ==> (v.owner[x] == i <==> low <= x < high)
    requires ReceivedBelow(xs, low, b, high)
    ensures Survivors(v, xs, i) == v.packets[low..b]
    decreases |xs|
  {
    hide WellSent, Survives;
    if xs == [] {
      assert low < b ==> low in xs;
      assert v.packets[low..b] == [];
    } else {
      var ys, y := Front(xs), Last(xs);
      assert xs == ys + [y];
      Snoc(v, ys, y);
      LastIsLargest(v, ys, y);
      if low <= y < high {
        assert y in xs;
        assert b - 1 in xs && b - 1 == y;
        SurvivorsOfBlock(v, ys, i, low, b - 1, high);
        assert v.packets[low..b] == v.packets[low..b - 1] + [v.packets[b - 1]];
      } else {
        SurvivorsOfBlock(v, ys, i, low, b, high);
        assert v.packets[low..b] + [] == v.packets[low..b];
      }
    }
  }

  lemma {:induction false} SurvivingMarkIsMarked(v: Stream, xs: seq<int>, x: int)
    requires InStream(v.packets, xs) && |v.owner| == |v.packets|
    requires x in xs && 0 <= x < |v.packets| && v.packets[x].HasMarker()
    ensures v.owner[x] in Marked(v, xs)
    decreases |xs|
  {
    if x != Last(xs) {
      assert x in Front(xs);
      SurvivingMarkIsMarked(v, Front(xs), x);
    }
  }

  lemma LastOfBlockIsMarked(v: Stream, i: nat, low: nat, high: nat)
    requires WellSent(v) && low < high <= |v.packets|
    requires forall x :: 0 <= x < |v.owner| ==> (v.owner[x] == i <==> low <= x < high)
    ensures v.packets[high - 1].HasMarker()
  {
    if high < |v.packets| {
      assert Follows(v.packets[high - 1], v.owner[high - 1], v.owner[high]);
    }
  }

  /** A frame all of whose packets are received is handed to the decoder byte for byte, once. */
  lemma CompleteFrameIsEmitted(v: Stream, xs: seq<int>, frame: seq<Byte>, i: nat, low: nat, high: nat) returns (k: nat)
    requires WellSent(v) && Survives(v, xs) && Carries(v.packets, v.owner, frame, i, low, high)
    requires forall x :: low <= x < high ==> x in xs
    ensures k < |Emissions(v, xs)| == |Marked(v, xs)|
    ensures Emissions(v, xs)[k] == Decode(frame) && Marked(v, xs)[k] == i
    ensures forall j :: 0 <= j < |Marked(v, xs)| && Marked(v, xs)[j] == i ==> j == k
  {
    hide Survivors, Joined, Emissions, Marked;
    EmissionsByFrame(v, xs);
    LastOfBlockIsMarked(v, i, low, high);
    assert high - 1 in xs;
    SurvivingMarkIsMarked(v, xs, high - 1);
    k :| 0 <= k < |Marked(v, xs)| && Marked(v, xs)[k] == i;
    SurvivorsOfBlock(v, xs, i, low, high, high);
  }

  // ---- exact loss accounting ----

  /** Whether two consecutive packets across a frame boundary have taught the source the step. */
  predicate StepLearned(v: Stream, xs: seq<int>)
    requires InStream(v.packets, xs) && |v.owner| == |v.packets|
  {
    xs != [] &&
    (StepLearned(v, Front(xs))
     || (|xs| >= 2 && Last(xs) == Last(Front(xs)) + 1 && v.owner[Last(xs)] != v.owner[Last(Front(xs))]))
  }

  /** The frames a jump loses without the source noticing: the step is not known yet, or the jump
      spans more than thirty frames. */
  function UncountedAt(learned: bool, jump: nat): nat
  {
    if jump >= 2 && (!learned || jump > MAX_MISSED_STEPS) then jump - 1 else 0
  }

  ghost function Uncounted(v: Stream, xs: seq<int>): nat
    requires WellSent(v) && Tight(v, xs)
    decreases |xs|
  {
    if |xs| < 2 then 0
    else
      var ys := Front(xs);
      assert xs == ys + [Last(xs)];
      TightSnoc(v, ys, Last(xs));
      OwnersGrow(v, Last(ys), Last(xs));
      Uncounted(v, ys) + UncountedAt(StepLearned(v, ys), v.owner[Last(xs)] - v.owner[Last(ys)])
  }

  ghost predicate Accounts(v: Stream, xs: seq<int>, s: Source)
    requires WellSent(v) && Tight(v, xs) && xs != []
  {
    && s.step == (if StepLearned(v, xs) then v.step else 0)
    && CountConceals(s.calls) == s.dropped + s.missed
    && |DecodesOf(s.calls)| + s.dropped + s.missed + (if s.frameCompleted then 0 else 1) + Uncounted(v, xs)
       + v.owner[xs[0]] == v.owner[Last(xs)] + 1
  }

  /** The steps a boundary counts, as against the frames it really spans. */
  lemma BoundaryCounts(v: Stream, xs: seq<int>, y: int, s: Source)
    requires WellSent(v) && Tight(v, xs + [y]) && xs != []
    requires InStream(v.packets, xs) && Remembers(v, xs, s)
    requires s.step == (if StepLearned(v, xs) then v.step else 0)
    ensures 0 <= y < |v.packets| && v.owner[Last(xs)] <= v.owner[y]
    ensures var (p, jump) := (v.packets[y], v.owner[y] - v.owner[Last(xs)]);
      && Abandoned(s, p) == (if jump >= 1 && !s.frameCompleted then 1 else 0)
      && Vanished(s, p) + UncountedAt(StepLearned(v, xs), jump) == (if jump >= 2 then jump - 1 else 0)
      && LearnedStep(s, p) == (if StepLearned(v, xs + [y]) then v.step else 0)
      && (Boundary(s, p) <==> jump >= 1)
  {
    hide Survives, Tight, WellSent, Remembers, StepLearned, ShortHop;
    TightSnoc(v, xs, y);
    var x := Last(xs);
    OwnersGrow(v, x, y);
    FrameTimesDiffer(v, x, y);
    ContiguousIff(v, x, y);
    RemembersLast(v, xs, s);
    LearnedSnoc(v, xs, y);
    assert Contiguous(s, v.packets[y]) <==> y == x + 1;
    var jump := v.owner[y] - v.owner[x];
    if jump >= 1 && y != x + 1 && s.step != 0 {
      Quotient(jump, v.step);
    }
  }

  lemma RemembersLast(v: Stream, xs: seq<int>, s: Source)
    requires WellSent(v) && InStream(v.packets, xs) && xs != [] && Remembers(v, xs, s)
    ensures var last := v.packets[Last(xs)];
      s.haveTimestamp && s.timestamp == last.timestamp && s.haveSequence && s.lastSequence == last.sequence
    ensures 0 < v.step
  {
  }

  lemma LearnedSnoc(v: Stream, xs: seq<int>, y: int)
    requires InStream(v.packets, xs + [y]) && |v.owner| == |v.packets| && xs != [] && InStream(v.packets, xs)
    requires Front(xs + [y]) == xs && Last(xs + [y]) == y && 0 <= y < |v.packets|
    ensures StepLearned(v, xs + [y]) <==> StepLearned(v, xs) || (y == Last(xs) + 1 && v.owner[y] != v.owner[Last(xs)])
  {
  }

  lemma TightSnoc(v: Stream, xs: seq<int>, y: int)
    requires WellSent(v) && Tight(v, xs + [y])
    ensures Front(xs + [y]) == xs && Last(xs + [y]) == y
    ensures InStream(v.packets, xs) && Tight(v, xs) && 0 <= y < |v.packets| == |v.owner|
    ensures xs != [] ==> ShortHop(v, Last(xs), y)
    ensures Survives(v, xs + [y])
  {
    TightSurvives(v, xs + [y]);
    Snoc(v, xs, y);
    var zs := xs + [y];
    forall i | 0 <= i < |xs| - 1 ensures ShortHop(v, xs[i], xs[i + 1]) {
      assert ShortHop(v, zs[i], zs[i + 1]);
    }
    if xs != [] {
      assert ShortHop(v, zs[|xs| - 1], zs[|xs|]);
    }
  }

  lemma ContiguousIff(v: Stream, x: int, y: int)
    requires WellSent(v) && ShortHop(v, x, y)
    ensures Low16(v.packets[x].sequence + 1) == v.packets[y].sequence <==> y == x + 1
  {
    LowSum(x, 1);
    if Low16(x + 1) == Low16(y) {
      LowInjective(x + 1, y);
    }
  }

  lemma Quotient(n: nat, d: nat)
    requires d > 0
    ensures n * d / d == n
  {
    var q, r := n * d / d, n * d % d;
    assert n * d == d * q + r;
    assert (n - q) * d == r;
    if n > q {
      Positive(n - q - 1, d);
      Distribute(n - q - 1, 1, d);
    }
  }

  /** The accounting identity, for every in-order subsequence: frames completed, dropped, missed, in
      progress and uncounted add up to the frames spanned, and every dropped or missed frame is
      concealed exactly once. */
  lemma {:induction false} LossAccounting(v: Stream, xs: seq<int>)
    requires WellSent(v) && Tight(v, xs) && xs != []
    ensures Accounts(v, xs, Received(v, xs))
    decreases |xs|
  {
    hide Remembers, Tight, Survives, Survivors, Joined, Routed;
    var ys, y := Front(xs), Last(xs);
    assert xs == ys + [y];
    TightSnoc(v, ys, y);
    ReceivedSnoc(v, ys, y);
    TightSurvives(v, ys);
    ExactFrames(v, ys);
    var s := Received(v, ys);
    if ys == [] {
      FirstPacketAccounts(v, y, s);
    } else {
      LossAccounting(v, ys);
      AccountStep(v, ys, y, s);
    }
  }

  lemma FirstPacketAccounts(v: Stream, y: int, s: Source)
    requires WellSent(v) && Tight(v, [y]) && Remembers(v, [], s)
    ensures 0 <= y < |v.packets| && Accounts(v, [y], Routed(s, v.packets[y]))
  {
    hide WellSent, Routed;
    TightSnoc(v, [], y);
    assert [] + [y] == [y] && Front([y]) == [];
    var p := v.packets[y];
    FirstPacket(p);
    assert StepLearned(v, [y]) == false;
    assert Uncounted(v, [y]) == 0;
  }

  lemma FirstPacket(p: Packet)
    ensures var s := Routed(NEW_SOURCE, p);
      && s.step == 0 && s.dropped == 0 && s.missed == 0 && s.frameCompleted == p.HasMarker()
      && CountConceals(s.calls) == 0
      && |DecodesOf(s.calls)| == (if p.HasMarker() then 1 else 0)
  {
    RoutedCalls(NEW_SOURCE, p);
    assert DecodesOf([]) == [];
  }

  lemma AccountStep(v: Stream, ys: seq<int>, y: int, s: Source)
    requires WellSent(v) && Tight(v, ys + [y]) && ys != []
    requires InStream(v.packets, ys) && Tight(v, ys) && Remembers(v, ys, s) && Accounts(v, ys, s)
    ensures 0 <= y < |v.packets| && Accounts(v, ys + [y], Routed(s, v.packets[y]))
  {
    hide Survivors, Joined, Fed, Vanished, Abandoned, LearnedStep, StepLearned, Tight, Survives, WellSent;
    TightSnoc(v, ys, y);
    BoundaryCounts(v, ys, y, s);
    var p := v.packets[y];
    RoutedCalls(s, p);
    AssemblyStep(v, ys, y, s);
    MarkedOrSame(v, ys, y);
    assert (ys + [y])[0] == ys[0];
  }

  lemma MarkedOrSame(v: Stream, ys: seq<int>, y: int)
    requires WellSent(v) && Tight(v, ys + [y]) && ys != []
    ensures 0 <= y < |v.packets| && InStream(v.packets, ys)
    ensures v.packets[Last(ys)].HasMarker() ==> v.owner[Last(ys)] < v.owner[y]
  {
    TightSnoc(v, ys, y);
    OwnersGrow(v, Last(ys), y);
  }

  /** Every jump of two or more frames comes after the step is learned and spans at most thirty. */
  ghost predicate JumpsCounted(v: Stream, xs: seq<int>)
    requires WellSent(v) && Tight(v, xs)
    decreases |xs|
  {
    |xs| < 2 ||
    (var ys := Front(xs);
     assert xs == ys + [Last(xs)];
     TightSnoc(v, ys, Last(xs));
     OwnersGrow(v, Last(ys), Last(xs));
     var jump := v.owner[Last(xs)] - v.owner[Last(ys)];
     JumpsCounted(v, ys) && (jump >= 2 ==> StepLearned(v, ys) && jump <= 30))
  }

  lemma {:induction false} UncountedIff(v: Stream, xs: seq<int>)
    requires WellSent(v) && Tight(v, xs)
    ensures Uncounted(v, xs) == 0 <==> JumpsCounted(v, xs)
    decreases |xs|
  {
    if |xs| >= 2 {
      var ys := Front(xs);
      assert xs == ys + [Last(xs)];
      TightSnoc(v, ys, Last(xs));
      OwnersGrow(v, Last(ys), Last(xs));
      UncountedIff(v, ys);
    }
  }

  /** The counters account for every frame of the span exactly when no jump of two or more frames
      comes before the step is learned or spans more than thirty frames. */
  lemma ExactAccountingIff(v: Stream, xs: seq<int>)
    requires WellSent(v) && Tight(v, xs) && xs != []
    ensures var s := Received(v, xs);
      |DecodesOf(s.calls)| + s.dropped + s.missed + (if s.frameCompleted then 0 else 1)
      == v.owner[Last(xs)] - (v.owner[xs[0]] as int) + 1
      <==> JumpsCounted(v, xs)
  {
    LossAccounting(v, xs);
    UncountedIff(v, xs);
  }

  // ---- a loss nobody counts ----

  function Single(x: U16): Packet { Packet(0, x, x, 0, MARKER_FLAG, []) }

  /** Three frames of one packet each, of which the second is lost before the step is learned: two frames
      are completed, none counts as dropped or missed, and none is concealed, in a span of three. */
  lemma EarlyLossIsUncounted()
    ensures var s := RoutedAll(NEW_SOURCE, [Single(0), Single(2)]);
      && s.calls == [Decode([]), Decode([])]
      && s.dropped == 0 && s.missed == 0 && s.frameCompleted && s.step == 0
  {
    hide Routed;
    var s1 := Routed(NEW_SOURCE, Single(0));
    FirstOfThree();
    ThirdOfThree(s1);
    assert [Single(0), Single(2)][..1] == [Single(0)] && [Single(0)][..0] == [];
    assert RoutedAll(NEW_SOURCE, [Single(0)]) == s1;
  }

  lemma FirstOfThree()
    ensures var s := Routed(NEW_SOURCE, Single(0));
      && s.timestamp == 0 && s.haveTimestamp && s.frameCompleted && s.step == 0 && s.lastSequence == 0
      && s.dropped == 0 && s.missed == 0 && s.calls == [Decode([])] && s.assembly.ready
  {
    assert [] + Conceals(0) + [Decode([])] == [Decode([])];
  }

  lemma ThirdOfThree(s: Source)
    requires s.timestamp == 0 && s.haveTimestamp && s.frameCompleted && s.step == 0 && s.lastSequence == 0
    requires s.dropped == 0 && s.missed == 0 && s.calls == [Decode([])] && s.assembly.ready
    ensures var t := Routed(s, Single(2));
      && t.calls == [Decode([]), Decode([])] && t.dropped == 0 && t.missed == 0 && t.frameCompleted && t.step == 0
  {
    assert Fed(s.assembly, Single(2)).buffer == [];
    assert [Decode([])] + Conceals(0) + [Decode([])] == [Decode([]), Decode([])];
  }
}
