/** What the two loss counters count, in terms of the packets that survived. */
module LossCounters {
  import opened Words
  import opened Packets
  import opened JitterBufferOrder
  import opened VideoPacketizer
  import opened VideoReassembler
  import opened PeerVideoRouter
  import opened VideoPipeline
  import opened DisplayOrder

  ghost predicate Touched(v: Stream, xs: seq<int>, i: int)
    requires InStream(v.packets, xs) && |v.owner| == |v.packets|
  {
    exists k :: 0 <= k < |xs| && v.owner[xs[k]] == i
  }

  function Between(low: nat, high: nat): (r: set<int>)
    ensures forall i :: i in r <==> low <= i < high
    ensures |r| == if low < high then high - low else 0
    decreases high - low
  {
    if low < high then
      var rest := Between(low + 1, high);
      assert low !in rest;
      {low as int} + rest
    else {}
  }

  /** The frames from the first one seen up to the latest, which is still open. */
  ghost function Span(v: Stream, xs: seq<int>): set<int>
    requires InStream(v.packets, xs) && |v.owner| == |v.packets| && xs != []
  {
    Between(v.owner[xs[0]], v.owner[Last(xs)])
  }

  /** Frames of which something survived, but not the mark. */
  ghost function Broken(v: Stream, xs: seq<int>): set<int>
    requires InStream(v.packets, xs) && |v.owner| == |v.packets| && xs != []
  {
    set i | i in Span(v, xs) && Touched(v, xs, i) && !MarkSurvives(v, xs, i)
  }

  /** Frames of which nothing survived. */
  ghost function Absent(v: Stream, xs: seq<int>): set<int>
    requires InStream(v.packets, xs) && |v.owner| == |v.packets| && xs != []
  {
    set i | i in Span(v, xs) && !Touched(v, xs, i)
  }

  lemma TouchedSnoc(v: Stream, xs: seq<int>, y: int, i: int)
    requires InStream(v.packets, xs + [y]) && InStream(v.packets, xs) && 0 <= y < |v.packets| == |v.owner|
    ensures Touched(v, xs + [y], i) <==> Touched(v, xs, i) || v.owner[y] == i
  {
    var zs := xs + [y];
    assert zs[|xs|] == y;
    assert forall k :: 0 <= k < |xs| ==> zs[k] == xs[k];
  }

  lemma NotTouchedYet(v: Stream, xs: seq<int>, i: int)
    requires WellSent(v) && Survives(v, xs) && xs != [] && InStream(v.packets, xs)
    requires i > v.owner[Last(xs)]
    ensures !Touched(v, xs, i)
  {
    forall k | 0 <= k < |xs| ensures v.owner[xs[k]] != i {
      OwnersUpTo(v, xs, k);
    }
  }

  lemma FrameAfterPacket(v: Stream, xs: seq<int>, y: int, i: nat)
    requires WellSent(v) && Survives(v, xs + [y]) && Survives(v, xs) && xs != []
    requires InStream(v.packets, xs) && InStream(v.packets, xs + [y]) && 0 <= y < |v.packets| == |v.owner|
    requires v.owner[Last(xs)] <= v.owner[y] && i < v.owner[y]
    ensures i < v.owner[Last(xs)] ==>
      (Touched(v, xs + [y], i) <==> Touched(v, xs, i)) && (MarkSurvives(v, xs + [y], i) <==> MarkSurvives(v, xs, i))
    ensures i == v.owner[Last(xs)] ==>
      Touched(v, xs + [y], i) && (MarkSurvives(v, xs + [y], i) <==> v.packets[Last(xs)].HasMarker())
    ensures i > v.owner[Last(xs)] ==> !Touched(v, xs + [y], i)
  {
    hide Touched, MarkSurvives, WellSent, Survives;
    TouchedSnoc(v, xs, y, i);
    LaterFrameIsNew(v, xs, y, i);
    if i > v.owner[Last(xs)] {
      NotTouchedYet(v, xs, i);
    } else if i == v.owner[Last(xs)] {
      LastIsTouched(v, xs);
      if !v.packets[Last(xs)].HasMarker() {
        NotYetMarked(v, xs, i);
      }
    }
  }

  lemma FirstIsFirst(v: Stream, xs: seq<int>, y: int)
    requires WellSent(v) && Survives(v, xs) && xs != []
    ensures InStream(v.packets, xs) && |v.owner| == |v.packets|
    ensures v.owner[xs[0]] <= v.owner[Last(xs)] && (xs + [y])[0] == xs[0]
  {
    OwnersUpTo(v, xs, 0);
  }

  /** One more packet adds the frame left open, if its mark is lost, ... */
  lemma BrokenGrows(v: Stream, xs: seq<int>, y: int)
    requires WellSent(v) && Survives(v, xs + [y]) && Survives(v, xs) && xs != []
    requires InStream(v.packets, xs) && InStream(v.packets, xs + [y]) && 0 <= y < |v.packets| == |v.owner|
    requires Last(xs + [y]) == y && v.owner[Last(xs)] <= v.owner[y]
    ensures var last := v.owner[Last(xs)];
      && Broken(v, xs + [y]) == Broken(v, xs) + (if last < v.owner[y] && !v.packets[Last(xs)].HasMarker() then {last as int} else {})
      && last !in Broken(v, xs)
  {
    hide Touched, MarkSurvives, WellSent, Survives;
    FirstIsFirst(v, xs, y);
    forall i: nat | i < v.owner[y]
      ensures i < v.owner[Last(xs)] ==> (i in Broken(v, xs + [y]) <==> i in Broken(v, xs))
      ensures i == v.owner[Last(xs)] ==> (i in Broken(v, xs + [y]) <==> !v.packets[Last(xs)].HasMarker())
      ensures i > v.owner[Last(xs)] ==> i !in Broken(v, xs + [y])
    {
      FrameAfterPacket(v, xs, y, i);
    }
  }

  /** ... and the frames jumped over. */
  lemma AbsentGrows(v: Stream, xs: seq<int>, y: int)
    requires WellSent(v) && Survives(v, xs + [y]) && Survives(v, xs) && xs != []
    requires InStream(v.packets, xs) && InStream(v.packets, xs + [y]) && 0 <= y < |v.packets| == |v.owner|
    requires Last(xs + [y]) == y && v.owner[Last(xs)] <= v.owner[y]
    ensures var last := v.owner[Last(xs)];
      && Absent(v, xs + [y]) == Absent(v, xs) + Between(last + 1, v.owner[y])
      && Absent(v, xs) !! Between(last + 1, v.owner[y])
  {
    hide Touched, MarkSurvives, WellSent, Survives;
    FirstIsFirst(v, xs, y);
    forall i: nat | i < v.owner[y]
      ensures i < v.owner[Last(xs)] ==> (i in Absent(v, xs + [y]) <==> i in Absent(v, xs))
      ensures i == v.owner[Last(xs)] ==> i !in Absent(v, xs + [y])
      ensures i > v.owner[Last(xs)] ==> i in Absent(v, xs + [y])
    {
      FrameAfterPacket(v, xs, y, i);
    }
  }

  lemma LostCounts(v: Stream, xs: seq<int>, y: int)
    requires WellSent(v) && Survives(v, xs + [y]) && Survives(v, xs) && xs != []
    requires InStream(v.packets, xs) && InStream(v.packets, xs + [y]) && 0 <= y < |v.packets| == |v.owner|
    requires Last(xs + [y]) == y && v.owner[Last(xs)] <= v.owner[y]
    ensures var (last, next) := (v.owner[Last(xs)], v.owner[y]);
      && |Broken(v, xs + [y])| == |Broken(v, xs)| + (if last < next && !v.packets[Last(xs)].HasMarker() then 1 else 0)
      && |Absent(v, xs + [y])| == |Absent(v, xs)| + (if last + 1 < next then next - last - 1 else 0)
  {
    hide Broken, Absent, WellSent, Survives;
    BrokenGrows(v, xs, y);
    AbsentGrows(v, xs, y);
  }

  lemma LastIsTouched(v: Stream, xs: seq<int>)
    requires InStream(v.packets, xs) && |v.owner| == |v.packets| && xs != []
    ensures Touched(v, xs, v.owner[Last(xs)])
    ensures v.packets[Last(xs)].HasMarker() ==> MarkSurvives(v, xs, v.owner[Last(xs)])
  {
    assert xs[|xs| - 1] == Last(xs);
  }

  ghost predicate Tells(v: Stream, xs: seq<int>, s: Source)
    requires WellSent(v) && Tight(v, xs) && xs != [] && InStream(v.packets, xs) && |v.owner| == |v.packets|
  {
    && s.dropped == |Broken(v, xs)|
    && s.missed + Uncounted(v, xs) == |Absent(v, xs)|
  }

  /** In every run the dropped frames are those of which something but not the mark survived, and the
      missed frames those of which nothing survived, less the ones never counted. */
  lemma {:induction false} CountersTell(v: Stream, xs: seq<int>)
    requires WellSent(v) && Tight(v, xs) && xs != []
    ensures InStream(v.packets, xs) && |v.owner| == |v.packets| && Tells(v, xs, Received(v, xs))
    decreases |xs|
  {
    hide Survivors, Joined, Routed, Received, WellSent, Tight, Survives, Uncounted, Tells;
    var ys, y := Front(xs), Last(xs);
    assert xs == ys + [y];
    TightSnoc(v, ys, y);
    TightSurvives(v, ys);
    SurvivesInStream(v, xs);
    ReceivedSnoc(v, ys, y);
    if ys == [] {
      TellsOfOne(v, y);
    } else {
      CountersTell(v, ys);
      LossAccounting(v, ys);
      ExactFrames(v, ys);
      TellsStep(v, ys, y, Received(v, ys));
    }
  }

  lemma TellsOfOne(v: Stream, y: int)
    requires WellSent(v) && Tight(v, [y]) && InStream(v.packets, [y]) && 0 <= y < |v.packets| == |v.owner|
    ensures Tells(v, [y], Received(v, [y]))
  {
    hide Routed, Survivors, Joined, WellSent, Tight, Survives, MarkSurvives, Touched, Received;
    assert [] + [y] == [y];
    TightSurvives(v, [y]);
    ReceivedSnoc(v, [], y);
    FirstPacket(v.packets[y]);
    NothingReceived(v);
    assert Span(v, [y]) == {};
    assert Broken(v, [y]) == {} && Absent(v, [y]) == {};
  }

  lemma UncountedSnoc(v: Stream, xs: seq<int>, y: int)
    requires WellSent(v) && Tight(v, xs + [y]) && xs != [] && Tight(v, xs) && 0 <= y < |v.packets| == |v.owner|
    requires InStream(v.packets, xs) && Front(xs + [y]) == xs && Last(xs + [y]) == y
    ensures v.owner[Last(xs)] <= v.owner[y]
    ensures Uncounted(v, xs + [y]) == Uncounted(v, xs) + UncountedAt(StepLearned(v, xs), v.owner[y] - v.owner[Last(xs)])
  {
    OwnersGrow(v, Last(xs), y);
  }

  lemma TellsStep(v: Stream, xs: seq<int>, y: int, s: Source)
    requires WellSent(v) && Tight(v, xs + [y]) && xs != [] && Tight(v, xs) && 0 <= y < |v.packets| == |v.owner|
    requires Front(xs + [y]) == xs && Last(xs + [y]) == y
    requires InStream(v.packets, xs) && InStream(v.packets, xs + [y]) && Tells(v, xs, s) && Remembers(v, xs, s) && Accounts(v, xs, s)
    ensures Tells(v, xs + [y], Routed(s, v.packets[y]))
  {
    hide Survivors, Joined, Fed, Abandoned, Vanished, LearnedStep, WellSent, Tight, Survives, Uncounted, StepLearned, Broken, Absent, Remembers;
    TightSurvives(v, xs);
    TightSurvives(v, xs + [y]);
    UncountedSnoc(v, xs, y);
    BoundaryCounts(v, xs, y, s);
    CompletedIsMarked(v, xs, s);
    LostCounts(v, xs, y);
  }

  /** While every longer jump is learned and short enough, the counters are exact; and they are exact
      only then. */
  lemma CountersAreExactIff(v: Stream, xs: seq<int>)
    requires WellSent(v) && Tight(v, xs) && xs != []
    ensures InStream(v.packets, xs) && |v.owner| == |v.packets|
    ensures Received(v, xs).dropped == |Broken(v, xs)|
    ensures Received(v, xs).missed == |Absent(v, xs)| <==> JumpsCounted(v, xs)
  {
    hide Received, Broken, Absent, Tight, WellSent;
    CountersTell(v, xs);
    UncountedIff(v, xs);
  }
}
