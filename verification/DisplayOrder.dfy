/** What the viewer sees, in order: where the substitutes for lost frames stand among the decoded ones. */
module DisplayOrder {
  import opened Words
  import opened Packets
  import opened JitterBufferOrder
  import opened VideoPacketizer
  import opened VideoReassembler
  import opened PeerVideoRouter
  import opened VideoPipeline

  ghost predicate MarkSurvives(v: Stream, xs: seq<int>, i: int)
    requires InStream(v.packets, xs) && |v.owner| == |v.packets|
  {
    exists k :: 0 <= k < |xs| && v.owner[xs[k]] == i && v.packets[xs[k]].HasMarker()
  }

  /** What stands for frame i: the frame as far as it survived, or a substitute. */
  ghost function Shown(v: Stream, xs: seq<int>, i: nat): Call
    requires InStream(v.packets, xs) && |v.owner| == |v.packets|
  {
    if MarkSurvives(v, xs, i) then Decode(Joined(Survivors(v, xs, i))) else Conceal
  }

  // ---- one packet ----

  /** Whatever was lost: the concealments a packet causes, one per frame newly counted as dropped or
      missed, come before the frame the packet itself completes, and nothing shown before changes. */
  lemma ConcealmentsPrecede(v: Stream, xs: seq<int>, y: int)
    requires WellSent(v) && Survives(v, xs + [y])
    ensures InStream(v.packets, xs) && 0 <= y < |v.packets| == |v.owner|
    ensures var before, after := Received(v, xs), Received(v, xs + [y]);
      var lost := (after.dropped + after.missed) - (before.dropped + before.missed);
      && lost >= 0
      && |after.calls| == |before.calls| + lost + (if v.packets[y].HasMarker() then 1 else 0)
      && before.calls <= after.calls
      && (forall k :: |before.calls| <= k < |before.calls| + lost ==> after.calls[k] == Conceal)
      && (v.packets[y].HasMarker() ==>
            after.calls[|after.calls| - 1] == Decode(Joined(Survivors(v, xs + [y], v.owner[y]))))
  {
    hide Fed, Abandoned, Vanished, LearnedStep, Survivors, Joined, WellSent, Survives, Remembers;
    Snoc(v, xs, y);
    ExactFrames(v, xs);
    ReceivedSnoc(v, xs, y);
    AssemblyStep(v, xs, y, Received(v, xs));
  }

  // ---- the whole display ----

  /** Entry k stands for frame first + k, up to the last frame that has begun, which has an entry once
      it is complete. */
  ghost predicate Displays(v: Stream, xs: seq<int>, calls: seq<Call>)
    requires InStream(v.packets, xs) && |v.owner| == |v.packets| && xs != []
  {
    var first, last := v.owner[xs[0]] as int, v.owner[Last(xs)] as int;
    && |calls| == last - first + (if v.packets[Last(xs)].HasMarker() then 1 else 0)
    && forall k :: 0 <= k < |calls| ==> calls[k] == Shown(v, xs, first + k)
  }

  lemma LaterFrameIsNew(v: Stream, xs: seq<int>, y: int, i: nat)
    requires WellSent(v) && Survives(v, xs + [y]) && InStream(v.packets, xs) && 0 <= y < |v.packets| == |v.owner|
    requires i != v.owner[y] || !v.packets[y].HasMarker()
    ensures InStream(v.packets, xs + [y])
    ensures MarkSurvives(v, xs + [y], i) <==> MarkSurvives(v, xs, i)
  {
    var zs := xs + [y];
    if MarkSurvives(v, xs, i) {
      var k :| 0 <= k < |xs| && v.owner[xs[k]] == i && v.packets[xs[k]].HasMarker();
      assert zs[k] == xs[k];
    }
    if MarkSurvives(v, zs, i) {
      var k :| 0 <= k < |zs| && v.owner[zs[k]] == i && v.packets[zs[k]].HasMarker();
      assert k < |xs| && xs[k] == zs[k];
    }
  }

  /** Frames before the one a packet belongs to are shown as before it came. */
  lemma EarlierFramesStay(v: Stream, xs: seq<int>, y: int, i: nat)
    requires WellSent(v) && Survives(v, xs + [y]) && InStream(v.packets, xs) && 0 <= y < |v.packets| == |v.owner|
    requires i != v.owner[y]
    ensures InStream(v.packets, xs + [y]) && Shown(v, xs + [y], i) == Shown(v, xs, i)
  {
    hide Joined, MarkSurvives, Survivors, WellSent, Survives;
    LaterFrameIsNew(v, xs, y, i);
    SurvivorsStay(v, xs, y, i);
  }

  lemma SurvivorsStay(v: Stream, xs: seq<int>, y: int, i: nat)
    requires InStream(v.packets, xs + [y]) && InStream(v.packets, xs) && 0 <= y < |v.packets| == |v.owner|
    requires i != v.owner[y]
    ensures Survivors(v, xs + [y], i) == Survivors(v, xs, i)
  {
    assert Front(xs + [y]) == xs && Last(xs + [y]) == y;
    assert Survivors(v, xs, i) + [] == Survivors(v, xs, i);
  }

  lemma OwnersUpTo(v: Stream, xs: seq<int>, k: nat)
    requires WellSent(v) && Survives(v, xs) && k < |xs|
    ensures 0 <= xs[k] < |v.packets| == |v.owner| && 0 <= Last(xs) < |v.packets|
    ensures v.owner[xs[k]] <= v.owner[Last(xs)]
    ensures v.owner[xs[k]] == v.owner[Last(xs)] && v.packets[xs[k]].HasMarker() ==> k == |xs| - 1
  {
    if k < |xs| - 1 {
      HopsGrow(v, xs, k);
      OwnersGrow(v, xs[k], Last(xs));
    }
  }

  /** No mark has survived of the last frame, if its last survivor is unmarked, nor of any later frame. */
  lemma NotYetMarked(v: Stream, xs: seq<int>, i: nat)
    requires WellSent(v) && Survives(v, xs) && xs != [] && InStream(v.packets, xs)
    requires i > v.owner[Last(xs)] || (i == v.owner[Last(xs)] && !v.packets[Last(xs)].HasMarker())
    ensures !MarkSurvives(v, xs, i)
  {
    forall k | 0 <= k < |xs| ensures !(v.owner[xs[k]] == i && v.packets[xs[k]].HasMarker()) {
      OwnersUpTo(v, xs, k);
    }
  }

  lemma MarkedNow(v: Stream, xs: seq<int>, y: int)
    requires InStream(v.packets, xs + [y]) && |v.owner| == |v.packets| && 0 <= y < |v.packets| && v.packets[y].HasMarker()
    ensures MarkSurvives(v, xs + [y], v.owner[y])
  {
    assert (xs + [y])[|xs|] == y;
  }

  /** How many frames packet y makes known as lost: those between, and the last one if it never completed. */
  ghost function NewlyLost(v: Stream, x: int, y: int): int
    requires 0 <= x < |v.packets| == |v.owner| && 0 <= y < |v.packets|
  {
    if v.owner[y] == v.owner[x] then 0 else (v.owner[y] as int) - v.owner[x] - (if v.packets[x].HasMarker() then 1 else 0)
  }

  lemma LostFrames(v: Stream, xs: seq<int>, y: int)
    requires WellSent(v) && Tight(v, xs + [y]) && JumpsCounted(v, xs + [y]) && xs != []
    requires Front(xs + [y]) == xs && Last(xs + [y]) == y && Tight(v, xs) && InStream(v.packets, xs)
    requires InStream(v.packets, xs + [y]) && 0 <= y < |v.packets| == |v.owner| && 0 <= Last(xs) < |v.packets|
    ensures JumpsCounted(v, xs)
    ensures (Received(v, xs + [y]).dropped + Received(v, xs + [y]).missed) - (Received(v, xs).dropped + Received(v, xs).missed)
         == NewlyLost(v, Last(xs), y)
    ensures v.owner[Last(xs)] <= v.owner[y]
    ensures v.owner[Last(xs)] == v.owner[y] ==> !v.packets[Last(xs)].HasMarker()
  {
    hide Survivors, Joined, Survives, WellSent, Tight, Fed, Abandoned, Vanished, LearnedStep, StepLearned, Accounts, JumpsCounted,
      Received, ShortHop, Uncounted;
    TightSurvives(v, xs);
    TightSnoc(v, xs, y);
    ReceivedSnoc(v, xs, y);
    ExactFrames(v, xs);
    LossAccounting(v, xs);
    LearnedOrNot(v, xs);
    BoundaryCounts(v, xs, y, Received(v, xs));
    CountedJump(v, xs, y);
    ShortHopIsOrdered(v, Last(xs), y);
    OwnersGrow(v, Last(xs), y);
    CompletedIsMarked(v, xs, Received(v, xs));
  }

  lemma ShortHopIsOrdered(v: Stream, x: int, y: int)
    requires ShortHop(v, x, y)
    ensures 0 <= x < y < |v.packets| == |v.owner|
  {
  }

  lemma CompletedIsMarked(v: Stream, xs: seq<int>, s: Source)
    requires InStream(v.packets, xs) && |v.owner| == |v.packets| && xs != [] && Remembers(v, xs, s)
    ensures s.frameCompleted == v.packets[Last(xs)].HasMarker()
  {
  }

  lemma LearnedOrNot(v: Stream, xs: seq<int>)
    requires WellSent(v) && Tight(v, xs) && xs != [] && InStream(v.packets, xs) && Accounts(v, xs, Received(v, xs))
    ensures Received(v, xs).step == (if StepLearned(v, xs) then v.step else 0)
  {
  }

  lemma CountedJump(v: Stream, xs: seq<int>, y: int)
    requires WellSent(v) && Tight(v, xs + [y]) && JumpsCounted(v, xs + [y]) && xs != []
    requires Front(xs + [y]) == xs && Last(xs + [y]) == y && Tight(v, xs) && InStream(v.packets, xs)
    requires 0 <= y < |v.packets| == |v.owner|
    ensures JumpsCounted(v, xs)
    ensures v.owner[Last(xs)] <= v.owner[y] ==> UncountedAt(StepLearned(v, xs), v.owner[y] - v.owner[Last(xs)]) == 0
  {
  }

  /** While the loss counters are exact the display is: one entry per frame, in order, each the frame's
      surviving payloads joined if its mark survived and a substitute otherwise. */
  lemma {:induction false} DisplayIsExact(v: Stream, xs: seq<int>)
    requires WellSent(v) && Tight(v, xs) && JumpsCounted(v, xs) && xs != []
    ensures Displays(v, xs, Received(v, xs).calls)
    decreases |xs|
  {
    hide Survivors, Joined, Routed, Received, WellSent, Tight, Survives, JumpsCounted, Shown;
    var ys, y := Front(xs), Last(xs);
    assert xs == ys + [y];
    TightSnoc(v, ys, y);
    TightSurvives(v, ys);
    SurvivesInStream(v, xs);
    ConcealmentsPrecede(v, ys, y);
    if ys == [] {
      DisplayOfOne(v, y);
    } else {
      LostFrames(v, ys, y);
      DisplayIsExact(v, ys);
      DisplayGrows(v, ys, y, Received(v, ys).calls, Received(v, xs).calls);
    }
  }

  lemma DisplayOfOne(v: Stream, y: int)
    requires WellSent(v) && Tight(v, [y]) && InStream(v.packets, [y]) && 0 <= y < |v.packets| == |v.owner|
    ensures Displays(v, [y], Received(v, [y]).calls)
  {
    hide Routed, Survivors, Joined, WellSent, Tight, Survives, MarkSurvives, Received;
    assert [] + [y] == [y];
    TightSurvives(v, [y]);
    ConcealmentsPrecede(v, [], y);
    ReceivedSnoc(v, [], y);
    FirstPacket(v.packets[y]);
    NothingReceived(v);
    if v.packets[y].HasMarker() {
      MarkedNow(v, [], y);
    }
  }

  lemma DisplayGrows(v: Stream, xs: seq<int>, y: int, before: seq<Call>, after: seq<Call>)
    requires WellSent(v) && Survives(v, xs + [y]) && InStream(v.packets, xs) && Survives(v, xs) && xs != []
    requires Front(xs + [y]) == xs && Last(xs + [y]) == y && 0 <= y < |v.packets| == |v.owner|
    requires v.owner[Last(xs)] <= v.owner[y] && (v.owner[Last(xs)] == v.owner[y] ==> !v.packets[Last(xs)].HasMarker())
    requires Displays(v, xs, before) && before <= after
    requires 0 <= Last(xs) < |v.packets|
    requires var lost := NewlyLost(v, Last(xs), y);
      && |after| == |before| + lost + (if v.packets[y].HasMarker() then 1 else 0)
      && (forall k :: |before| <= k < |before| + lost ==> after[k] == Conceal)
      && (v.packets[y].HasMarker() ==> after[|after| - 1] == Decode(Joined(Survivors(v, xs + [y], v.owner[y]))))
    ensures InStream(v.packets, xs + [y]) && Displays(v, xs + [y], after)
  {
    hide Joined, Survivors, MarkSurvives, WellSent, Survives;
    var zs := xs + [y];
    SurvivesInStream(v, zs);
    assert zs[0] == xs[0];
    var first := v.owner[xs[0]] as int;
    OwnersUpTo(v, xs, 0);
    forall k | 0 <= k < |after| ensures after[k] == Shown(v, zs, first + k) {
      if k < |before| {
        assert after[k] == before[k];
        EarlierFramesStay(v, xs, y, first + k);
      } else if first + k < v.owner[y] {
        NotYetMarked(v, xs, first + k);
        LaterFrameIsNew(v, xs, y, first + k);
      } else {
        MarkedNow(v, xs, y);
      }
    }
  }

  lemma SurvivesInStream(v: Stream, xs: seq<int>)
    requires Survives(v, xs)
    ensures InStream(v.packets, xs)
  {
  }
}
