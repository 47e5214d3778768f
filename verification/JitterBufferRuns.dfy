/** What every run of the playout buffer keeps: packets are conserved, and the adaptive threshold
    converges. */
module JitterBufferRuns {
  import opened Words
  import opened Packets
  import opened JitterBuffer

  // ---- runs one after the other ----

  function Takes(n: nat): seq<Event> { seq(n, _ => Take) }

  lemma {:induction false} RunAppend(b: Buffer, first: seq<Event>, second: seq<Event>)
    requires WellFormed(b)
    ensures var mid := Run(b, first);
      Run(b, first + second) == (Run(mid.0, second).0, mid.1 + Run(mid.0, second).1)
    decreases |first|
  {
    hide Apply;
    if first == [] {
      assert first + second == second;
      assert [] + Run(b, second).1 == Run(b, second).1;
    } else {
      assert (first + second)[1..] == first[1..] + second && (first + second)[0] == first[0];
      var (b', out) := Apply(b, first[0]);
      RunAppend(b', first[1..], second);
      var mid := Run(b', first[1..]);
      assert out + (mid.1 + Run(mid.0, second).1) == (out + mid.1) + Run(mid.0, second).1;
    }
  }

  // ---- conservation ----

  ghost function Bag(m: map<U16, Packet>): multiset<Packet>
    decreases |m|
  {
    if m == map[] then multiset{}
    else
      RemoveSmaller(m, FirstKey(m));
      multiset{m[FirstKey(m)]} + Bag(m - {FirstKey(m)})
  }

  lemma RemoveSmaller<V>(m: map<U16, V>, k: U16)
    requires k in m
    ensures |m - {k}| == |m| - 1
  {
    assert (m - {k}).Keys == m.Keys - {k};
    assert |m - {k}| == |(m - {k}).Keys|;
  }

  lemma {:induction false} BagRemove(m: map<U16, Packet>, k: U16)
    requires k in m
    ensures Bag(m) == multiset{m[k]} + Bag(m - {k})
    decreases |m|
  {
    hide Bag;
    var f := FirstKey(m);
    RemoveSmaller(m, f);
    BagStep(m);
    if k != f {
      BagRemove(m - {f}, k);
      var rest := m - {k};
      assert f in rest && FirstKey(rest) == f;
      BagStep(rest);
      assert rest - {f} == m - {f} - {k};
    }
  }

  lemma BagStep(m: map<U16, Packet>)
    requires m != map[]
    ensures Bag(m) == multiset{m[FirstKey(m)]} + Bag(m - {FirstKey(m)})
  {
    RemoveSmaller(m, FirstKey(m));
  }

  ghost function TakesIn(b: Buffer, e: Event): seq<Packet>
  {
    if e.Arrive? && Inserts(b, e.packet) then [e.packet] else []
  }

  /** The packets the buffer takes in over a run, in order. */
  ghost function TakenIn(b: Buffer, events: seq<Event>): seq<Packet>
    requires WellFormed(b)
    decreases |events|
  {
    if events == [] then [] else TakesIn(b, events[0]) + TakenIn(Apply(b, events[0]).0, events[1..])
  }

  /** Nothing the buffer takes in is lost or repeated: it is delivered once or still buffered. */
  lemma {:induction false} Conservation(b: Buffer, events: seq<Event>)
    requires WellFormed(b)
    ensures var (end, delivered) := Run(b, events);
      Bag(b.packets) + multiset(TakenIn(b, events)) == multiset(delivered) + Bag(end.packets)
    decreases |events|
  {
    if events == [] {
    } else {
      var (b', out) := Apply(b, events[0]);
      var (end, rest) := Run(b', events[1..]);
      Conservation(b', events[1..]);
      StepConserves(b, events[0]);
      assert Run(b, events) == (end, out + rest);
      Balance(Bag(b.packets), TakesIn(b, events[0]), TakenIn(b', events[1..]), Bag(b'.packets), out, rest, Bag(end.packets));
    }
  }

  lemma Balance(start: multiset<Packet>, in0: seq<Packet>, in1: seq<Packet>, mid: multiset<Packet>,
                out0: seq<Packet>, out1: seq<Packet>, end: multiset<Packet>)
    requires start + multiset(in0) == multiset(out0) + mid
    requires mid + multiset(in1) == multiset(out1) + end
    ensures start + multiset(in0 + in1) == multiset(out0 + out1) + end
  {
    calc {
      start + multiset(in0 + in1);
      (start + multiset(in0)) + multiset(in1);
      multiset(out0) + (mid + multiset(in1));
      multiset(out0) + (multiset(out1) + end);
      multiset(out0 + out1) + end;
    }
  }

  lemma StepConserves(b: Buffer, e: Event)
    requires WellFormed(b)
    ensures var (b', out) := Apply(b, e);
      Bag(b.packets) + multiset(TakesIn(b, e)) == multiset(out) + Bag(b'.packets)
  {
    match e
    case Arrive(p, now) =>
      if Inserts(b, p) {
        InsertBag(b.packets, p);
      }
    case Take =>
      if HeadKey(b).Some? {
        PopShape(b);
        BagRemove(b.packets, HeadKey(b).value);
      }
  }

  lemma InsertBag(m: map<U16, Packet>, p: Packet)
    requires p.sequence !in m
    ensures Bag(m[p.sequence := p]) == Bag(m) + multiset{p}
  {
    var after := m[p.sequence := p];
    BagRemove(after, p.sequence);
    assert after - {p.sequence} == m;
  }

  // ---- adaptive playout ----

  /** Every successful pop of the run sees the same clamped target. */
  ghost predicate TargetStays(b: Buffer, events: seq<Event>, target: nat)
    requires WellFormed(b)
    decreases |events|
  {
    events == [] ||
    ((events[0].Take? && HeadKey(b).Some? ==> Target(b) == target)
     && TargetStays(Apply(b, events[0]).0, events[1..], target))
  }

  function Toward(from: nat, target: nat, steps: nat): nat
    requires steps <= Abs(target - from)
  {
    if from <= target then from + steps else from - steps
  }

  /** Where the threshold, the adaptation count and the pop counter stand after some pops. */
  ghost predicate Converged(b: Buffer, target: nat, pops: nat, end: Buffer)
  {
    var total := b.popsSinceAdapt + pops;
    var moved := Min(total / POPS_BETWEEN_ADAPT, Abs(target - b.threshold));
    && end.threshold == Toward(b.threshold, target, moved)
    && end.adaptations == b.adaptations + moved
    && end.popsSinceAdapt == total % POPS_BETWEEN_ADAPT
  }

  /** The threshold moves one step for every fifty successful pops, never past the target, and the
      adaptation count counts exactly the steps it moved. */
  lemma {:induction false} Convergence(b: Buffer, events: seq<Event>, target: nat)
    requires WellFormed(b) && b.adaptive && TargetStays(b, events, target)
    ensures Converged(b, target, |Run(b, events).1|, Run(b, events).0)
    decreases |events|
  {
    hide Apply, Target, HeadKey, Converged;
    if events == [] {
      ConvergedNow(b, target);
    } else {
      var step := Apply(b, events[0]);
      StepAdapts(b, events[0], target);
      Convergence(step.0, events[1..], target);
      var rest := Run(step.0, events[1..]);
      ConvergedBefore(b, step.0, target, |step.1|, |rest.1|, rest.0);
    }
  }

  lemma ConvergedNow(b: Buffer, target: nat)
    requires b.popsSinceAdapt < POPS_BETWEEN_ADAPT
    ensures Converged(b, target, 0, b)
  {
  }

  ghost predicate AdaptsBy(b: Buffer, b': Buffer, target: nat, pops: nat)
  {
    if pops == 0 || b.popsSinceAdapt + 1 < POPS_BETWEEN_ADAPT then
      b'.threshold == b.threshold && b'.adaptations == b.adaptations && b'.popsSinceAdapt == b.popsSinceAdapt + pops
    else
      && b'.threshold == Slid(b.threshold, target) && b'.popsSinceAdapt == 0
      && b'.adaptations == b.adaptations + Min(1, Abs(target - b.threshold))
  }

  lemma ConvergedBefore(b: Buffer, b': Buffer, target: nat, pops: nat, rest: nat, end: Buffer)
    requires b.popsSinceAdapt < POPS_BETWEEN_ADAPT && pops <= 1
    requires AdaptsBy(b, b', target, pops) && Converged(b', target, rest, end)
    ensures Converged(b, target, pops + rest, end)
  {
    if pops == 1 && b.popsSinceAdapt + 1 == POPS_BETWEEN_ADAPT {
      StepConverges(b, b', target, rest, end);
    } else {
      assert b'.popsSinceAdapt + rest == b.popsSinceAdapt + (pops + rest);
    }
  }

  lemma StepConverges(b: Buffer, b': Buffer, target: nat, rest: nat, end: Buffer)
    requires b.popsSinceAdapt + 1 == POPS_BETWEEN_ADAPT
    requires AdaptsBy(b, b', target, 1) && Converged(b', target, rest, end)
    ensures Converged(b, target, 1 + rest, end)
  {
    hide Toward, Slid;
    OneMorePeriod(rest, Abs(target - b.threshold));
    OneStepToward(b.threshold, target, 0);
    OneStepToward(b.threshold, target, Min(rest / POPS_BETWEEN_ADAPT, Abs(target - b'.threshold)));
  }

  lemma OneStepToward(from: nat, target: nat, steps: nat)
    requires steps <= Abs(target - Slid(from, target))
    ensures Abs(target - Slid(from, target)) == Abs(target - from) - Min(1, Abs(target - from))
    ensures Toward(Slid(from, target), target, steps) == Toward(from, target, Min(1, Abs(target - from)) + steps)
  {
  }

  lemma OneMorePeriod(pops: nat, distance: nat)
    ensures (POPS_BETWEEN_ADAPT + pops) / POPS_BETWEEN_ADAPT == 1 + pops / POPS_BETWEEN_ADAPT
    ensures (POPS_BETWEEN_ADAPT + pops) % POPS_BETWEEN_ADAPT == pops % POPS_BETWEEN_ADAPT
    ensures Min((POPS_BETWEEN_ADAPT + pops) / POPS_BETWEEN_ADAPT, distance)
         == Min(1, distance) + Min(pops / POPS_BETWEEN_ADAPT, distance - Min(1, distance))
  {
  }

  lemma StepAdapts(b: Buffer, e: Event, target: nat)
    requires WellFormed(b) && b.adaptive
    requires e.Take? && HeadKey(b).Some? ==> Target(b) == target
    ensures var (b', out) := Apply(b, e);
      b'.adaptive && |out| <= 1 && AdaptsBy(b, b', target, |out|)
  {
  }

  /** From a fresh counter the target is reached at exactly 50 pops per step, and not before. */
  lemma TargetReachedExactly(b: Buffer, events: seq<Event>, target: nat)
    requires WellFormed(b) && b.adaptive && b.popsSinceAdapt == 0 && TargetStays(b, events, target)
    ensures var (end, delivered) := Run(b, events);
      end.threshold == target <==> |delivered| >= 50 * Abs(target - b.threshold)
  {
    Convergence(b, events, target);
  }

  /** With the default bounds the threshold stays between 2 and 20 whatever the jitter does. */
  lemma {:induction false} DefaultBounds(b: Buffer, events: seq<Event>)
    requires WellFormed(b) && b.minThreshold == 1 && b.maxThreshold == 20 && 2 <= b.threshold <= 20
    ensures 2 <= Run(b, events).0.threshold <= 20
    decreases |events|
  {
    if events == [] {
    } else {
      TargetFloor(b);
      DefaultBounds(Apply(b, events[0]).0, events[1..]);
    }
  }

  lemma TargetFloor(b: Buffer)
    requires WellFormed(b)
    ensures b.maxThreshold >= 2 ==> Target(b) >= 2
  {
    var frames := (20.0 + 2.0 * (b.stats.jitter / 1000.0)) / 10.0;
    assert frames >= 2.0;
    assert Ceiling(frames) >= 2;
  }
}
