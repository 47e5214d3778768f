/** A stamped stream sent through the swapping simulator, a first-in first-out link and the playout
    buffer, under any interleaving of submissions, deliveries and pops.  Other streams may use the same
    simulator in between. */
module UnorderedSending {
  import opened Words
  import opened Packets
  import opened SerialNumbers
  import opened JitterBuffer
  import opened LossSim

  /** What the simulator holds or sends: packet number x of the stream followed, or of some other one. */
  datatype Item = Own(x: nat) | Other

  /** n own packets have been submitted; wire holds the own numbers sent but not yet delivered. */
  datatype Link = Link(sim: Sim<Item>, n: nat, wire: seq<nat>, buf: Buffer)

  datatype Act = Submit(draws: Draws) | SubmitOther(draws: Draws) | Deliver(now: int) | Pop

  function OwnIn(items: seq<Item>): seq<nat>
  {
    if items == [] then [] else (if items[0].Own? then [items[0].x] else []) + OwnIn(items[1..])
  }

  function OwnParked(held: Option<Item>): Option<nat>
  {
    if held.Some? && held.value.Own? then Some(held.value.x) else None
  }

  function Acted(stream: seq<Packet>, link: Link, a: Act): (r: (Link, seq<Packet>))
    requires WellFormed(link.buf)
    ensures WellFormed(r.0.buf)
  {
    match a
    case Submit(d) =>
      if link.n == |stream| then (link, [])
      else
        var (sim, sent) := Submitted(link.sim, Own(link.n), d);
        (Link(sim, link.n + 1, link.wire + OwnIn(sent), link.buf), [])
    case SubmitOther(d) =>
      var (sim, sent) := Submitted(link.sim, Other, d);
      (link.(sim := sim, wire := link.wire + OwnIn(sent)), [])
    case Deliver(now) =>
      if link.wire == [] || link.wire[0] >= |stream| then (link, [])
      else
        var (buf, out) := Apply(link.buf, Arrive(stream[link.wire[0]], now));
        (link.(wire := link.wire[1..], buf := buf), out)
    case Pop =>
      var (buf, out) := Apply(link.buf, Take);
      (link.(buf := buf), out)
  }

  function Played(stream: seq<Packet>, link: Link, acts: seq<Act>): (Link, seq<Packet>)
    requires WellFormed(link.buf)
    decreases |acts|
  {
    if acts == [] then (link, [])
    else
      var (link', out) := Acted(stream, link, acts[0]);
      var (end, rest) := Played(stream, link', acts[1..]);
      (end, out + rest)
  }

  /** The consumer keeps up: no packet is delivered to a full buffer. */
  predicate KeepsUp(stream: seq<Packet>, link: Link, acts: seq<Act>)
    requires WellFormed(link.buf)
    decreases |acts|
  {
    acts == [] ||
    ((acts[0].Deliver? && link.wire != [] ==> |link.buf.packets| < CAPACITY)
     && KeepsUp(stream, Acted(stream, link, acts[0]).0, acts[1..]))
  }

  // ---- what is still on its way ----

  /** Everything below k has been delivered, and k + 1 too when ahead; the wire, then the parked
      packet, hold exactly the rest of the n submitted numbers, swapped at most with a neighbour. */
  ghost predicate Underway(wire: seq<nat>, held: Option<nat>, n: nat, k: nat, ahead: bool)
    decreases |wire|
  {
    if wire == [] then !ahead && (if held.Some? then held.value == k && n == k + 1 else n == k)
    else if ahead then wire[0] == k && Underway(wire[1..], held, n, k + 2, false)
    else
      || (wire[0] == k && Underway(wire[1..], held, n, k + 1, false))
      || (wire[0] == k + 1 && Underway(wire[1..], held, n, k, true))
  }

  lemma OwnInPair(a: Item, b: Item)
    ensures OwnIn([a]) == (if a.Own? then [a.x] else [])
    ensures OwnIn([a, b]) == (if a.Own? then [a.x] else []) + (if b.Own? then [b.x] else [])
  {
    assert [a][1..] == [] && [a, b][1..] == [b] && [b][1..] == [];
  }

  lemma {:induction false} SubmissionUnderway(sim: Sim<Item>, item: Item, d: Draws, wire: seq<nat>, n: nat, k: nat, ahead: bool)
    requires sim.config.dropPct <= 0.0 && sim.config.jitterMsMax <= 0
    requires sim.config.Enabled() || sim.held.None?
    requires item.Own? ==> item.x == n
    requires Underway(wire, OwnParked(sim.held), n, k, ahead)
    ensures var (sim', sent) := Submitted(sim, item, d);
      Underway(wire + OwnIn(sent), OwnParked(sim'.held), if item.Own? then n + 1 else n, k, ahead)
    decreases |wire|
  {
    var (sim', sent) := Submitted(sim, item, d);
    if wire == [] {
      assert wire + OwnIn(sent) == OwnIn(sent);
      if sim.held.Some? {
        OwnInPair(item, sim.held.value);
        assert [k + 1, k][1..] == [k] && [k][1..] == [];
      } else {
        OwnInPair(item, item);
        assert [k][1..] == [];
      }
    } else {
      assert (wire + OwnIn(sent))[1..] == wire[1..] + OwnIn(sent);
      if ahead {
        SubmissionUnderway(sim, item, d, wire[1..], n, k + 2, false);
      } else if wire[0] == k {
        SubmissionUnderway(sim, item, d, wire[1..], n, k + 1, false);
      } else {
        SubmissionUnderway(sim, item, d, wire[1..], n, k, true);
      }
    }
  }

  /** Everything submitted is delivered, on the wire or parked. */
  lemma {:induction false} UnderwayCount(wire: seq<nat>, held: Option<nat>, n: nat, k: nat, ahead: bool)
    requires Underway(wire, held, n, k, ahead)
    ensures k + (if ahead then 1 else 0) + |wire| + (if held.Some? then 1 else 0) == n
    decreases |wire|
  {
    if wire == [] {
    } else if ahead {
      UnderwayCount(wire[1..], held, n, k + 2, false);
    } else if wire[0] == k {
      UnderwayCount(wire[1..], held, n, k + 1, false);
    } else {
      UnderwayCount(wire[1..], held, n, k, true);
    }
  }

  lemma {:induction false} UnderwayBounds(wire: seq<nat>, held: Option<nat>, n: nat, k: nat, ahead: bool)
    requires Underway(wire, held, n, k, ahead)
    ensures (if ahead then k + 2 else k) <= n && forall i :: 0 <= i < |wire| ==> wire[i] < n
    decreases |wire|
  {
    if wire == [] {
    } else {
      if ahead {
        UnderwayBounds(wire[1..], held, n, k + 2, false);
      } else if wire[0] == k {
        UnderwayBounds(wire[1..], held, n, k + 1, false);
      } else {
        UnderwayBounds(wire[1..], held, n, k, true);
      }
      assert forall i :: 0 < i < |wire| ==> wire[i] == wire[1..][i - 1];
    }
  }

  // ---- what the buffer holds ----

  ghost predicate Waiting(m: nat, k: nat, ahead: bool, x: int)
  {
    m <= x < k || (ahead && x == k + 1)
  }

  /** The buffer holds exactly the packets waiting between the m popped and the k delivered ones. */
  ghost predicate Buffered(stream: seq<Packet>, packets: map<U16, Packet>, tags: map<U16, int>, m: nat, k: nat, ahead: bool)
  {
    && tags.Keys == packets.Keys
    && m <= k
    && |packets| == k - m + (if ahead then 1 else 0)
    && (forall x :: Waiting(m, k, ahead, x) ==> Low16(x) in tags && tags[Low16(x)] == x)
    && (forall j :: j in tags ==> Waiting(m, k, ahead, tags[j]) && Low16(tags[j]) == j)
    && (forall j :: j in tags ==> tags[j] < |stream| && packets[j] == stream[tags[j]])
  }

  ghost predicate Heads(b: Buffer, m: nat)
  {
    if b.playing then b.next == Low16(m) else m == 0 && b.threshold >= 2
  }

  ghost predicate InStep(stream: seq<Packet>, link: Link, tags: map<U16, int>, m: nat, k: nat, ahead: bool)
  {
    && Stamped(stream)
    && WellFormed(link.buf)
    && link.sim.config.dropPct <= 0.0 && link.sim.config.jitterMsMax <= 0
    && (link.sim.config.Enabled() || link.sim.held.None?)
    && link.n <= |stream|
    && Underway(link.wire, OwnParked(link.sim.held), link.n, k, ahead)
    && Buffered(stream, link.buf.packets, tags, m, k, ahead)
    && Heads(link.buf, m)
  }

  lemma AbsentUntilDelivered(stream: seq<Packet>, packets: map<U16, Packet>, tags: map<U16, int>, m: nat, k: nat, ahead: bool, x: nat)
    requires Buffered(stream, packets, tags, m, k, ahead) && |packets| < CAPACITY
    requires x == k || (x == k + 1 && !ahead)
    ensures Low16(x) !in tags
  {
    if Low16(x) in tags {
      LowInjective(tags[Low16(x)], x);
    }
  }

  lemma InsertBuffered(stream: seq<Packet>, packets: map<U16, Packet>, tags: map<U16, int>, m: nat, k: nat, ahead: bool,
                       x: nat, k': nat, ahead': bool)
    requires Buffered(stream, packets, tags, m, k, ahead) && Low16(x) !in tags && x < |stream|
    requires m <= k' && k' - m + (if ahead' then 1 else 0) == k - m + (if ahead then 1 else 0) + 1
    requires forall y :: Waiting(m, k', ahead', y) <==> y == x || Waiting(m, k, ahead, y)
    ensures Buffered(stream, packets[Low16(x) := stream[x]], tags[Low16(x) := x], m, k', ahead')
  {
    var packets', tags' := packets[Low16(x) := stream[x]], tags[Low16(x) := x];
    forall y | Waiting(m, k', ahead', y) ensures Low16(y) in tags' && tags'[Low16(y)] == y {
      if y != x {
        assert Waiting(m, k, ahead, y);
      }
    }
  }

  lemma RemoveBuffered(stream: seq<Packet>, packets: map<U16, Packet>, tags: map<U16, int>, m: nat, k: nat, ahead: bool)
    requires Buffered(stream, packets, tags, m, k, ahead) && m < k && |packets| <= CAPACITY
    ensures Low16(m) in packets
    ensures Buffered(stream, packets - {Low16(m)}, tags - {Low16(m)}, m + 1, k, ahead)
  {
    assert Waiting(m, k, ahead, m);
    var key := Low16(m);
    assert (packets - {key}).Keys == packets.Keys - {key};
    assert |packets - {key}| == |(packets - {key}).Keys|;
    forall y | Waiting(m + 1, k, ahead, y) ensures Low16(y) in tags - {key} && tags[Low16(y)] == y {
      assert Waiting(m, k, ahead, y);
      if Low16(y) == key {
        LowInjective(y, m);
      }
    }
  }

  lemma DeliveryBuffers(stream: seq<Packet>, b: Buffer, tags: map<U16, int>, m: nat, k: nat, ahead: bool, x: nat, k': nat)
    requires Stamped(stream) && WellFormed(b) && Buffered(stream, b.packets, tags, m, k, ahead) && Heads(b, m)
    requires |b.packets| < CAPACITY && x < |stream|
    requires if x == k + 1 then !ahead && k' == k else x == k && k' == (if ahead then k + 2 else k + 1)
    ensures Inserts(b, stream[x])
    ensures Buffered(stream, b.packets[Low16(x) := stream[x]], tags[Low16(x) := x], m, k', x == k + 1)
  {
    AbsentUntilDelivered(stream, b.packets, tags, m, k, ahead, x);
    SequenceLessIsOrder(x, m);
    InsertBuffered(stream, b.packets, tags, m, k, ahead, x, k', x == k + 1);
  }

  /** A pop never skips: it delivers packet m, or nothing. */
  lemma HeadIsNext(stream: seq<Packet>, b: Buffer, tags: map<U16, int>, m: nat, k: nat, ahead: bool)
    requires Stamped(stream) && WellFormed(b) && Buffered(stream, b.packets, tags, m, k, ahead) && Heads(b, m)
    ensures !Skips(b)
    ensures HeadKey(b).Some? ==> m < k && HeadKey(b).value == Low16(m)
  {
    hide Buffered, SequenceLess, FirstKey;
    if m < k {
      NextIsHeld(stream, b.packets, tags, m, k, ahead);
    } else if ahead {
      OnlyTheNextHeld(stream, b.packets, tags, m, k);
      SequenceLessIsOrder(m + 5, k + 1);
      LowSum(m, 5);
    } else {
      NothingHeld(stream, b.packets, tags, m, k);
    }
  }

  lemma NextIsHeld(stream: seq<Packet>, packets: map<U16, Packet>, tags: map<U16, int>, m: nat, k: nat, ahead: bool)
    requires Buffered(stream, packets, tags, m, k, ahead) && m < k
    ensures Low16(m) in packets
  {
    assert Waiting(m, k, ahead, m);
  }

  lemma OnlyTheNextHeld(stream: seq<Packet>, packets: map<U16, Packet>, tags: map<U16, int>, m: nat, k: nat)
    requires Buffered(stream, packets, tags, m, k, true) && m >= k
    ensures m == k
    ensures |packets| == 1 && Low16(m) !in packets && Low16(k + 1) in packets && FirstKey(packets) == Low16(k + 1)
  {
    hide FirstKey;
    assert Waiting(m, k, true, k + 1);
    assert forall j :: j in tags ==> j == Low16(k + 1);
  }

  lemma NothingHeld(stream: seq<Packet>, packets: map<U16, Packet>, tags: map<U16, int>, m: nat, k: nat)
    requires Buffered(stream, packets, tags, m, k, false) && m >= k
    ensures packets == map[]
  {
  }

  lemma PopBuffers(stream: seq<Packet>, b: Buffer, tags: map<U16, int>, m: nat, k: nat, ahead: bool)
    requires Stamped(stream) && WellFormed(b) && Buffered(stream, b.packets, tags, m, k, ahead) && Heads(b, m)
    requires HeadKey(b).Some?
    ensures m < |stream|
    ensures var (b', out) := Apply(b, Take);
      out == [stream[m]] && Buffered(stream, b'.packets, tags - {Low16(m)}, m + 1, k, ahead) && Heads(b', m + 1)
  {
    hide HeadKey, Adapted;
    HeadIsNext(stream, b, tags, m, k, ahead);
    PopShape(b);
    LowSum(m, 1);
    RemoveBuffered(stream, b.packets, tags, m, k, ahead);
    assert Waiting(m, k, ahead, m);
  }

  // ---- runs ----

  lemma SubmitKeepsInStep(stream: seq<Packet>, link: Link, a: Act, tags: map<U16, int>, m: nat, k: nat, ahead: bool)
    requires InStep(stream, link, tags, m, k, ahead) && (a.Submit? || a.SubmitOther?)
    ensures InStep(stream, Acted(stream, link, a).0, tags, m, k, ahead)
    ensures Acted(stream, link, a).1 == []
  {
    hide Underway, Buffered, Heads, WellFormed, OwnIn;
    SubmissionUnderway(link.sim, if a.Submit? then Own(link.n) else Other, a.draws, link.wire, link.n, k, ahead);
  }

  lemma DeliverKeepsInStep(stream: seq<Packet>, link: Link, now: int, tags: map<U16, int>, m: nat, k: nat, ahead: bool)
    returns (tags': map<U16, int>, k': nat, ahead': bool)
    requires InStep(stream, link, tags, m, k, ahead)
    requires link.wire != [] ==> |link.buf.packets| < CAPACITY
    ensures InStep(stream, Acted(stream, link, Deliver(now)).0, tags', m, k', ahead')
    ensures Acted(stream, link, Deliver(now)).1 == []
    ensures link.wire != [] ==> link.wire[0] < |stream| && Inserts(link.buf, stream[link.wire[0]])
  {
    hide Observe, Buffered, Inserts, Stamped;
    tags', k', ahead' := tags, k, ahead;
    if link.wire != [] {
      var x := link.wire[0];
      UnderwayBounds(link.wire, OwnParked(link.sim.held), link.n, k, ahead);
      ahead' := x == k + 1;
      k' := if x == k + 1 then k else if ahead then k + 2 else k + 1;
      tags' := tags[Low16(x) := x];
      DeliveryBuffers(stream, link.buf, tags, m, k, ahead, x, k');
      assert stream[x].sequence == Low16(x) by { assert Stamped(stream); StampedAt(stream, x); }
    }
  }

  lemma StampedAt(stream: seq<Packet>, x: nat)
    requires Stamped(stream) && x < |stream|
    ensures stream[x].sequence == Low16(x)
  {
  }

  lemma PopKeepsInStep(stream: seq<Packet>, link: Link, tags: map<U16, int>, m: nat, k: nat, ahead: bool)
    returns (tags': map<U16, int>, m': nat)
    requires InStep(stream, link, tags, m, k, ahead)
    ensures InStep(stream, Acted(stream, link, Pop).0, tags', m', k, ahead)
    ensures m <= m' <= |stream| && Acted(stream, link, Pop).1 == stream[m..m']
  {
    hide HeadKey, Buffered, Underway;
    tags', m' := tags, m;
    BufferedBounds(stream, link, tags, m, k, ahead);
    HeadIsNext(stream, link.buf, tags, m, k, ahead);
    if HeadKey(link.buf).Some? {
      PopBuffers(stream, link.buf, tags, m, k, ahead);
      tags', m' := tags - {Low16(m)}, m + 1;
    }
  }

  lemma BufferedBounds(stream: seq<Packet>, link: Link, tags: map<U16, int>, m: nat, k: nat, ahead: bool)
    requires InStep(stream, link, tags, m, k, ahead)
    ensures m <= |stream|
  {
    UnderwayBounds(link.wire, OwnParked(link.sim.held), link.n, k, ahead);
  }

  /** The buffer takes in what is delivered, and a pop does not skip. */
  ghost predicate SmoothStep(stream: seq<Packet>, link: Link, a: Act)
  {
    && (a.Deliver? && link.wire != [] ==> link.wire[0] < |stream| && Inserts(link.buf, stream[link.wire[0]]))
    && (a.Pop? ==> !Skips(link.buf))
  }

  /** One step keeps the link in step, delivers the next packets of the stream or nothing, and is smooth. */
  lemma ActKeepsInStep(stream: seq<Packet>, link: Link, a: Act, tags: map<U16, int>, m: nat, k: nat, ahead: bool)
    returns (tags': map<U16, int>, m': nat, k': nat, ahead': bool)
    requires InStep(stream, link, tags, m, k, ahead)
    requires a.Deliver? && link.wire != [] ==> |link.buf.packets| < CAPACITY
    ensures InStep(stream, Acted(stream, link, a).0, tags', m', k', ahead')
    ensures m <= m' <= |stream| && Acted(stream, link, a).1 == stream[m..m']
    ensures SmoothStep(stream, link, a)
  {
    hide Acted, InStep, Inserts, Skips;
    tags', m', k', ahead' := tags, m, k, ahead;
    BufferedBounds(stream, link, tags, m, k, ahead);
    InStepNeverSkips(stream, link, tags, m, k, ahead);
    match a
    case Submit(_) => SubmitKeepsInStep(stream, link, a, tags, m, k, ahead);
    case SubmitOther(_) => SubmitKeepsInStep(stream, link, a, tags, m, k, ahead);
    case Deliver(now) => tags', k', ahead' := DeliverKeepsInStep(stream, link, now, tags, m, k, ahead);
    case Pop => tags', m' := PopKeepsInStep(stream, link, tags, m, k, ahead);
  }

  lemma InStepNeverSkips(stream: seq<Packet>, link: Link, tags: map<U16, int>, m: nat, k: nat, ahead: bool)
    requires InStep(stream, link, tags, m, k, ahead)
    ensures m <= |stream| && WellFormed(link.buf) && !Skips(link.buf)
  {
    BufferedBounds(stream, link, tags, m, k, ahead);
    HeadIsNext(stream, link.buf, tags, m, k, ahead);
  }

  /** Over the whole run: every delivered packet is taken in, none is rejected as late or for want of
      room, and no pop skips. */
  ghost predicate Smooth(stream: seq<Packet>, link: Link, acts: seq<Act>)
    requires WellFormed(link.buf)
    decreases |acts|
  {
    acts == [] || (SmoothStep(stream, link, acts[0]) && Smooth(stream, Acted(stream, link, acts[0]).0, acts[1..]))
  }

  /** Own packets parked in the simulator. */
  function Parked(link: Link): nat { if OwnParked(link.sim.held).Some? then 1 else 0 }

  /** Nothing is on its way any more and the consumer has popped all it can. */
  ghost predicate Settled(link: Link)
    requires WellFormed(link.buf)
  {
    && link.wire == [] && Parked(link) == 0 && HeadKey(link.buf).None?
    && (link.buf.playing || link.n >= link.buf.threshold)
  }

  /** Nothing is lost: what was submitted is popped, buffered, on the wire or parked; and in a settled
      link it is all popped. */
  lemma InStepIsComplete(stream: seq<Packet>, link: Link, tags: map<U16, int>, m: nat, k: nat, ahead: bool)
    requires InStep(stream, link, tags, m, k, ahead)
    ensures m + |link.buf.packets| + |link.wire| + Parked(link) == link.n <= |stream|
    ensures Settled(link) ==> m == link.n
  {
    UnderwayCount(link.wire, OwnParked(link.sim.held), link.n, k, ahead);
    if m < k {
      NextIsHeld(stream, link.buf.packets, tags, m, k, ahead);
    }
  }

  /** Swapping at the sender is fully undone.  For every interleaving in which the consumer keeps up,
      from any state of the link the run reaches another, is smooth, and pops the stream itself from
      packet m on, in order and without a gap. */
  lemma {:induction false} SwapsAreUndone(stream: seq<Packet>, link: Link, acts: seq<Act>,
                                          tags: map<U16, int>, m: nat, k: nat, ahead: bool)
    returns (tags': map<U16, int>, k': nat, ahead': bool)
    requires InStep(stream, link, tags, m, k, ahead) && KeepsUp(stream, link, acts)
    ensures Smooth(stream, link, acts)
    ensures var (end, popped) := Played(stream, link, acts);
      && m + |popped| <= |stream| && popped == stream[m..m + |popped|]
      && InStep(stream, end, tags', m + |popped|, k', ahead')
    decreases |acts|
  {
    hide Acted, InStep, SmoothStep;
    tags', k', ahead' := tags, k, ahead;
    InStepNeverSkips(stream, link, tags, m, k, ahead);
    if acts == [] {
    } else {
      var t1, m1, k1, a1 := ActKeepsInStep(stream, link, acts[0], tags, m, k, ahead);
      tags', k', ahead' := SwapsAreUndone(stream, Acted(stream, link, acts[0]).0, acts[1..], t1, m1, k1, a1);
      var rest := Played(stream, Acted(stream, link, acts[0]).0, acts[1..]).1;
      assert stream[m..m1] + stream[m1..m1 + |rest|] == stream[m..m1 + |rest|];
    }
  }

  function Start(config: Config, buf: Buffer): Link { Link(Sim(config, None, []), 0, [], buf) }

  /** The run is smooth; what was popped is the stream up to there; every other packet submitted is
      buffered, on the wire or parked; and once the link has settled all of them are popped. */
  ghost predicate Restored(stream: seq<Packet>, link: Link, acts: seq<Act>)
    requires WellFormed(link.buf)
  {
    var (end, popped) := Played(stream, link, acts);
    && Smooth(stream, link, acts)
    && WellFormed(end.buf)
    && popped <= stream
    && |popped| + |end.buf.packets| + |end.wire| + Parked(end) == end.n <= |stream|
    && (Settled(end) ==> |popped| == end.n)
  }

  /** The same from the start: a fresh simulator, an empty link and an unstarted buffer. */
  lemma {:induction false} SwappedStreamIsRestored(stream: seq<Packet>, config: Config, buf: Buffer, acts: seq<Act>)
    requires Stamped(stream) && config.dropPct <= 0.0 && config.jitterMsMax <= 0
    requires WellFormed(buf) && buf.packets == map[] && !buf.playing && buf.threshold >= 2
    requires KeepsUp(stream, Start(config, buf), acts)
    ensures Restored(stream, Start(config, buf), acts)
  {
    hide Settled, Parked, Smooth, Played, KeepsUp, InStep;
    StartIsInStep(stream, config, buf);
    var tags', k', ahead' := SwapsAreUndone(stream, Start(config, buf), acts, map[], 0, 0, false);
    var (end, popped) := Played(stream, Start(config, buf), acts);
    InStepNeverSkips(stream, end, tags', |popped|, k', ahead');
    assert stream[0..|popped|] <= stream;
    InStepIsComplete(stream, end, tags', |popped|, k', ahead');
  }

  lemma StartIsInStep(stream: seq<Packet>, config: Config, buf: Buffer)
    requires Stamped(stream) && config.dropPct <= 0.0 && config.jitterMsMax <= 0
    requires WellFormed(buf) && buf.packets == map[] && !buf.playing && buf.threshold >= 2
    ensures InStep(stream, Start(config, buf), map[], 0, 0, false)
  {
  }

  /** With a threshold of one the first of two swapped packets starts playback. */
  function EarlyStart(): seq<Act>
  {
    var d := Draws(0.0, 0.0, 0, 0, 0);
    [Submit(d), Submit(d), Deliver(0), Pop]
  }

  lemma ThresholdOneStartsEarly(stream: seq<Packet>, config: Config, buf: Buffer)
    requires Stamped(stream) && |stream| >= 2
    requires config.dropPct <= 0.0 && config.jitterMsMax <= 0 && config.oooPct > 0.0
    requires WellFormed(buf) && buf.packets == map[] && !buf.playing && buf.threshold == 1
    ensures KeepsUp(stream, Start(config, buf), EarlyStart())
    ensures Played(stream, Start(config, buf), EarlyStart()).1 == [stream[1]]
  {
    hide Acted, Played, KeepsUp;
    var d := Draws(0.0, 0.0, 0, 0, 0);
    var l1 := Acted(stream, Start(config, buf), Submit(d)).0;
    var l2 := Acted(stream, l1, Submit(d)).0;
    SwappedPair(stream, config, buf);
    var l3 := Acted(stream, l2, Deliver(0)).0;
    SecondDelivered(stream, l2);
    PopsOnly(stream, l3, 1, stream[1]);
    PlayedFour(stream, Start(config, buf), Submit(d), Submit(d), Deliver(0), Pop);
  }

  lemma SwappedPair(stream: seq<Packet>, config: Config, buf: Buffer)
    requires |stream| >= 2 && WellFormed(buf)
    requires config.dropPct <= 0.0 && config.jitterMsMax <= 0 && config.oooPct > 0.0
    ensures var d := Draws(0.0, 0.0, 0, 0, 0);
      var (l1, out1) := Acted(stream, Start(config, buf), Submit(d));
      var (l2, out2) := Acted(stream, l1, Submit(d));
      out1 == [] && out2 == [] && l1.buf == buf && l2.buf == buf && l2.wire == [1, 0]
  {
    var d := Draws(0.0, 0.0, 0, 0, 0);
    var (l1, out1) := Acted(stream, Start(config, buf), Submit(d));
    assert l1 == Link(Sim(config, Some(Own(0)), []), 1, [], buf);
    var (sim, sent) := Submitted(l1.sim, Own(1), d);
    assert sent == [Own(1), Own(0)];
    OwnInPair(Own(1), Own(0));
    assert [] + [1, 0] == [1, 0];
  }

  lemma SecondDelivered(stream: seq<Packet>, link: Link)
    requires Stamped(stream) && |stream| >= 2 && WellFormed(link.buf) && link.wire == [1, 0]
    requires link.buf.packets == map[] && !link.buf.playing
    ensures var (l3, out) := Acted(stream, link, Deliver(0));
      out == [] && l3.buf == link.buf.(stats := l3.buf.stats, packets := map[1 := stream[1]])
  {
    hide Observe;
    StampedAt(stream, 1);
    var l3 := Acted(stream, link, Deliver(0)).0;
    assert Inserts(link.buf, stream[1]);
    assert l3.buf.packets == map[1 := stream[1]];
  }

  lemma PlayedFour(stream: seq<Packet>, link: Link, a0: Act, a1: Act, a2: Act, a3: Act)
    requires WellFormed(link.buf)
    ensures var (l1, out0) := Acted(stream, link, a0);
      var (l2, out1) := Acted(stream, l1, a1);
      var (l3, out2) := Acted(stream, l2, a2);
      var (l4, out3) := Acted(stream, l3, a3);
      && Played(stream, link, [a0, a1, a2, a3]).1 == out0 + (out1 + (out2 + (out3 + [])))
      && ((a0.Deliver? ==> |link.buf.packets| < CAPACITY) && (a1.Deliver? ==> |l1.buf.packets| < CAPACITY)
          && (a2.Deliver? ==> |l2.buf.packets| < CAPACITY) && (a3.Deliver? ==> |l3.buf.packets| < CAPACITY)
          ==> KeepsUp(stream, link, [a0, a1, a2, a3]))
  {
    hide Acted;
    var acts := [a0, a1, a2, a3];
    assert acts[1..] == [a1, a2, a3] && acts[1..][1..] == [a2, a3] && acts[1..][1..][1..] == [a3] && [a3][1..] == [];
    var l1 := Acted(stream, link, a0).0;
    var l2 := Acted(stream, l1, a1).0;
    var l3 := Acted(stream, l2, a2).0;
    assert Played(stream, l3, [a3]).1 == Acted(stream, l3, a3).1 + [];
    assert Played(stream, l2, [a2, a3]).1 == Acted(stream, l2, a2).1 + Played(stream, l3, [a3]).1;
    assert (a3.Deliver? ==> |l3.buf.packets| < CAPACITY) ==> KeepsUp(stream, l3, [a3]);
    assert (a2.Deliver? ==> |l2.buf.packets| < CAPACITY) && KeepsUp(stream, l3, [a3]) ==> KeepsUp(stream, l2, [a2, a3]);
  }

  lemma PopsOnly(stream: seq<Packet>, link: Link, k: U16, p: Packet)
    requires WellFormed(link.buf) && !link.buf.playing && link.buf.threshold == 1
    requires link.buf.packets == map[k := p]
    ensures Acted(stream, link, Pop).1 == [p]
  {
    assert k in link.buf.packets;
    assert |link.buf.packets| == 1;
  }

  /** Swapped sending is undone on every schedule exactly when playback waits for two packets. */
  lemma {:induction false} RestoredIffThreshold(stream: seq<Packet>, config: Config, buf: Buffer)
    requires Stamped(stream) && |stream| >= 2
    requires config.dropPct <= 0.0 && config.jitterMsMax <= 0 && config.oooPct > 0.0
    requires WellFormed(buf) && buf.packets == map[] && !buf.playing
    ensures (forall acts :: KeepsUp(stream, Start(config, buf), acts) ==> Restored(stream, Start(config, buf), acts))
       <==> buf.threshold >= 2
  {
    hide KeepsUp, Played, Smooth, Settled, Parked;
    if buf.threshold >= 2 {
      forall acts | KeepsUp(stream, Start(config, buf), acts) ensures Restored(stream, Start(config, buf), acts) {
        SwappedStreamIsRestored(stream, config, buf, acts);
      }
    } else {
      ThresholdOneStartsEarly(stream, config, buf);
      assert stream[1] != stream[0];
      assert !Restored(stream, Start(config, buf), EarlyStart());
    }
  }
}
