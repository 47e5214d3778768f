/** The client's replicated list of room members: the initial sync of join_voice and the event reader. */
module SignalingClient {
  import opened Words
  import opened VoiceRooms

  const MAX_SYNC_MESSAGES := 32

  datatype Info = Info(userId: string, ssrc: U32)

  /** Connected: handshake done.  Syncing: join_voice has sent its request and waits for its own entry.
      Live: the reader maintains the list, after the sync or without one.  Failed: join_voice gave up. */
  datatype Phase = Connected | Syncing(seen: nat, others: seq<Info>) | Live | Failed

  datatype Client = Client(userId: string, phase: Phase, peers: seq<Info>)

  /** The list without a user's entries. */
  function Erased(peers: seq<Info>, user: string): seq<Info>
  {
    if peers == [] then []
    else Erased(peers[..|peers| - 1], user) + (if peers[|peers| - 1].userId == user then [] else [peers[|peers| - 1]])
  }

  /** One message read by join_voice. */
  function Synced(c: Client, m: Message): Client
    requires c.phase.Syncing?
  {
    var seen := c.phase.seen + 1;
    if m.Error? then c.(phase := Failed)
    else if m.PeerJoined? && m.userId == c.userId then c.(phase := Live, peers := c.phase.others)
    else
      var others := if m.PeerJoined? then c.phase.others + [Info(m.userId, m.ssrc)] else c.phase.others;
      c.(phase := if seen < MAX_SYNC_MESSAGES then Syncing(seen, others) else Failed)
  }

  /** One message read by the event reader. */
  function Updated(c: Client, m: Message): Client
  {
    match m
    case PeerJoined(_, user, ssrc) =>
      if user == c.userId then c else c.(peers := Erased(c.peers, user) + [Info(user, ssrc)])
    case PeerLeft(_, user) => c.(peers := Erased(c.peers, user))
    case Error(_) => c
    case Chat => c
  }

  function Received(c: Client, m: Message): Client
  {
    if c.phase.Syncing? then Synced(c, m) else if c.phase.Live? then Updated(c, m) else c
  }

  /** The client once it has read everything queued for it. */
  function Drained(c: Client, queue: seq<Message>): Client
  {
    if queue == [] then c else Received(Drained(c, queue[..|queue| - 1]), queue[|queue| - 1])
  }

  lemma DrainOne(c: Client, queue: seq<Message>, m: Message)
    ensures Drained(c, queue + [m]) == Received(Drained(c, queue), m)
  {
    assert (queue + [m])[..|queue|] == queue;
  }

  lemma {:induction false} DrainFirst(c: Client, queue: seq<Message>)
    requires queue != []
    ensures Drained(c, queue) == Drained(Received(c, queue[0]), queue[1..])
    decreases |queue|
  {
    var front := queue[..|queue| - 1];
    if front == [] {
      assert queue == [queue[0]];
      DrainOne(c, [], queue[0]);
    } else {
      DrainFirst(c, front);
      assert queue[1..] == front[1..] + [queue[|queue| - 1]];
      DrainOne(Received(c, queue[0]), front[1..], queue[|queue| - 1]);
    }
  }

  lemma {:induction false} DrainAppend(c: Client, a: seq<Message>, b: seq<Message>)
    ensures Drained(c, a + b) == Drained(Drained(c, a), b)
    decreases |b|
  {
    if b == [] {
      assert a + b == a;
    } else {
      AppendLast(a, b);
      DrainAppend(c, a, b[..|b| - 1]);
    }
  }

  ghost predicate HasError(queue: seq<Message>)
  {
    exists m :: m in queue && m.Error?
  }

  /** The members some messages announce, in order. */
  function Announced(queue: seq<Message>): seq<Info>
  {
    if queue == [] then []
    else
      var last := queue[|queue| - 1];
      Announced(queue[..|queue| - 1]) + (if last.PeerJoined? then [Info(last.userId, last.ssrc)] else [])
  }

  lemma {:induction false} SyncWaits(c: Client, queue: seq<Message>)
    requires c.phase.Syncing? && c.phase.seen < MAX_SYNC_MESSAGES
    requires forall m :: m in queue ==> !(m.PeerJoined? && m.userId == c.userId)
    ensures var view := Drained(c, queue);
      && view.userId == c.userId
      && (if HasError(queue) || MAX_SYNC_MESSAGES <= c.phase.seen + |queue| then view.phase.Failed?
          else view.phase.Syncing? && view.phase.seen == c.phase.seen + |queue| && view.phase.others == c.phase.others + Announced(queue))
    decreases |queue|
  {
    if queue == [] {
      assert c.phase.others + [] == c.phase.others;
    } else {
      var front, last := queue[..|queue| - 1], queue[|queue| - 1];
      assert queue == front + [last];
      assert HasError(queue) <==> HasError(front) || last.Error? by {
        assert last in queue;
        assert forall m :: m in front ==> m in queue;
      }
      SyncWaits(c, front);
    }
  }

  /** The initial sync succeeds exactly when the client's own entry is among the first 32 messages and no
      error comes before it; the list is then what was announced before that entry, in order. */
  lemma SyncSucceedsIff(c: Client, before: seq<Message>, own: Message)
    requires c.phase.Syncing? && c.phase.seen < MAX_SYNC_MESSAGES && own.PeerJoined? && own.userId == c.userId
    requires forall m :: m in before ==> !(m.PeerJoined? && m.userId == c.userId)
    ensures Drained(c, before + [own]).phase.Live? <==> !HasError(before) && c.phase.seen + |before| < 32
    ensures Drained(c, before + [own]).phase.Live? ==> Drained(c, before + [own]).peers == c.phase.others + Announced(before)
    ensures Drained(c, before + [own]).phase.Live? || Drained(c, before + [own]).phase.Failed?
  {
    SyncWaits(c, before);
    DrainOne(c, before, own);
  }

  /** What the event reader alone makes of a queue, whether or not the client has joined. */
  function Listened(c: Client, queue: seq<Message>): Client
  {
    if queue == [] then c else Updated(Listened(c, queue[..|queue| - 1]), queue[|queue| - 1])
  }

  /** For a live client that is all there is. */
  lemma {:induction false} LiveListens(c: Client, queue: seq<Message>)
    requires c.phase.Live?
    ensures Drained(c, queue) == Listened(c, queue) && Drained(c, queue).phase.Live?
    decreases |queue|
  {
    if queue == [] {
    } else {
      LiveListens(c, queue[..|queue| - 1]);
    }
  }

  class SignalingClient {
    const userId: string
    var phase: Phase
    var peers: seq<Info>
    var incoming: seq<Message>   // what the socket has delivered and nobody has read yet

    ghost function Value(): Client
      reads this
    {
      Client(userId, phase, peers)
    }

    constructor (user: string)
      ensures Value() == Client(user, Connected, []) && incoming == []
    {
      userId, phase, peers, incoming := user, Connected, [], [];
    }

    // Reads until the client's own entry arrives; running out of messages is a receive timeout.
    method JoinVoice() returns (ok: bool)
      modifies this
      ensures exists n | 0 <= n <= |old(incoming)| :: (
        && incoming == old(incoming)[n..]
        && Value() == Drained(old(Value()).(phase := Syncing(0, [])), old(incoming)[..n])
        && (phase.Syncing? ==> incoming == []))
      ensures ok == phase.Live?
    {
      phase := Syncing(0, []);
      ghost var start, inbox := Value(), incoming;
      ghost var n := 0;
      while phase.Syncing? && incoming != []
        invariant n <= |inbox| && incoming == inbox[n..]
        invariant Value() == Drained(start, inbox[..n])
        decreases |incoming|
      {
        var m := incoming[0];
        incoming := incoming[1..];
        DrainOne(start, inbox[..n], inbox[n]);
        assert inbox[..n + 1] == inbox[..n] + [inbox[n]];
        n := n + 1;
        var seen, others := phase.seen + 1, phase.others;
        match m
        case Error(_) => phase := Failed;
        case PeerJoined(_, user, ssrc) =>
          if user == userId {
            peers := others;
            phase := Live;
          } else {
            phase := if seen < MAX_SYNC_MESSAGES then Syncing(seen, others + [Info(user, ssrc)]) else Failed;
          }
        case PeerLeft(_, _) => phase := if seen < MAX_SYNC_MESSAGES then Syncing(seen, others) else Failed;
        case Chat => phase := if seen < MAX_SYNC_MESSAGES then Syncing(seen, others) else Failed;
      }
      assert inbox[..n] == old(incoming)[..n];
      ok := phase.Live?;
    }

    // Reads everything that has arrived, keeping the list in step.
    method RunReader()
      modifies this`peers, this`incoming
      ensures incoming == []
      ensures Value() == Listened(old(Value()), old(incoming))
    {
      ghost var start, inbox := Value(), incoming;
      ghost var n := 0;
      while incoming != []
        invariant n <= |inbox| && incoming == inbox[n..]
        invariant phase == start.phase && Value() == Listened(start, inbox[..n])
        decreases |incoming|
      {
        var m := incoming[0];
        incoming := incoming[1..];
        assert inbox[..n + 1] == inbox[..n] + [inbox[n]];
        n := n + 1;
        match m
        case PeerJoined(_, user, ssrc) =>
          if user != userId {
            peers := Erased(peers, user) + [Info(user, ssrc)];
          }
        case PeerLeft(_, user) => peers := Erased(peers, user);
        case Error(_) =>
        case Chat =>
      }
      assert inbox[..n] == inbox;
    }
  }
}
