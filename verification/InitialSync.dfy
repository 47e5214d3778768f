/** When a client's initial sync gives up, and that on a quiet connection it never does. */
module InitialSync {
  import opened Words
  import opened VoiceRooms
  import opened VoiceRoomInvariant
  import opened SignalingClient
  import opened ReplicatedRooms
  import opened RoomReplication
  import opened ReplicatedRuns

  /** The join of a syncing client makes it live exactly when, on top of what it has read, fewer than 32
      messages wait in its queue and none of them is an error. */
  lemma JoinSucceedsIff(w: World, ws: Ws, channel: string)
    requires Replicated(w) && Cooperative(w, Serve(Join(ws, channel)))
    requires ws in w.clients && w.clients[ws].phase.Syncing? && ws in w.server.conns && ws in w.server.outbox
    requires w.server.conns[ws].room == ""
    ensures var t := Stepped(w, Serve(Join(ws, channel))).server;
      && ws in t.outbox
      && (Drained(w.clients[ws], t.outbox[ws]).phase.Live?
          <==> !HasError(w.server.outbox[ws]) && w.clients[ws].phase.seen + |w.server.outbox[ws]| < 32)
  {
    hide Drained, Placed, Broadcast, SendAll, Announcements, OneSessionPerUser, HasError;
    var s, c := w.server, w.clients[ws];
    var own := PeerJoined(channel, s.conns[ws].userId, s.nextSsrc);
    var announced := Announcements(channel, RoomOf(s.rooms, channel));
    assert Follows(s, ws, c);
    SameUser(c, s.outbox[ws]);
    EnterIsHeard(s, ws, channel, ws);
    SyncSucceedsIff(c, s.outbox[ws], own);
    Assoc(s.outbox[ws], [own], announced);
    DrainAppend(c, s.outbox[ws] + [own], announced);
    var view := Drained(c, s.outbox[ws] + [own]);
    if view.phase.Live? {
      LiveListens(view, announced);
    } else {
      FailedStays(view, announced);
    }
  }

  lemma {:induction false} SameUser(c: Client, queue: seq<Message>)
    ensures Drained(c, queue).userId == c.userId
    decreases |queue|
  {
    if queue == [] {
    } else {
      SameUser(c, queue[..|queue| - 1]);
    }
  }

  /** Messages without room news sent to a connection while it is in no room. */
  function ChatterAt(w: World, step: Step, ws: Ws): nat
  {
    if step == Notify(ws) && ws in w.server.conns && w.server.conns[ws].room == "" then 1 else 0
  }

  ghost predicate RefusedAt(w: World, step: Step, ws: Ws)
  {
    step.Serve? && step.event.Join? && step.event.ws == ws && ws in w.server.conns && !w.server.conns[ws].authenticated
  }

  function Chatter(w: World, steps: seq<Step>, ws: Ws): nat
    decreases |steps|
  {
    if steps == [] then 0 else ChatterAt(w, steps[0], ws) + Chatter(Stepped(w, steps[0]), steps[1..], ws)
  }

  ghost predicate NeverRefused(w: World, steps: seq<Step>, ws: Ws)
    decreases |steps|
  {
    steps == [] || (!RefusedAt(w, steps[0], ws) && NeverRefused(Stepped(w, steps[0]), steps[1..], ws))
  }

  function Seen(c: Client): nat { if c.phase.Syncing? then c.phase.seen else 0 }

  /** In no room: nothing but the heard messages is read or waiting, and no error.  In a room: live. */
  ghost predicate Calm(w: World, ws: Ws, heard: nat)
  {
    ws in w.server.conns && ws in w.server.outbox ==>
      (var queue := w.server.outbox[ws];
       if w.server.conns[ws].room == "" then
         && !HasError(queue)
         && |queue| + (if ws in w.clients then Seen(w.clients[ws]) else 0) <= heard
         && (ws in w.clients ==> !w.clients[ws].phase.Failed?)
       else
         ws in w.clients && Drained(w.clients[ws], queue).phase.Live?)
  }

  /** What the server's handling of an event adds to a queue it does not create or end. */
  lemma EventIsHeard(s: Server, e: Event, v: Ws)
    requires Placed(s) && Behaved(s, e) && !e.Leave? && v in s.conns && !(e == Close(v))
    ensures var t := Handled(s, e);
      && v in t.conns && v in s.outbox && v in t.outbox && s.outbox[v] <= t.outbox[v]
      && (s.conns[v].room == "" && !(e.Join? && e.ws == v) ==> t.outbox[v] == s.outbox[v] && t.conns[v].room == "")
      && (s.conns[v].room != "" ==> t.conns[v].room != "")
  {
    hide Placed, Broadcast, SendAll, RemovedFrom, LeftRoom, EnteredRoom, RoomOf;
    EveryoneHasAQueue(s);
    match e
    case Open(_) =>
    case Hello(_, _, _) =>
    case Join(ws, channel) =>
      if ws in s.conns && s.conns[ws].authenticated {
        JoinIsHeard(s, ws, channel, v);
      } else if ws in s.conns {
        RefusedJoin(s, ws, channel);
      }
    case Close(ws) =>
      if ws in s.conns {
        CloseIsHeard(s, ws, v);
      }
  }

  lemma JoinIsHeard(s: Server, ws: Ws, channel: string, v: Ws)
    requires Placed(s) && channel != "" && ws in s.conns && s.conns[ws].authenticated && v in s.conns
    ensures var t := Joined(s, ws, channel);
      && v in t.conns && v in s.outbox && v in t.outbox && s.outbox[v] <= t.outbox[v]
      && t.conns[v].room == (if v == ws then channel else s.conns[v].room)
      && (s.conns[v].room == "" && v != ws ==> t.outbox[v] == s.outbox[v])
  {
    hide Placed, Broadcast, SendAll, RemovedFrom, LeftRoom, Announcements, RoomOf;
    if s.conns[ws].room == "" {
      EnterIsHeard(s, ws, channel, v);
    } else {
      LeavingKeepsPlaced(s, ws);
      LeftConn(s, ws, ws);
      LeftConn(s, ws, v);
      LeaveIsHeard(s, ws, v);
      EnterIsHeard(LeftRoom(s, ws, s.conns[ws].room), ws, channel, v);
    }
  }

  lemma CloseIsHeard(s: Server, ws: Ws, v: Ws)
    requires Placed(s) && ws in s.conns && v in s.conns && v != ws
    ensures var t := Closed(s, ws);
      && v in t.conns && v in s.outbox && v in t.outbox && s.outbox[v] <= t.outbox[v]
      && t.conns[v].room == s.conns[v].room
      && (s.conns[v].room == "" ==> t.outbox[v] == s.outbox[v])
  {
    hide Placed, LeftRoom;
    EveryoneHasAQueue(s);
    if s.conns[ws].room != "" {
      LeftConn(s, ws, v);
      LeaveIsHeard(s, ws, v);
    }
  }

  lemma LongerStaysLive(c: Client, queue: seq<Message>, longer: seq<Message>)
    requires Drained(c, queue).phase.Live? && queue <= longer
    ensures Drained(c, longer).phase.Live?
  {
    hide Drained;
    assert longer == queue + longer[|queue|..];
    DrainAppend(c, queue, longer[|queue|..]);
    LiveListens(Drained(c, queue), longer[|queue|..]);
  }

  lemma EventKeepsCalm(w: World, e: Event, ws: Ws, heard: nat)
    requires Replicated(w) && Cooperative(w, Serve(e)) && Calm(w, ws, heard) && heard < MAX_SYNC_MESSAGES
    requires !RefusedAt(w, Serve(e), ws)
    ensures Calm(Stepped(w, Serve(e)), ws, heard)
  {
    hide Placed, Drained, HasError, Handled, Follows, Quiet, OneSessionPerUser;
    var s, u := w.server, Stepped(w, Serve(e));
    EveryoneHasAQueue(s);
    if ws !in s.conns {
      StrangerIsCalm(w, e, ws, heard);
    } else if e == Close(ws) {
      ClosedIsGone(s, ws);
    } else {
      EventIsHeard(s, e, ws);
      if s.conns[ws].room != "" {
        SameClient(w, e, ws);
        LongerStaysLive(w.clients[ws], s.outbox[ws], u.server.outbox[ws]);
      } else if e.Join? && e.ws == ws {
        JoinKeepsCalm(w, ws, e.channel, heard);
      } else if !(e.Hello? && e.ws == ws) {
        SameClient(w, e, ws);
      }
    }
  }

  lemma SameClient(w: World, e: Event, ws: Ws)
    requires ws in w.server.conns && e != Close(ws)
    requires Behaved(w.server, e) && Placed(w.server) && (e.Hello? && e.ws == ws ==> w.server.conns[ws].room != "")
    ensures ws in ClientsAfter(w, e) <==> ws in w.clients
    ensures ws in w.clients ==> ClientsAfter(w, e)[ws] == w.clients[ws]
  {
    assert Known(w.server, ws);
  }

  lemma ClosedIsGone(s: Server, ws: Ws)
    requires ws in s.conns
    ensures ws !in Handled(s, Close(ws)).conns
  {
    hide LeftRoom;
  }

  lemma StrangerIsCalm(w: World, e: Event, ws: Ws, heard: nat)
    requires Replicated(w) && Cooperative(w, Serve(e)) && ws !in w.server.conns
    ensures Calm(Stepped(w, Serve(e)), ws, heard)
  {
    hide Placed, Broadcast, SendAll, RemovedFrom, Drained;
    NobodyNew(w.server, e, ws);
  }

  lemma NobodyNew(s: Server, e: Event, ws: Ws)
    requires ws !in s.conns
    ensures var t := Handled(s, e);
      if e == Open(ws) then ws in t.conns && t.conns[ws].room == "" && ws in t.outbox && t.outbox[ws] == [] else ws !in t.conns
  {
    hide Broadcast, SendAll, RemovedFrom;
  }

  lemma JoinKeepsCalm(w: World, ws: Ws, channel: string, heard: nat)
    requires Replicated(w) && Cooperative(w, Serve(Join(ws, channel))) && Calm(w, ws, heard) && heard < MAX_SYNC_MESSAGES
    requires ws in w.server.conns && w.server.conns[ws].authenticated && w.server.conns[ws].room == ""
    ensures Calm(Stepped(w, Serve(Join(ws, channel))), ws, heard)
  {
    hide Placed, Drained, HasError, OneSessionPerUser, Quiet, Broadcast, SendAll, RemovedFrom, LeftRoom, EnteredRoom;
    var s, u := w.server, Stepped(w, Serve(Join(ws, channel)));
    EveryoneHasAQueue(s);
    JoinIsHeard(s, ws, channel, ws);
    if w.clients[ws].phase.Syncing? {
      JoinSucceedsIff(w, ws, channel);
    } else {
      LiveListens(w.clients[ws], s.outbox[ws]);
      LongerStaysLive(w.clients[ws], s.outbox[ws], u.server.outbox[ws]);
    }
  }

  /** A client's or the network's step. */
  lemma OtherStepKeepsCalm(w: World, step: Step, ws: Ws, heard: nat)
    requires Replicated(w) && !step.Serve? && Calm(w, ws, heard)
    requires heard + ChatterAt(w, step, ws) < MAX_SYNC_MESSAGES
    ensures Calm(Stepped(w, step), ws, heard + ChatterAt(w, step, ws))
  {
    hide Placed, Drained, HasError, InStep, Quiet, OneSessionPerUser, Others;
    EveryoneHasAQueue(w.server);
    if ws in w.server.conns && step.ws == ws {
      if w.server.conns[ws].room == "" {
        UnseatedKeepsCalm(w, step, ws, heard);
      } else {
        SeatedStaysLive(w, step, ws);
      }
    }
  }

  lemma UnseatedKeepsCalm(w: World, step: Step, ws: Ws, heard: nat)
    requires !step.Serve? && step.ws == ws && Calm(w, ws, heard)
    requires ws in w.server.conns && ws in w.server.outbox && w.server.conns[ws].room == ""
    requires ws in w.clients ==> Waiting(w.server, ws, w.clients[ws])
    requires heard + ChatterAt(w, step, ws) < MAX_SYNC_MESSAGES
    ensures Calm(Stepped(w, step), ws, heard + ChatterAt(w, step, ws))
  {
    var queue := w.server.outbox[ws];
    if step.Deliver? && queue != [] {
      assert queue[0] in queue;
      assert forall m :: m in queue[1..] ==> m in queue;
    }
  }

  lemma SeatedStaysLive(w: World, step: Step, ws: Ws)
    requires !step.Serve? && step.ws == ws && ws in w.server.conns && ws in w.server.outbox && ws in w.clients
    requires !w.clients[ws].phase.Connected? && Drained(w.clients[ws], w.server.outbox[ws]).phase.Live?
    ensures var u := Stepped(w, step);
      && u.server.conns == w.server.conns && ws in u.server.outbox && ws in u.clients
      && Drained(u.clients[ws], u.server.outbox[ws]).phase.Live?
  {
    hide Drained;
    var c, queue := w.clients[ws], w.server.outbox[ws];
    if step.Notify? {
      LongerStaysLive(c, queue, queue + [Chat]);
    } else if step.Deliver? && queue != [] {
      DrainFirst(c, queue);
    }
  }

  lemma {:induction false} RunKeepsCalm(w: World, steps: seq<Step>, ws: Ws, heard: nat)
    requires Replicated(w) && AllCooperative(w, steps) && NeverRefused(w, steps, ws)
    requires Calm(w, ws, heard) && heard + Chatter(w, steps, ws) < MAX_SYNC_MESSAGES
    ensures Calm(WorldAfter(w, steps), ws, heard + Chatter(w, steps, ws))
    decreases |steps|
  {
    hide Replicated, Stepped, Cooperative, Calm, RefusedAt, ChatterAt;
    if steps == [] {
    } else {
      var step := steps[0];
      CalmStep(w, step, ws, heard);
      RunKeepsReplicated(w, [step]);
      OneStep(w, step);
      RunKeepsCalm(Stepped(w, step), steps[1..], ws, heard + ChatterAt(w, step, ws));
    }
  }

  lemma OneStep(w: World, step: Step)
    ensures WorldAfter(w, [step]) == Stepped(w, step)
    ensures Cooperative(w, step) ==> AllCooperative(w, [step])
  {
    assert [step][1..] == [];
  }

  lemma CalmStep(w: World, step: Step, ws: Ws, heard: nat)
    requires Replicated(w) && Cooperative(w, step) && !RefusedAt(w, step, ws)
    requires Calm(w, ws, heard) && heard + ChatterAt(w, step, ws) < MAX_SYNC_MESSAGES
    ensures Calm(Stepped(w, step), ws, heard + ChatterAt(w, step, ws))
  {
    hide Replicated, Stepped, Cooperative, Calm, RefusedAt;
    if step.Serve? {
      EventKeepsCalm(w, step.event, ws, heard);
    } else {
      OtherStepKeepsCalm(w, step, ws, heard);
    }
  }

  /** No escape: a connection that hears fewer than 32 other messages while it is in no room, and none of
      whose joins is refused, always ends with exactly the other members of the room it is seated in. */
  lemma {:induction false} QuietReplicaIsRoom(steps: seq<Step>, ws: Ws)
    requires AllCooperative(NEW_WORLD, steps) && NeverRefused(NEW_WORLD, steps, ws)
    requires Chatter(NEW_WORLD, steps, ws) < MAX_SYNC_MESSAGES
    ensures var w := WorldAfter(NEW_WORLD, steps);
      ws in w.server.conns && w.server.conns[ws].room != "" ==> (
        && ws in w.server.outbox && ws in w.clients
        && var sess, view := w.server.conns[ws], Drained(w.clients[ws], w.server.outbox[ws]);
        && view.phase.Live? && view.peers == Others(RoomOf(w.server.rooms, sess.room), sess.sessionId))
  {
    hide Stepped, Drained, Others, Cooperative, Placed;
    NewWorldIsReplicated();
    RunKeepsReplicated(NEW_WORLD, steps);
    RunKeepsCalm(NEW_WORLD, steps, ws, 0);
    var w := WorldAfter(NEW_WORLD, steps);
    EveryoneHasAQueue(w.server);
    if ws in w.clients {
      assert Follows(w.server, ws, w.clients[ws]);
    }
  }
}
