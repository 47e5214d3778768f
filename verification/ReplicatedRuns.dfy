/** The clients' own steps, and whole runs of server, queues and clients together. */
module ReplicatedRuns {
  import opened VoiceRooms
  import opened VoiceRoomInvariant
  import opened SignalingClient
  import opened ReplicatedRooms
  import opened RoomReplication

  // ---- the clients' own steps ----

  lemma {:induction false} QuietSync(c: Client, queue: seq<Message>)
    requires Quiet(queue) && c.phase.Syncing? && c.phase.others == []
    ensures var view := Drained(c, queue);
      && view.userId == c.userId && view.peers == c.peers
      && (view.phase.Failed? || (view.phase.Syncing? && view.phase.others == []))
    decreases |queue|
  {
    if queue == [] {
    } else {
      QuietSync(c, queue[..|queue| - 1]);
    }
  }

  lemma AskKeepsReplicated(w: World, ws: Ws)
    requires Replicated(w)
    ensures Replicated(Stepped(w, Ask(ws)))
  {
    hide Placed, Drained, Quiet;
    if ws in w.clients && w.clients[ws].phase.Connected? {
      var s := w.server;
      EveryoneHasAQueue(s);
      assert Follows(s, ws, w.clients[ws]);
      ConnectedStays(w.clients[ws], s.outbox[ws]);
      QuietSync(w.clients[ws].(phase := Syncing(0, [])), s.outbox[ws]);
    }
  }

  lemma {:induction false} QuietLive(c: Client, queue: seq<Message>)
    requires Quiet(queue) && c.phase.Live?
    ensures Drained(c, queue) == c
    decreases |queue|
  {
    if queue == [] {
    } else {
      assert queue[|queue| - 1] in queue;
      QuietLive(c, queue[..|queue| - 1]);
    }
  }

  lemma ListenKeepsReplicated(w: World, ws: Ws)
    requires Replicated(w)
    ensures Replicated(Stepped(w, Listen(ws)))
  {
    hide Placed, Drained, Quiet;
    if ws in w.clients && w.clients[ws].phase.Connected? {
      var s := w.server;
      EveryoneHasAQueue(s);
      assert Follows(s, ws, w.clients[ws]);
      ConnectedStays(w.clients[ws], s.outbox[ws]);
      QuietLive(w.clients[ws].(phase := Live), s.outbox[ws]);
    }
  }

  lemma ChatFollowed(s: Server, ws: Ws, c: Client)
    requires ws in s.conns && ws in s.outbox && Follows(s, ws, c)
    ensures Follows(s.(outbox := Send(s.outbox, ws, Chat)), ws, c)
  {
    hide Drained, Others;
    DrainOne(c, s.outbox[ws], Chat);
  }

  lemma NotifyKeepsReplicated(w: World, ws: Ws)
    requires Replicated(w)
    ensures Replicated(Stepped(w, Notify(ws)))
  {
    hide Placed, Follows;
    var s := w.server;
    var t := Stepped(w, Notify(ws)).server;
    EveryoneHasAQueue(s);
    NotifyKeepsPlaced(s, ws);
    forall v | v in w.clients ensures v in t.conns && v in t.outbox && Follows(t, v, w.clients[v]) {
      if v == ws {
        ChatFollowed(s, v, w.clients[v]);
      } else {
        UntouchedFollows(s, t, v, w.clients[v]);
      }
    }
  }

  lemma NotifyKeepsPlaced(s: Server, ws: Ws)
    requires Placed(s)
    ensures Placed(s.(outbox := Send(s.outbox, ws, Chat)))
  {
    var t := s.(outbox := Send(s.outbox, ws, Chat));
    forall v | v in t.conns ensures Known(t, v) {
      assert Known(s, v);
    }
    SameRooms(s, t);
  }

  lemma TakingKeepsPlaced(s: Server, ws: Ws, queue: seq<Message>)
    requires Placed(s) && ws in s.outbox
    ensures Placed(s.(outbox := s.outbox[ws := queue]))
  {
    var t := s.(outbox := s.outbox[ws := queue]);
    forall v | v in t.conns ensures Known(t, v) {
      assert Known(s, v);
    }
    SameRooms(s, t);
  }

  lemma DeliveryFollowed(s: Server, ws: Ws, c: Client)
    requires ws in s.conns && ws in s.outbox && s.outbox[ws] != [] && !c.phase.Connected? && Follows(s, ws, c)
    ensures Follows(s.(outbox := s.outbox[ws := s.outbox[ws][1..]]), ws, Received(c, s.outbox[ws][0]))
  {
    hide Drained, Others, Received;
    DrainFirst(c, s.outbox[ws]);
    ReceivedSettles(c, s.outbox[ws][0]);
  }

  lemma DeliverKeepsReplicated(w: World, ws: Ws)
    requires Replicated(w)
    ensures Replicated(Stepped(w, Deliver(ws)))
  {
    hide Placed, Follows, Quiet, Received;
    var s := w.server;
    EveryoneHasAQueue(s);
    if ws in w.clients && ws in s.outbox && s.outbox[ws] != [] && !w.clients[ws].phase.Connected? {
      var u := Stepped(w, Deliver(ws));
      TakingKeepsPlaced(s, ws, s.outbox[ws][1..]);
      forall v | v in w.clients ensures v in u.server.conns && v in u.server.outbox && Follows(u.server, v, u.clients[v]) {
        if v == ws {
          DeliveryFollowed(s, ws, w.clients[ws]);
        } else {
          UntouchedFollows(s, u.server, v, w.clients[v]);
        }
      }
    }
  }

  lemma ReceivedSettles(c: Client, m: Message)
    requires !c.phase.Connected?
    ensures !Received(c, m).phase.Connected?
    ensures Received(c, m).phase.Syncing? ==> Received(c, m).phase.seen < MAX_SYNC_MESSAGES
  {
  }

  // ---- runs ----

  function WorldAfter(w: World, steps: seq<Step>): World
    decreases |steps|
  {
    if steps == [] then w else WorldAfter(Stepped(w, steps[0]), steps[1..])
  }

  ghost predicate AllCooperative(w: World, steps: seq<Step>)
    decreases |steps|
  {
    steps == [] || (Cooperative(w, steps[0]) && AllCooperative(Stepped(w, steps[0]), steps[1..]))
  }

  lemma {:induction false} RunKeepsReplicated(w: World, steps: seq<Step>)
    requires Replicated(w) && AllCooperative(w, steps)
    ensures Replicated(WorldAfter(w, steps))
    decreases |steps|
  {
    hide Replicated, Stepped, Cooperative;
    if steps == [] {
    } else {
      match steps[0] {
        case Serve(e) => EventKeepsReplicated(w, e);
        case Ask(ws) => AskKeepsReplicated(w, ws);
        case Listen(ws) => ListenKeepsReplicated(w, ws);
        case Notify(ws) => NotifyKeepsReplicated(w, ws);
        case Deliver(ws) => DeliverKeepsReplicated(w, ws);
      }
      RunKeepsReplicated(Stepped(w, steps[0]), steps[1..]);
    }
  }

  /** In every reachable state, a client whose connection the server seats in a room and that reads its
      queue to the end holds exactly the other members of that room, in the room's order, unless its
      initial sync gave up.  One that is already live can no longer give up. */
  lemma {:induction false} ReplicaIsRoom(steps: seq<Step>, ws: Ws)
    requires AllCooperative(NEW_WORLD, steps)
    ensures var w := WorldAfter(NEW_WORLD, steps);
      ws in w.clients ==> (
        && ws in w.server.conns && ws in w.server.outbox
        && var sess, view := w.server.conns[ws], Drained(w.clients[ws], w.server.outbox[ws]);
        && (w.clients[ws].phase.Live? ==> view.phase.Live?)
        && (sess.room != "" ==>
              view.phase.Failed? || (view.phase.Live? && view.peers == Others(RoomOf(w.server.rooms, sess.room), sess.sessionId))))
  {
    hide Stepped, Drained, Others;
    NewWorldIsReplicated();
    RunKeepsReplicated(NEW_WORLD, steps);
    var w := WorldAfter(NEW_WORLD, steps);
    if ws in w.clients {
      assert Follows(w.server, ws, w.clients[ws]);
      if w.clients[ws].phase.Live? {
        LiveListens(w.clients[ws], w.server.outbox[ws]);
      }
    }
  }

  const NEW_WORLD := World(NEW_SERVER, map[])

  lemma NewWorldIsReplicated()
    ensures Replicated(NEW_WORLD)
  {
  }

  lemma LeftConn(s: Server, ws: Ws, v: Ws)
    requires ws in s.conns && v in s.conns && s.conns[ws].room != ""
    ensures var t := LeftRoom(s, ws, s.conns[ws].room);
      v in t.conns && t.conns[v] == if v == ws then s.conns[v].(room := "") else s.conns[v]
  {
    hide Broadcast, RemovedFrom;
  }
}
