/** Server, message queues and clients run together: whatever the order of events, a joined client that
    reads what is queued for it ends with the other members of its room as the server lists them. */
module RoomReplication {
  import opened Words
  import opened VoiceRooms
  import opened VoiceRoomInvariant
  import opened SignalingClient
  import opened ReplicatedRooms

  datatype World = World(server: Server, clients: map<Ws, Client>)

  /** The server handles an event; a client sends its join request and starts its initial sync, or starts
      its reader without one; the server sends a client something unrelated; a client reads one message. */
  datatype Step = Serve(event: Event) | Ask(ws: Ws) | Listen(ws: Ws) | Notify(ws: Ws) | Deliver(ws: Ws)

  function ClientsAfter(w: World, e: Event): map<Ws, Client>
  {
    match e
    case Hello(ws, user, _) => if ws in w.server.conns then w.clients[ws := Client(user, Connected, [])] else w.clients
    case Close(ws) => w.clients - {ws}
    case _ => w.clients
  }

  function Stepped(w: World, step: Step): World
  {
    match step
    case Serve(e) => World(Handled(w.server, e), ClientsAfter(w, e))
    case Ask(ws) =>
      if ws in w.clients && w.clients[ws].phase.Connected?
      then w.(clients := w.clients[ws := w.clients[ws].(phase := Syncing(0, []))])
      else w
    case Listen(ws) =>
      if ws in w.clients && w.clients[ws].phase.Connected?
      then w.(clients := w.clients[ws := w.clients[ws].(phase := Live)])
      else w
    case Notify(ws) => w.(server := w.server.(outbox := Send(w.server.outbox, ws, Chat)))
    case Deliver(ws) =>
      if ws in w.clients && ws in w.server.outbox && w.server.outbox[ws] != [] && !w.clients[ws].phase.Connected?
      then
        var queue := w.server.outbox[ws];
        World(w.server.(outbox := w.server.outbox[ws := queue[1..]]),
              w.clients[ws := Received(w.clients[ws], queue[0])])
      else w
  }

  /** One live session per user, one voice room per connection (rejoining it is allowed), and the join
      request is sent before the server handles it. */
  ghost predicate Cooperative(w: World, step: Step)
  {
    step.Serve? ==> (
      && Behaved(w.server, step.event)
      && match step.event
         case Open(_) => true
         case Hello(_, user, _) => forall v :: v in w.server.conns && w.server.conns[v].authenticated ==> w.server.conns[v].userId != user
         case Join(ws, channel) =>
           ws in w.server.conns && ws in w.clients ==>
             !w.clients[ws].phase.Connected? && (w.server.conns[ws].room == "" || w.server.conns[ws].room == channel)
         case Leave(_, _) => false
         case Close(_) => true)
  }

  // ---- the invariant ----

  ghost predicate InStep(s: Server, ws: Ws, view: Client)
    requires ws in s.conns
  {
    var sess := s.conns[ws];
    && view.userId == sess.userId
    && if sess.room == ""
       then view.peers == [] && (view.phase.Syncing? ==> view.phase.others == [])
       else view.phase.Failed? || (view.phase.Live? && view.peers == Others(RoomOf(s.rooms, sess.room), sess.sessionId))
  }

  ghost predicate Quiet(queue: seq<Message>)
  {
    forall m :: m in queue ==> m.Chat? || m.Error?
  }

  /** A client in no room has nothing about rooms in its queue, and a sync stops at 32 messages. */
  ghost predicate Waiting(s: Server, ws: Ws, c: Client)
    requires ws in s.conns && ws in s.outbox
  {
    && (c.phase.Connected? ==> s.conns[ws].room == "")
    && (s.conns[ws].room == "" ==> Quiet(s.outbox[ws]))
    && (c.phase.Syncing? ==> c.phase.seen < MAX_SYNC_MESSAGES)
  }

  ghost predicate Follows(s: Server, ws: Ws, c: Client)
    requires ws in s.conns && ws in s.outbox
  {
    InStep(s, ws, Drained(c, s.outbox[ws])) && Waiting(s, ws, c)
  }

  ghost predicate OneSessionPerUser(s: Server)
  {
    forall a, b | a in s.conns && b in s.conns && s.conns[a].authenticated && s.conns[b].authenticated ::
      s.conns[a].userId == s.conns[b].userId ==> a == b
  }

  /** Connections without a client are still waiting for their Hello and have heard no room news. */
  ghost predicate ClientsMatch(w: World)
  {
    && (forall ws :: ws in w.clients <==> ws in w.server.conns && w.server.conns[ws].authenticated)
    && (forall ws :: ws in w.server.conns && ws in w.server.outbox && !w.server.conns[ws].authenticated ==> Quiet(w.server.outbox[ws]))
  }

  ghost predicate Replicated(w: World)
  {
    && Placed(w.server) && OneSessionPerUser(w.server) && ClientsMatch(w)
    && forall ws :: ws in w.clients ==> Follows(w.server, ws, w.clients[ws])
  }

  // ---- facts about a placed server ----

  lemma EveryoneHasAQueue(s: Server)
    requires Placed(s)
    ensures s.outbox.Keys == s.conns.Keys
  {
  }

  lemma RegistryIsOneToOne(s: Server)
    requires Registered(s)
    ensures OneSessionPerWs(s.registry)
  {
  }

  /** In any room, a user is listed through one session only. */
  lemma RoomUsers(s: Server, ws: Ws, channel: string)
    requires Placed(s) && OneSessionPerUser(s) && ws in s.conns && s.conns[ws].authenticated && channel in s.rooms
    ensures UserIsSession(s.rooms[channel], s.conns[ws].userId, s.conns[ws].sessionId)
  {
    assert Known(s, ws);
    forall p | p in s.rooms[channel]
      ensures p.userId == s.conns[ws].userId <==> p.sessionId == s.conns[ws].sessionId
    {
      assert RoomSound(s, channel, s.rooms[channel]) && SitsIn(s, p, channel);
    }
  }

  lemma RoomUsersDistinct(s: Server, channel: string)
    requires Placed(s) && OneSessionPerUser(s) && channel in s.rooms
    ensures DistinctUsers(s.rooms[channel]) && OncePerSession(s.rooms[channel])
  {
    var room := s.rooms[channel];
    assert RoomSound(s, channel, room);
    forall i, j | 0 <= i < j < |room| ensures room[i].userId != room[j].userId {
      assert SitsIn(s, room[i], channel) && SitsIn(s, room[j], channel);
      assert room[i].sessionId != room[j].sessionId;
    }
  }

  /** A broadcast to a room reaches exactly the connections whose current room it is. */
  lemma RoomIsReached(s: Server, channel: string, ws: Ws)
    requires Placed(s) && channel in s.rooms && ws in s.conns
    ensures Reached(s.registry, s.rooms[channel], ws) <==> s.conns[ws].room == channel
  {
    var room := s.rooms[channel];
    assert RoomSound(s, channel, room);
    assert Known(s, ws);
    if Reached(s.registry, room, ws) {
      var p :| p in room && p.sessionId in s.registry && s.registry[p.sessionId] == ws;
      assert SitsIn(s, p, channel);
    }
    if s.conns[ws].room == channel {
      assert HasSession(room, s.conns[ws].sessionId);
    }
  }

  // ---- leaving ----

  lemma LeaveIsHeard(s: Server, ws: Ws, v: Ws)
    requires Placed(s) && ws in s.conns && s.conns[ws].room != "" && v in s.conns
    ensures var channel := s.conns[ws].room;
      var t := LeftRoom(s, ws, channel);
      && t.outbox.Keys == s.outbox.Keys && v in s.outbox
      && t.outbox[v] == s.outbox[v] + (if v != ws && s.conns[v].room == channel then [PeerLeft(channel, s.conns[ws].userId)] else [])
  {
    hide Broadcast, Without, Reached;
    var channel, sid := s.conns[ws].room, s.conns[ws].sessionId;
    var t := LeftRoom(s, ws, channel);
    var room := s.rooms[channel];
    assert RoomSound(s, channel, room);
    assert Known(s, ws);
    WithoutMembers(room, sid);
    RegistryIsOneToOne(s);
    BroadcastReaches(s.outbox, s.registry, RoomOf(t.rooms, channel), PeerLeft(channel, s.conns[ws].userId), v);
    RemainingReached(s, channel, ws, v);
  }

  lemma RemainingReached(s: Server, channel: string, ws: Ws, v: Ws)
    requires Placed(s) && ws in s.conns && s.conns[ws].room == channel && channel != "" && v in s.conns
    ensures Reached(s.registry, RoomOf(RemovedFrom(s.rooms, channel, s.conns[ws].sessionId), channel), v)
       <==> v != ws && s.conns[v].room == channel
  {
    hide Without;
    var sid := s.conns[ws].sessionId;
    var room := s.rooms[channel];
    WithoutMembers(room, sid);
    RoomIsReached(s, channel, v);
    assert Known(s, ws) && Known(s, v);
    if v != ws && s.conns[v].room == channel {
      var p :| p in room && p.sessionId in s.registry && s.registry[p.sessionId] == v;
      assert p in Without(room, sid);
    }
  }

  lemma LeaveIsFollowed(s: Server, ws: Ws, v: Ws, c: Client)
    requires Placed(s) && OneSessionPerUser(s)
    requires ws in s.conns && s.conns[ws].room != "" && v in s.conns && v != ws && s.conns[v].authenticated
    requires v in s.outbox && Follows(s, v, c)
    ensures var t := LeftRoom(s, ws, s.conns[ws].room); v in t.conns && v in t.outbox && Follows(t, v, c)
  {
    hide Broadcast, Without, Others, Erased, Drained;
    var channel, sid, user := s.conns[ws].room, s.conns[ws].sessionId, s.conns[ws].userId;
    var t := LeftRoom(s, ws, channel);
    LeaveIsHeard(s, ws, v);
    assert Known(s, ws);
    if s.conns[v].room == channel {
      DrainOne(c, s.outbox[v], PeerLeft(channel, user));
      RoomUsers(s, ws, channel);
      ErasingFollowsLeaving(s.rooms[channel], s.conns[v].sessionId, user, sid);
    } else {
      NothingAdded(s.outbox[v]);
    }
  }

  // ---- entering ----

  lemma EnterIsHeard(s: Server, ws: Ws, channel: string, v: Ws)
    requires Placed(s) && ws in s.conns && s.conns[ws].room == "" && channel != "" && v in s.conns
    ensures var t := EnteredRoom(s, ws, channel);
      var own := PeerJoined(channel, s.conns[ws].userId, s.nextSsrc);
      && t.outbox.Keys == s.outbox.Keys && v in s.outbox
      && t.outbox[v] == s.outbox[v] + (if v == ws then [own] + Announcements(channel, RoomOf(s.rooms, channel))
                                       else if s.conns[v].room == channel then [own] else [])
  {
    hide Broadcast, SendAll, Reached, Announcements;
    var existing := RoomOf(s.rooms, channel);
    var own := PeerJoined(channel, s.conns[ws].userId, s.nextSsrc);
    var first := Send(s.outbox, ws, own);
    var second := SendAll(first, ws, Announcements(channel, existing));
    SendAllReaches(first, ws, Announcements(channel, existing), v);
    RegistryIsOneToOne(s);
    ExistingReached(s, channel, v);
    BroadcastReaches(second, s.registry, existing, own, v);
    Assoc(s.outbox[v], [own], Announcements(channel, existing));
    NothingAdded(second[v]);
    NothingAdded(s.outbox[v]);
  }

  /** The joiner hears of itself first and then of each member, in the order of the room, by user and stream. */
  lemma JoinerHearsRoom(s: Server, ws: Ws, channel: string)
    requires Placed(s) && ws in s.conns && s.conns[ws].authenticated && s.conns[ws].room == "" && channel != ""
    ensures ws in s.outbox && ws in Joined(s, ws, channel).outbox
    ensures var (before, after, room) := (s.outbox[ws], Joined(s, ws, channel).outbox[ws], RoomOf(s.rooms, channel));
      && before <= after && |after| == |before| + 1 + |room|
      && after[|before|] == PeerJoined(channel, s.conns[ws].userId, s.nextSsrc)
      && forall i :: 0 <= i < |room| ==> after[|before| + 1 + i] == PeerJoined(channel, room[i].userId, room[i].ssrc)
  {
    hide Placed, EnteredRoom;
    EnterIsHeard(s, ws, channel, ws);
  }

  /** A join without a Hello is answered with error 401 and changes nothing else. */
  lemma JoinIsRefused(s: Server, ws: Ws, channel: string)
    requires ws in s.conns && ws in s.outbox && !s.conns[ws].authenticated
    ensures Joined(s, ws, channel) == s.(outbox := s.outbox[ws := s.outbox[ws] + [Error(401)]])
  {
  }

  lemma ExistingReached(s: Server, channel: string, v: Ws)
    requires Placed(s) && channel != "" && v in s.conns
    ensures Reached(s.registry, RoomOf(s.rooms, channel), v) <==> s.conns[v].room == channel
    ensures OncePerSession(RoomOf(s.rooms, channel))
  {
    if channel in s.rooms {
      RoomIsReached(s, channel, v);
      assert RoomSound(s, channel, s.rooms[channel]);
    }
  }

  lemma EnterIsFollowed(s: Server, ws: Ws, channel: string, v: Ws, c: Client)
    requires Placed(s) && OneSessionPerUser(s) && channel != ""
    requires ws in s.conns && s.conns[ws].authenticated && s.conns[ws].room == ""
    requires v in s.conns && v != ws && s.conns[v].authenticated
    requires v in s.outbox && Follows(s, v, c)
    ensures var t := EnteredRoom(s, ws, channel); v in t.conns && v in t.outbox && Follows(t, v, c)
  {
    hide Broadcast, SendAll, Others, Erased, Drained, Announcements;
    var t := EnteredRoom(s, ws, channel);
    var own := Peer(s.conns[ws].userId, s.conns[ws].sessionId, s.nextSsrc);
    EnterIsHeard(s, ws, channel, v);
    assert Known(s, v) && Known(s, ws);
    if s.conns[v].room == channel {
      DrainOne(c, s.outbox[v], PeerJoined(channel, own.userId, own.ssrc));
      NewcomerUnlisted(s, ws, channel, s.conns[v].sessionId);
      JoiningFollowsEntering(s.rooms[channel], s.conns[v].sessionId, own);
    } else {
      NothingAdded(s.outbox[v]);
    }
  }

  lemma NewcomerUnlisted(s: Server, ws: Ws, channel: string, sid: string)
    requires Placed(s) && OneSessionPerUser(s) && ws in s.conns && s.conns[ws].authenticated
    requires s.conns[ws].room != channel && channel in s.rooms
    ensures !Lists(s.rooms[channel], s.conns[ws].userId)
    ensures !HasUser(Others(s.rooms[channel], sid), s.conns[ws].userId)
    ensures forall p :: p in s.rooms[channel] ==> p.sessionId != s.conns[ws].sessionId
  {
    hide Others;
    RoomUsers(s, ws, channel);
    RoomIsReached(s, channel, ws);
    assert Known(s, ws);
    assert forall p :: p in s.rooms[channel] ==> p.sessionId != s.conns[ws].sessionId;
    OthersUsers(s.rooms[channel], sid);
  }

  /** The joiner itself: its own entry, then the replay. */
  lemma OwnEntryIsFollowed(s: Server, ws: Ws, channel: string, c: Client)
    requires Placed(s) && OneSessionPerUser(s) && channel != "" && !c.phase.Connected?
    requires ws in s.conns && s.conns[ws].authenticated && s.conns[ws].room == "" && ws in s.outbox
    requires c.phase.Syncing? ==> c.phase.seen < MAX_SYNC_MESSAGES
    requires var view := Drained(c, s.outbox[ws]);
      && view.userId == s.conns[ws].userId
      && (view.phase.Failed? || (view.phase.Syncing? && view.phase.others == [])
          || (view.phase.Live? && forall i :: i in view.peers ==> Lists(RoomOf(s.rooms, channel), i.userId)))
    ensures var t := EnteredRoom(s, ws, channel); ws in t.conns && ws in t.outbox && Follows(t, ws, c)
  {
    hide Broadcast, SendAll, Drained, Others, Infos, Placed, OneSessionPerUser, Lists;
    var existing := RoomOf(s.rooms, channel);
    var own := PeerJoined(channel, s.conns[ws].userId, s.nextSsrc);
    EnterIsHeard(s, ws, channel, ws);
    var view := Drained(c, s.outbox[ws]);
    DrainAppend(c, s.outbox[ws], [own] + Announcements(channel, existing));
    DrainAppend(view, [own], Announcements(channel, existing));
    DrainOwn(view, own);
    JoinerSees(s, ws, channel);
    if view.phase.Failed? {
      FailedStays(view, Announcements(channel, existing));
    } else {
      var live := Received(view, own);
      ReplayYields(live, channel, existing);
      ReplayCoversIff(live, channel, existing);
    }
  }

  lemma DrainOwn(c: Client, m: Message)
    ensures Drained(c, [m]) == Received(c, m)
  {
    DrainOne(c, [], m);
    assert [] + [m] == [m];
  }

  lemma {:induction false} FailedStays(c: Client, queue: seq<Message>)
    requires c.phase.Failed?
    ensures Drained(c, queue) == c
    decreases |queue|
  {
    if queue == [] {
    } else {
      FailedStays(c, queue[..|queue| - 1]);
    }
  }

  lemma JoinerSees(s: Server, ws: Ws, channel: string)
    requires Placed(s) && OneSessionPerUser(s) && channel != ""
    requires ws in s.conns && s.conns[ws].authenticated && s.conns[ws].room == ""
    ensures var existing := RoomOf(s.rooms, channel);
      var own := Peer(s.conns[ws].userId, s.conns[ws].sessionId, s.nextSsrc);
      && DistinctUsers(existing) && !Lists(existing, s.conns[ws].userId)
      && Others(existing + [own], s.conns[ws].sessionId) == Infos(existing)
  {
    hide Others, Infos;
    var existing, sid := RoomOf(s.rooms, channel), s.conns[ws].sessionId;
    if channel in s.rooms {
      RoomUsersDistinct(s, channel);
      NewcomerUnlisted(s, ws, channel, sid);
    }
    OthersSnoc(existing, Peer(s.conns[ws].userId, sid, s.nextSsrc), sid);
    OthersOfStranger(existing, sid);
    NothingAdded(Others(existing, sid));
  }

  /** Rejoining: the list already held is exactly the room without the joiner. */
  lemma RejoinerKnows(s: Server, ws: Ws, c: Client)
    requires Placed(s) && ws in s.conns && s.conns[ws].room != "" && ws in s.outbox
    requires !c.phase.Connected? && Follows(s, ws, c)
    ensures var channel := s.conns[ws].room; var t := LeftRoom(s, ws, channel);
      && t.outbox.Keys == s.outbox.Keys && t.outbox[ws] == s.outbox[ws]
      && var view := Drained(c, s.outbox[ws]);
      && view.userId == s.conns[ws].userId
      && (view.phase.Failed? || (view.phase.Live? && forall i :: i in view.peers ==> Lists(RoomOf(t.rooms, channel), i.userId)))
  {
    hide Broadcast, Drained, Others, Infos, Without, Lists;
    var channel, sid := s.conns[ws].room, s.conns[ws].sessionId;
    LeaveIsHeard(s, ws, ws);
    NothingAdded(s.outbox[ws]);
    OthersWithout(s.rooms[channel], sid);
    InfosMembers(Without(s.rooms[channel], sid));
  }

  // ---- one step ----

  lemma LeftKeepsUsers(s: Server, ws: Ws, channel: string)
    requires ws in s.conns && OneSessionPerUser(s)
    ensures OneSessionPerUser(LeftRoom(s, ws, channel))
  {
    hide Broadcast, RemovedFrom;
  }

  lemma JoinIsFollowed(s: Server, ws: Ws, channel: string, v: Ws, c: Client)
    requires Placed(s) && OneSessionPerUser(s) && channel != ""
    requires ws in s.conns && s.conns[ws].authenticated && (s.conns[ws].room == "" || s.conns[ws].room == channel)
    requires v in s.conns && v in s.outbox && s.conns[v].authenticated && Follows(s, v, c) && (v == ws ==> !c.phase.Connected?)
    ensures var t := Joined(s, ws, channel); v in t.conns && v in t.outbox && Follows(t, v, c)
  {
    hide Broadcast, SendAll, Placed, OneSessionPerUser, EnteredRoom, RemovedFrom, Drained, Others, RoomOf;
    if s.conns[ws].room == "" {
      if v == ws {
        SettledView(c, s.outbox[ws]);
        OwnEntryIsFollowed(s, ws, channel, c);
      } else {
        EnterIsFollowed(s, ws, channel, v, c);
      }
    } else {
      var mid := LeftRoom(s, ws, channel);
      LeavingKeepsPlaced(s, ws);
      LeftKeepsUsers(s, ws, channel);
      if v == ws {
        RejoinerKnows(s, ws, c);
        OwnEntryIsFollowed(mid, ws, channel, c);
      } else {
        LeaveIsFollowed(s, ws, v, c);
        EnterIsFollowed(mid, ws, channel, v, c);
      }
    }
  }

  lemma {:induction false} SettledView(c: Client, queue: seq<Message>)
    requires !c.phase.Connected?
    ensures !Drained(c, queue).phase.Connected?
    decreases |queue|
  {
    if queue == [] {
    } else {
      SettledView(c, queue[..|queue| - 1]);
    }
  }

  /** The same connections, with the same users. */
  ghost predicate SameIdentities(s: Server, t: Server)
  {
    && s.conns.Keys == t.conns.Keys
    && forall v :: v in s.conns ==> s.conns[v].authenticated == t.conns[v].authenticated && s.conns[v].userId == t.conns[v].userId
  }

  lemma LeaveIdentities(s: Server, ws: Ws, channel: string)
    requires ws in s.conns
    ensures SameIdentities(s, LeftRoom(s, ws, channel))
  {
    hide Broadcast, RemovedFrom;
  }

  lemma JoinIdentities(s: Server, ws: Ws, channel: string)
    requires ws in s.conns
    ensures SameIdentities(s, Joined(s, ws, channel))
  {
    hide Broadcast, RemovedFrom, SendAll, LeftRoom;
    LeaveIdentities(s, ws, s.conns[ws].room);
  }

  /** A join says nothing to anyone outside the room. */
  lemma JoinIsPrivate(s: Server, ws: Ws, channel: string, v: Ws)
    requires Placed(s) && channel != "" && ws in s.conns && s.conns[ws].authenticated
    requires v in s.conns && !s.conns[v].authenticated
    ensures var t := Joined(s, ws, channel); v in s.outbox && v in t.outbox && t.outbox[v] == s.outbox[v]
  {
    hide Broadcast, RemovedFrom, SendAll, Announcements;
    assert Known(s, v);
    NothingAdded(s.outbox[v]);
    if s.conns[ws].room == "" {
      EnterIsHeard(s, ws, channel, v);
    } else {
      var mid := LeftRoom(s, ws, s.conns[ws].room);
      LeavingKeepsPlaced(s, ws);
      LeaveIsHeard(s, ws, v);
      EnterIsHeard(mid, ws, channel, v);
    }
  }

  lemma RefusalKeepsReplicated(w: World, ws: Ws, channel: string)
    requires Replicated(w) && ws in w.server.conns && !w.server.conns[ws].authenticated
    ensures Replicated(w.(server := Joined(w.server, ws, channel)))
  {
    hide Placed, Drained;
    RefusedJoin(w.server, ws, channel);
    RefusedJoinKeepsPlaced(w.server, ws);
  }

  lemma JoinKeepsReplicated(w: World, ws: Ws, channel: string)
    requires Replicated(w) && ws in w.server.conns && w.server.conns[ws].authenticated && channel != ""
    requires Cooperative(w, Serve(Join(ws, channel)))
    ensures Replicated(w.(server := Joined(w.server, ws, channel)))
  {
    hide Placed, Joined, Quiet, Follows;
    var t := Joined(w.server, ws, channel);
    EveryoneHasAQueue(w.server);
    JoiningKeepsPlaced(w.server, ws, channel);
    JoinIdentities(w.server, ws, channel);
    forall v | v in w.clients ensures v in t.conns && v in t.outbox && Follows(t, v, w.clients[v]) {
      JoinIsFollowed(w.server, ws, channel, v, w.clients[v]);
    }
    forall v | v in t.conns && v in t.outbox && !t.conns[v].authenticated ensures Quiet(t.outbox[v]) {
      JoinIsPrivate(w.server, ws, channel, v);
    }
  }

  lemma CloseIsFollowed(s: Server, ws: Ws, v: Ws, c: Client)
    requires Placed(s) && OneSessionPerUser(s)
    requires ws in s.conns && v in s.conns && v != ws && s.conns[v].authenticated && v in s.outbox && Follows(s, v, c)
    ensures var t := Closed(s, ws); v in t.conns && v in t.outbox && Follows(t, v, c)
  {
    hide Broadcast, RemovedFrom, LeftRoom, Drained, Others;
    if s.conns[ws].room != "" {
      LeaveIsFollowed(s, ws, v, c);
    }
  }

  lemma CloseIsPrivate(s: Server, ws: Ws, v: Ws)
    requires Placed(s) && ws in s.conns && v in s.conns && v != ws && !s.conns[v].authenticated
    ensures var t := Closed(s, ws); v in t.outbox && v in s.outbox && t.outbox[v] == s.outbox[v]
  {
    hide LeftRoom;
    assert Known(s, v);
    NothingAdded(s.outbox[v]);
    if s.conns[ws].room != "" {
      LeaveIsHeard(s, ws, v);
    }
  }

  lemma CloseIdentities(s: Server, ws: Ws)
    requires ws in s.conns
    ensures Closed(s, ws).conns.Keys == s.conns.Keys - {ws}
    ensures forall v :: (v in s.conns && v != ws ==>
      var t := Closed(s, ws); s.conns[v].authenticated == t.conns[v].authenticated && s.conns[v].userId == t.conns[v].userId)
  {
    hide LeftRoom;
    LeaveIdentities(s, ws, s.conns[ws].room);
  }

  lemma CloseKeepsReplicated(w: World, ws: Ws)
    requires Replicated(w) && ws in w.server.conns
    ensures Replicated(World(Closed(w.server, ws), w.clients - {ws}))
  {
    hide Placed, Closed, Quiet, Follows;
    var t := Closed(w.server, ws);
    EveryoneHasAQueue(w.server);
    ClosingKeepsPlaced(w.server, ws);
    CloseIdentities(w.server, ws);
    forall v | v in w.clients && v != ws ensures v in t.conns && v in t.outbox && Follows(t, v, w.clients[v]) {
      CloseIsFollowed(w.server, ws, v, w.clients[v]);
    }
    forall v | v in t.conns && v in t.outbox && !t.conns[v].authenticated ensures Quiet(t.outbox[v]) {
      CloseIsPrivate(w.server, ws, v);
    }
  }

  lemma OpenKeepsReplicated(w: World, ws: Ws)
    requires Replicated(w) && ws !in w.server.conns
    ensures Replicated(w.(server := Opened(w.server, ws)))
  {
    hide Placed, Drained;
    OpeningKeepsPlaced(w.server, ws);
  }

  lemma HelloKeepsReplicated(w: World, ws: Ws, user: string, sid: string)
    requires Replicated(w) && ws in w.server.conns && Cooperative(w, Serve(Hello(ws, user, sid)))
    ensures Replicated(Stepped(w, Serve(Hello(ws, user, sid))))
  {
    hide Placed, Follows, Quiet, OneSessionPerUser, ClientsMatch, Behaved;
    var s, t := w.server, Greeted(w.server, ws, user, sid);
    EveryoneHasAQueue(s);
    NewUser(w, ws, user, sid);
    GreetingKeepsPlaced(s, ws, user, sid);
    NewClientFollows(s, ws, user, sid);
    forall v | v in w.clients && v != ws ensures v in t.conns && v in t.outbox && Follows(t, v, w.clients[v]) {
      UntouchedFollows(s, t, v, w.clients[v]);
    }
  }

  lemma NewUser(w: World, ws: Ws, user: string, sid: string)
    requires ClientsMatch(w) && OneSessionPerUser(w.server) && ws in w.server.conns && ws in w.server.outbox
    requires Cooperative(w, Serve(Hello(ws, user, sid)))
    ensures Behaved(w.server, Hello(ws, user, sid)) && !w.server.conns[ws].authenticated && sid != "" && sid !in w.server.registry
    ensures Quiet(w.server.outbox[ws])
    ensures OneSessionPerUser(Greeted(w.server, ws, user, sid))
    ensures ClientsMatch(Stepped(w, Serve(Hello(ws, user, sid))))
    ensures forall v :: v in w.clients ==> v in w.server.conns
  {
    hide Quiet;
  }

  lemma UntouchedFollows(s: Server, t: Server, ws: Ws, c: Client)
    requires ws in s.conns && ws in s.outbox && Follows(s, ws, c)
    requires ws in t.conns && t.conns[ws] == s.conns[ws] && t.rooms == s.rooms
    requires ws in t.outbox && t.outbox[ws] == s.outbox[ws]
    ensures Follows(t, ws, c)
  {
  }

  lemma NewClientFollows(s: Server, ws: Ws, user: string, sid: string)
    requires Placed(s) && ws in s.conns && !s.conns[ws].authenticated && ws in s.outbox && Quiet(s.outbox[ws])
    ensures Follows(Greeted(s, ws, user, sid), ws, Client(user, Connected, []))
  {
    assert Known(s, ws);
    ConnectedStays(Client(user, Connected, []), s.outbox[ws]);
  }

  lemma {:induction false} ConnectedStays(c: Client, queue: seq<Message>)
    requires c.phase.Connected?
    ensures Drained(c, queue) == c
    decreases |queue|
  {
    if queue == [] {
    } else {
      ConnectedStays(c, queue[..|queue| - 1]);
    }
  }

  lemma EventKeepsReplicated(w: World, e: Event)
    requires Replicated(w) && Cooperative(w, Serve(e))
    ensures Replicated(Stepped(w, Serve(e)))
  {
    hide Replicated, Opened, Greeted, Joined, Closed;
    match e
    case Open(ws) => OpenKeepsReplicated(w, ws);
    case Hello(ws, user, sid) =>
      if ws in w.server.conns {
        HelloKeepsReplicated(w, ws, user, sid);
      }
    case Join(ws, channel) =>
      if ws in w.server.conns {
        if w.server.conns[ws].authenticated {
          JoinKeepsReplicated(w, ws, channel);
        } else {
          RefusalKeepsReplicated(w, ws, channel);
        }
      }
    case Close(ws) =>
      if ws in w.server.conns {
        CloseKeepsReplicated(w, ws);
      } else {
        UnknownClient(w, ws);
      }
  }

  lemma UnknownClient(w: World, ws: Ws)
    requires Replicated(w) && ws !in w.server.conns
    ensures w.clients - {ws} == w.clients
  {
  }
}
