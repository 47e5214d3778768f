/** What every run of the voice-room server keeps, and which requests would break it. */
module VoiceRoomInvariant {
  import opened Words
  import opened VoiceRooms

  // ---- the invariant ----

  ghost predicate Registered(s: Server)
  {
    && (forall sid :: sid in s.registry ==>
          s.registry[sid] in s.conns && s.conns[s.registry[sid]].authenticated && s.conns[s.registry[sid]].sessionId == sid)
    && (forall ws :: ws in s.conns ==> Known(s, ws))
    && s.outbox.Keys == s.conns.Keys
  }

  ghost predicate Known(s: Server, ws: Ws)
    requires ws in s.conns
  {
    var sess := s.conns[ws];
    if sess.authenticated then sess.sessionId != "" && sess.sessionId in s.registry && s.registry[sess.sessionId] == ws
    else sess.sessionId == "" && sess.room == ""
  }

  /** A list entry belongs to a live session whose current room is that list's room. */
  ghost predicate SitsIn(s: Server, p: Peer, channel: string)
  {
    && p.sessionId in s.registry && s.registry[p.sessionId] in s.conns
    && s.conns[s.registry[p.sessionId]].room == channel
    && s.conns[s.registry[p.sessionId]].userId == p.userId
  }

  ghost predicate OncePerSession(room: seq<Peer>)
  {
    forall i, j :: 0 <= i < j < |room| ==> room[i].sessionId != room[j].sessionId
  }

  ghost predicate HasSession(room: seq<Peer>, sid: string)
  {
    exists p :: p in room && p.sessionId == sid
  }

  ghost predicate RoomSound(s: Server, channel: string, room: seq<Peer>)
  {
    && channel != "" && room != [] && OncePerSession(room)
    && forall p :: p in room ==> SitsIn(s, p, channel)
  }

  ghost predicate Seated(s: Server)
  {
    && (forall c :: c in s.rooms ==> RoomSound(s, c, s.rooms[c]))
    && (forall ws :: ws in s.conns && s.conns[ws].room != "" ==>
          s.conns[ws].room in s.rooms && HasSession(s.rooms[s.conns[ws].room], s.conns[ws].sessionId))
  }

  function SsrcOf(join: nat): U32 { Low32(1 + join) }

  ghost predicate Issued(ssrc: U32, joins: nat)
  {
    exists k :: 0 <= k < joins && ssrc == SsrcOf(k)
  }

  /** Every stream identifier in use was issued by an earlier join, and no two sessions share one. */
  ghost predicate StreamsDistinct(s: Server, joins: nat)
  {
    && s.nextSsrc == SsrcOf(joins)
    && (forall c, p :: c in s.rooms && p in s.rooms[c] ==> Issued(p.ssrc, joins))
    && (forall c, d, p, q :: c in s.rooms && d in s.rooms && p in s.rooms[c] && q in s.rooms[d] && p.ssrc == q.ssrc ==>
          p.sessionId == q.sessionId)
  }

  ghost predicate Placed(s: Server) { Registered(s) && Seated(s) }

  ghost predicate Sound(s: Server, joins: nat) { Placed(s) && StreamsDistinct(s, joins) }

  // ---- room lists ----

  lemma {:induction false} WithoutMembers(room: seq<Peer>, sid: string)
    ensures forall p :: p in Without(room, sid) <==> p in room && p.sessionId != sid
    ensures OncePerSession(room) ==> OncePerSession(Without(room, sid))
    decreases |room|
  {
    if room == [] {
    } else {
      var front, last := room[..|room| - 1], room[|room| - 1];
      assert room == front + [last];
      WithoutMembers(front, sid);
      if OncePerSession(room) && last.sessionId != sid {
        var kept := Without(front, sid);
        forall i | 0 <= i < |kept| ensures kept[i].sessionId != last.sessionId {
          assert kept[i] in kept;
          var j :| 0 <= j < |front| && front[j] == kept[i];
        }
      }
    }
  }

  lemma {:induction false} WithoutStranger(room: seq<Peer>, sid: string)
    requires forall p :: p in room ==> p.sessionId != sid
    ensures Without(room, sid) == room
    decreases |room|
  {
    if room == [] {
    } else {
      var front, last := room[..|room| - 1], room[|room| - 1];
      assert room == front + [last];
      assert last in room;
      forall p | p in front ensures p.sessionId != sid {
        assert p in room;
      }
      WithoutStranger(front, sid);
    }
  }

  lemma {:induction false} BroadcastKeys(outbox: map<Ws, seq<Message>>, registry: map<string, Ws>, peers: seq<Peer>, m: Message)
    ensures Broadcast(outbox, registry, peers, m).Keys == outbox.Keys
    decreases |peers|
  {
    if peers == [] {
    } else {
      BroadcastKeys(outbox, registry, peers[..|peers| - 1], m);
    }
  }

  lemma {:induction false} SendAllKeys(outbox: map<Ws, seq<Message>>, ws: Ws, ms: seq<Message>)
    ensures SendAll(outbox, ws, ms).Keys == outbox.Keys
    decreases |ms|
  {
    if ms == [] {
    } else {
      SendAllKeys(outbox, ws, ms[..|ms| - 1]);
    }
  }

  // ---- leaving ----

  /** Leaving the current room keeps everyone in place. */
  lemma LeavingKeepsPlaced(s: Server, ws: Ws)
    requires Placed(s) && ws in s.conns && s.conns[ws].room != ""
    ensures Placed(LeftRoom(s, ws, s.conns[ws].room))
  {
    hide Broadcast, Seated, Without;
    var channel := s.conns[ws].room;
    var t := LeftRoom(s, ws, channel);
    BroadcastKeys(s.outbox, s.registry, RoomOf(t.rooms, channel), PeerLeft(channel, s.conns[ws].userId));
    RoomChangeKeepsRegistered(s, t, ws);
    LeavingKeepsSeats(s, ws, t);
  }

  lemma RoomChangeKeepsRegistered(s: Server, t: Server, ws: Ws)
    requires Registered(s) && ws in s.conns && t.registry == s.registry && t.outbox.Keys == s.outbox.Keys
    requires ws in t.conns && t.conns == s.conns[ws := s.conns[ws].(room := t.conns[ws].room)]
    requires s.conns[ws].authenticated || t.conns[ws].room == ""
    ensures Registered(t)
  {
    forall w | w in t.conns ensures Known(t, w) {
      assert Known(s, w);
    }
  }

  lemma LeavingKeepsSeats(s: Server, ws: Ws, t: Server)
    requires Registered(s) && Seated(s) && ws in s.conns && s.conns[ws].room != ""
    requires t.conns == s.conns[ws := s.conns[ws].(room := "")] && t.registry == s.registry
    requires t.rooms == RemovedFrom(s.rooms, s.conns[ws].room, s.conns[ws].sessionId)
    ensures Seated(t)
  {
    var channel, sid := s.conns[ws].room, s.conns[ws].sessionId;
    WithoutMembers(s.rooms[channel], sid);
    assert Known(s, ws);
    forall c | c in t.rooms ensures RoomSound(t, c, t.rooms[c]) {
      assert RoomSound(s, c, s.rooms[c]);
      forall p | p in t.rooms[c] ensures SitsIn(t, p, c) {
        assert SitsIn(s, p, c);
      }
    }
    forall w | w in t.conns && t.conns[w].room != ""
      ensures t.conns[w].room in t.rooms && HasSession(t.rooms[t.conns[w].room], t.conns[w].sessionId)
    {
      assert Known(s, w);
      var p :| p in s.rooms[s.conns[w].room] && p.sessionId == s.conns[w].sessionId;
      if s.conns[w].room == channel {
        assert p in Without(s.rooms[channel], sid);
      }
    }
  }

  lemma NothingRemoved(s: Server, ws: Ws, channel: string)
    requires Registered(s) && Seated(s) && ws in s.conns && s.conns[ws].room == "" && channel != ""
    ensures RemovedFrom(s.rooms, channel, s.conns[ws].sessionId) == s.rooms
  {
    var sess := s.conns[ws];
    assert Known(s, ws);
    if channel in s.rooms {
      assert RoomSound(s, channel, s.rooms[channel]);
      forall p | p in s.rooms[channel] ensures p.sessionId != sess.sessionId {
        assert SitsIn(s, p, channel);
      }
      WithoutStranger(s.rooms[channel], sess.sessionId);
    }
  }

  lemma UnseatedLeaveKeepsPlaced(s: Server, ws: Ws, channel: string)
    requires Placed(s) && ws in s.conns && s.conns[ws].room == "" && channel != ""
    ensures Placed(LeftRoom(s, ws, channel)) && LeftRoom(s, ws, channel).rooms == s.rooms
  {
    hide Broadcast, Seated, Registered;
    var t := LeftRoom(s, ws, channel);
    NothingRemoved(s, ws, channel);
    BroadcastKeys(s.outbox, s.registry, RoomOf(t.rooms, channel), PeerLeft(channel, s.conns[ws].userId));
    assert t.conns == s.conns;
    RoomChangeKeepsRegistered(s, t, ws);
    SameRooms(s, t);
  }

  // ---- entering ----

  /** Entering a room from no room keeps everyone in place. */
  lemma EnteringKeepsPlaced(s: Server, ws: Ws, channel: string)
    requires Placed(s) && channel != ""
    requires ws in s.conns && s.conns[ws].authenticated && s.conns[ws].room == ""
    ensures Placed(EnteredRoom(s, ws, channel))
  {
    hide Broadcast, SendAll, Seated, Registered;
    var t := EnteredRoom(s, ws, channel);
    EnteredKeys(s, ws, channel);
    RoomChangeKeepsRegistered(s, t, ws);
    EnteringKeepsSeats(s, ws, channel, s.nextSsrc, t);
  }

  lemma EnteredKeys(s: Server, ws: Ws, channel: string)
    requires ws in s.conns
    ensures EnteredRoom(s, ws, channel).outbox.Keys == s.outbox.Keys
  {
    hide Broadcast, SendAll;
    var existing := RoomOf(s.rooms, channel);
    var own := PeerJoined(channel, s.conns[ws].userId, s.nextSsrc);
    var first := Send(s.outbox, ws, own);
    SendAllKeys(first, ws, Announcements(channel, existing));
    BroadcastKeys(SendAll(first, ws, Announcements(channel, existing)), s.registry, existing, own);
  }

  lemma EnteringKeepsSeats(s: Server, ws: Ws, channel: string, ssrc: U32, t: Server)
    requires Registered(s) && Seated(s) && channel != ""
    requires ws in s.conns && s.conns[ws].authenticated && s.conns[ws].room == ""
    requires t.conns == s.conns[ws := s.conns[ws].(room := channel)] && t.registry == s.registry
    requires t.rooms == s.rooms[channel := RoomOf(s.rooms, channel) + [Peer(s.conns[ws].userId, s.conns[ws].sessionId, ssrc)]]
    ensures Seated(t)
  {
    var sess := s.conns[ws];
    var own := Peer(sess.userId, sess.sessionId, ssrc);
    assert Known(s, ws);
    assert own in t.rooms[channel];
    forall c | c in t.rooms ensures RoomSound(t, c, t.rooms[c]) {
      assert c in s.rooms ==> RoomSound(s, c, s.rooms[c]);
      forall p | p in t.rooms[c] ensures SitsIn(t, p, c) {
        assert p == own || SitsIn(s, p, c);
      }
      if c == channel {
        NewcomerOnce(s, RoomOf(s.rooms, channel), channel, own);
      }
    }
    forall w | w in t.conns && t.conns[w].room != ""
      ensures t.conns[w].room in t.rooms && HasSession(t.rooms[t.conns[w].room], t.conns[w].sessionId)
    {
      if w != ws {
        var p :| p in s.rooms[s.conns[w].room] && p.sessionId == s.conns[w].sessionId;
        assert p in t.rooms[s.conns[w].room];
      }
    }
  }

  lemma NewcomerOnce(s: Server, room: seq<Peer>, channel: string, own: Peer)
    requires OncePerSession(room) && forall p :: p in room ==> SitsIn(s, p, channel)
    requires own.sessionId in s.registry && s.registry[own.sessionId] in s.conns
    requires s.conns[s.registry[own.sessionId]].room != channel
    ensures OncePerSession(room + [own])
  {
    forall i | 0 <= i < |room| ensures room[i].sessionId != own.sessionId {
      assert room[i] in room;
    }
  }

  lemma RefusedJoin(s: Server, ws: Ws, channel: string)
    requires ws in s.conns && !s.conns[ws].authenticated
    ensures Joined(s, ws, channel) == s.(outbox := Send(s.outbox, ws, Error(401)))
  {
  }

  lemma RefusedJoinKeepsPlaced(s: Server, ws: Ws)
    requires Placed(s) && ws in s.conns && !s.conns[ws].authenticated
    ensures Placed(s.(outbox := Send(s.outbox, ws, Error(401))))
  {
    var t := s.(outbox := Send(s.outbox, ws, Error(401)));
    RoomChangeKeepsRegistered(s, t, ws);
    SameRooms(s, t);
  }

  lemma JoiningKeepsPlaced(s: Server, ws: Ws, channel: string)
    requires Placed(s) && ws in s.conns && channel != ""
    ensures Placed(Joined(s, ws, channel))
  {
    hide Placed, EnteredRoom, Broadcast, RemovedFrom;
    var sess := s.conns[ws];
    if !sess.authenticated {
      RefusedJoinKeepsPlaced(s, ws);
      RefusedJoin(s, ws, channel);
    } else if sess.room != "" {
      LeavingKeepsPlaced(s, ws);
      EnteringKeepsPlaced(LeftRoom(s, ws, sess.room), ws, channel);
    } else {
      EnteringKeepsPlaced(s, ws, channel);
    }
  }

  // ---- connections ----

  /** Connections that join or change outside any room disturb no seat. */
  lemma SameRooms(s: Server, t: Server)
    requires Seated(s) && t.rooms == s.rooms
    requires forall sid :: sid in s.registry ==> sid in t.registry && t.registry[sid] == s.registry[sid]
    requires forall w :: w in s.conns && s.conns[w].room != "" ==> w in t.conns && t.conns[w] == s.conns[w]
    requires forall w :: w in t.conns && t.conns[w].room != "" ==> w in s.conns && t.conns[w] == s.conns[w]
    ensures Seated(t)
  {
    forall c | c in t.rooms ensures RoomSound(t, c, t.rooms[c]) {
      assert RoomSound(s, c, s.rooms[c]);
      forall p | p in t.rooms[c] ensures SitsIn(t, p, c) {
        assert SitsIn(s, p, c);
      }
    }
  }

  lemma OpeningKeepsPlaced(s: Server, ws: Ws)
    requires Placed(s) && ws !in s.conns
    ensures Placed(Opened(s, ws))
  {
    var t := Opened(s, ws);
    forall w | w in t.conns ensures Known(t, w) {
      assert w in s.conns ==> Known(s, w);
    }
    SameRooms(s, t);
  }

  lemma GreetingKeepsRegistered(s: Server, ws: Ws, user: string, sid: string)
    requires Registered(s) && ws in s.conns && !s.conns[ws].authenticated
    requires sid != "" && sid !in s.registry
    ensures Registered(Greeted(s, ws, user, sid))
  {
    var t := Greeted(s, ws, user, sid);
    assert Known(s, ws);
    forall w | w in t.conns ensures Known(t, w) {
      assert Known(s, w);
    }
  }

  lemma GreetingKeepsPlaced(s: Server, ws: Ws, user: string, sid: string)
    requires Placed(s) && ws in s.conns && !s.conns[ws].authenticated
    requires sid != "" && sid !in s.registry
    ensures Placed(Greeted(s, ws, user, sid))
  {
    hide Seated;
    GreetingKeepsRegistered(s, ws, user, sid);
    assert Known(s, ws);
    SameRooms(s, Greeted(s, ws, user, sid));
  }

  lemma DroppingKeepsPlaced(s: Server, t: Server, ws: Ws)
    requires Placed(s) && ws in s.conns && s.conns[ws].room == ""
    requires t == s.(conns := s.conns - {ws}, outbox := s.outbox - {ws},
                     registry := if s.conns[ws].sessionId != "" then s.registry - {s.conns[ws].sessionId} else s.registry)
    ensures Placed(t)
  {
    assert Known(s, ws);
    forall w | w in t.conns ensures Known(t, w) {
      assert Known(s, w);
    }
    forall c | c in t.rooms ensures RoomSound(t, c, t.rooms[c]) {
      assert RoomSound(s, c, s.rooms[c]);
      forall p | p in t.rooms[c] ensures SitsIn(t, p, c) {
        assert SitsIn(s, p, c);
      }
    }
  }

  /** A closed connection leaves no seat behind. */
  lemma ClosingKeepsPlaced(s: Server, ws: Ws)
    requires Placed(s) && ws in s.conns
    ensures Placed(Closed(s, ws))
    ensures forall c, p :: InRoom(Closed(s, ws), c, p) ==> p.sessionId != s.conns[ws].sessionId
  {
    hide Broadcast, Seated, RemovedFrom;
    var sess := s.conns[ws];
    var mid := if sess.room != "" then LeftRoom(s, ws, sess.room) else s;
    if sess.room != "" {
      LeavingKeepsPlaced(s, ws);
    }
    DroppingKeepsPlaced(mid, Closed(s, ws), ws);
    GoneFromRooms(s, Closed(s, ws), ws);
  }

  lemma GoneFromRooms(s: Server, t: Server, ws: Ws)
    requires Registered(s) && ws in s.conns && Seated(t)
    requires s.conns[ws].sessionId !in t.registry
    ensures forall c, p :: InRoom(t, c, p) ==> p.sessionId != s.conns[ws].sessionId
  {
    forall c, p | InRoom(t, c, p) ensures p.sessionId != s.conns[ws].sessionId {
      assert RoomSound(t, c, t.rooms[c]) && SitsIn(t, p, c);
    }
  }

  // ---- stream identifiers ----

  ghost predicate Fewer(rooms: map<string, seq<Peer>>, of: map<string, seq<Peer>>)
  {
    forall c, p :: c in rooms && p in rooms[c] ==> c in of && p in of[c]
  }

  ghost predicate InRoom(s: Server, c: string, p: Peer) { c in s.rooms && p in s.rooms[c] }

  lemma RemovedIsFewer(rooms: map<string, seq<Peer>>, channel: string, sid: string)
    ensures Fewer(RemovedFrom(rooms, channel, sid), rooms)
  {
    if channel in rooms {
      WithoutMembers(rooms[channel], sid);
    }
  }

  lemma FewerStreams(s: Server, t: Server, joins: nat)
    requires StreamsDistinct(s, joins) && Fewer(t.rooms, s.rooms) && t.nextSsrc == s.nextSsrc
    ensures StreamsDistinct(t, joins)
  {
  }

  lemma SsrcFresh(k: nat, joins: nat)
    requires k < joins < 0x1_0000_0000
    ensures SsrcOf(k) != SsrcOf(joins)
  {
  }

  lemma EnteringKeepsStreams(s: Server, t: Server, channel: string, own: Peer, joins: nat)
    requires StreamsDistinct(s, joins) && joins < 0x1_0000_0000
    requires own.ssrc == s.nextSsrc && t.nextSsrc == Low32(s.nextSsrc + 1)
    requires t.rooms == s.rooms[channel := RoomOf(s.rooms, channel) + [own]]
    ensures StreamsDistinct(t, joins + 1)
  {
    hide Issued;
    forall c, p | c in t.rooms && p in t.rooms[c] ensures Issued(p.ssrc, joins + 1) {
      StreamOldOrNew(s, t, channel, own, joins, c, p);
    }
    forall c, d, p, q | c in t.rooms && d in t.rooms && p in t.rooms[c] && q in t.rooms[d] && p.ssrc == q.ssrc
      ensures p.sessionId == q.sessionId
    {
      StreamsApart(s, t, channel, own, joins, c, d, p, q);
    }
  }

  lemma StreamsApart(s: Server, t: Server, channel: string, own: Peer, joins: nat, c: string, d: string, p: Peer, q: Peer)
    requires StreamsDistinct(s, joins) && joins < 0x1_0000_0000 && own.ssrc == SsrcOf(joins)
    requires t.rooms == s.rooms[channel := RoomOf(s.rooms, channel) + [own]]
    requires InRoom(t, c, p) && InRoom(t, d, q) && p.ssrc == q.ssrc
    ensures p.sessionId == q.sessionId
  {
    StreamOldOrNew(s, t, channel, own, joins, c, p);
    StreamOldOrNew(s, t, channel, own, joins, d, q);
  }

  lemma StreamOldOrNew(s: Server, t: Server, channel: string, own: Peer, joins: nat, c: string, p: Peer)
    requires StreamsDistinct(s, joins) && joins < 0x1_0000_0000 && own.ssrc == SsrcOf(joins)
    requires t.rooms == s.rooms[channel := RoomOf(s.rooms, channel) + [own]]
    requires InRoom(t, c, p)
    ensures Issued(p.ssrc, joins + 1)
    ensures p == own || (InRoom(s, c, p) && p.ssrc != own.ssrc)
  {
    if p == own {
      assert p.ssrc == SsrcOf(joins);
    } else {
      assert InRoom(s, c, p);
      var k :| 0 <= k < joins && p.ssrc == SsrcOf(k);
      SsrcFresh(k, joins);
    }
  }

  lemma LeavingKeepsStreams(s: Server, ws: Ws, channel: string, joins: nat)
    requires StreamsDistinct(s, joins) && ws in s.conns
    ensures StreamsDistinct(LeftRoom(s, ws, channel), joins)
  {
    hide Broadcast, StreamsDistinct;
    RemovedIsFewer(s.rooms, channel, s.conns[ws].sessionId);
    FewerStreams(s, LeftRoom(s, ws, channel), joins);
  }

  lemma EnteredStreams(s: Server, ws: Ws, channel: string, joins: nat)
    requires StreamsDistinct(s, joins) && joins < 0x1_0000_0000 && ws in s.conns
    ensures StreamsDistinct(EnteredRoom(s, ws, channel), joins + 1)
  {
    hide Broadcast, SendAll, StreamsDistinct, Issued;
    var sess := s.conns[ws];
    EnteringKeepsStreams(s, EnteredRoom(s, ws, channel), channel, Peer(sess.userId, sess.sessionId, s.nextSsrc), joins);
  }

  lemma JoiningKeepsStreams(s: Server, ws: Ws, channel: string, joins: nat)
    requires StreamsDistinct(s, joins) && joins + JoinsMade(s, Join(ws, channel)) <= 0x1_0000_0000 && ws in s.conns
    ensures StreamsDistinct(Joined(s, ws, channel), joins + JoinsMade(s, Join(ws, channel)))
  {
    hide StreamsDistinct, EnteredRoom, LeftRoom;
    var sess := s.conns[ws];
    if !sess.authenticated {
      FewerStreams(s, Joined(s, ws, channel), joins);
    } else if sess.room != "" {
      LeavingKeepsStreams(s, ws, sess.room, joins);
      LeftStaysKnown(s, ws, sess.room);
      EnteredStreams(LeftRoom(s, ws, sess.room), ws, channel, joins);
    } else {
      EnteredStreams(s, ws, channel, joins);
    }
  }

  lemma LeftStaysKnown(s: Server, ws: Ws, channel: string)
    requires ws in s.conns
    ensures ws in LeftRoom(s, ws, channel).conns
  {
  }

  /** With at most 2^32 joins the identifiers in use stay distinct, whatever clients ask for. */
  lemma EventKeepsStreams(s: Server, e: Event, joins: nat)
    requires StreamsDistinct(s, joins) && joins + JoinsMade(s, e) <= 0x1_0000_0000
    ensures StreamsDistinct(Handled(s, e), joins + JoinsMade(s, e))
  {
    hide StreamsDistinct, LeftRoom, Joined;
    match e
    case Open(_) => FewerStreams(s, Handled(s, e), joins);
    case Hello(_, _, _) => FewerStreams(s, Handled(s, e), joins);
    case Join(ws, channel) =>
      if ws in s.conns {
        JoiningKeepsStreams(s, ws, channel, joins);
      }
    case Leave(ws, channel) =>
      if ws in s.conns {
        LeavingKeepsStreams(s, ws, channel, joins);
      }
    case Close(ws) =>
      if ws in s.conns {
        LeavingKeepsStreams(s, ws, s.conns[ws].room, joins);
        LeftNowhere(s, ws);
        FewerStreams(LeftRoom(s, ws, s.conns[ws].room), Handled(s, e), joins);
      }
  }

  lemma LeftNowhere(s: Server, ws: Ws)
    requires ws in s.conns
    ensures LeftRoom(s, ws, "") == s
  {
  }

  // ---- runs ----

  datatype Event = Open(ws: Ws)
                 | Hello(ws: Ws, user: string, sid: string)
                 | Join(ws: Ws, channel: string)
                 | Leave(ws: Ws, channel: string)
                 | Close(ws: Ws)

  function Handled(s: Server, e: Event): Server
  {
    match e
    case Open(ws) => Opened(s, ws)
    case Hello(ws, user, sid) => if ws in s.conns then Greeted(s, ws, user, sid) else s
    case Join(ws, channel) => if ws in s.conns then Joined(s, ws, channel) else s
    case Leave(ws, channel) => if ws in s.conns then LeftRoom(s, ws, channel) else s
    case Close(ws) => if ws in s.conns then Closed(s, ws) else s
  }

  function JoinsMade(s: Server, e: Event): nat
  {
    if e.Join? && e.ws in s.conns && s.conns[e.ws].authenticated then 1 else 0
  }

  /** What a well-behaved client does: one Hello per connection (with a fresh session id from the
      server), named channels, and leaving no room but its own. */
  ghost predicate Behaved(s: Server, e: Event)
  {
    match e
    case Open(ws) => ws !in s.conns
    case Hello(ws, _, sid) => ws in s.conns ==> !s.conns[ws].authenticated && sid != "" && sid !in s.registry
    case Join(ws, channel) => channel != ""
    case Leave(ws, channel) => ws in s.conns ==> channel == "" || s.conns[ws].room == "" || channel == s.conns[ws].room
    case Close(ws) => true
  }

  function RunOf(s: Server, events: seq<Event>): Server
    decreases |events|
  {
    if events == [] then s else RunOf(Handled(s, events[0]), events[1..])
  }

  function TotalJoins(s: Server, events: seq<Event>): nat
    decreases |events|
  {
    if events == [] then 0 else JoinsMade(s, events[0]) + TotalJoins(Handled(s, events[0]), events[1..])
  }

  ghost predicate AllBehaved(s: Server, events: seq<Event>)
    decreases |events|
  {
    events == [] || (Behaved(s, events[0]) && AllBehaved(Handled(s, events[0]), events[1..]))
  }

  lemma EventKeepsPlaced(s: Server, e: Event)
    requires Placed(s) && Behaved(s, e)
    ensures Placed(Handled(s, e))
  {
    hide Placed, Opened, Greeted, Joined, Closed, LeftRoom;
    match e
    case Open(ws) => OpeningKeepsPlaced(s, ws);
    case Hello(ws, user, sid) =>
      if ws in s.conns {
        GreetingKeepsPlaced(s, ws, user, sid);
      }
    case Join(ws, channel) =>
      if ws in s.conns {
        JoiningKeepsPlaced(s, ws, channel);
      }
    case Leave(ws, channel) =>
      if ws in s.conns {
        if channel == "" {
          LeftNowhere(s, ws);
        } else if s.conns[ws].room == "" {
          UnseatedLeaveKeepsPlaced(s, ws, channel);
        } else {
          LeavingKeepsPlaced(s, ws);
        }
      }
    case Close(ws) =>
      if ws in s.conns {
        ClosingKeepsPlaced(s, ws);
      }
  }

  lemma EventKeepsSound(s: Server, e: Event, joins: nat)
    requires Sound(s, joins) && Behaved(s, e) && joins + JoinsMade(s, e) <= 0x1_0000_0000
    ensures Sound(Handled(s, e), joins + JoinsMade(s, e))
  {
    hide Placed, StreamsDistinct, Handled, Behaved;
    EventKeepsPlaced(s, e);
    EventKeepsStreams(s, e, joins);
  }

  /** Over every run of well-behaved clients with at most 2^32 joins: each session sits exactly once, in
      the room it believes it is in; no room is empty; no two sessions share a stream identifier. */
  lemma {:induction false} ServerStaysSound(s: Server, events: seq<Event>, joins: nat)
    requires Sound(s, joins) && AllBehaved(s, events) && joins + TotalJoins(s, events) <= 0x1_0000_0000
    ensures Sound(RunOf(s, events), joins + TotalJoins(s, events))
    decreases |events|
  {
    hide Sound, Handled, Behaved;
    if events == [] {
    } else {
      EventKeepsSound(s, events[0], joins);
      ServerStaysSound(Handled(s, events[0]), events[1..], joins + JoinsMade(s, events[0]));
    }
  }

  lemma {:induction false} ServerIsSound(events: seq<Event>)
    requires AllBehaved(NEW_SERVER, events) && TotalJoins(NEW_SERVER, events) <= 0x1_0000_0000
    ensures Sound(RunOf(NEW_SERVER, events), TotalJoins(NEW_SERVER, events))
  {
    assert NEW_SERVER.nextSsrc == SsrcOf(0);
    ServerStaysSound(NEW_SERVER, events, 0);
  }

  // ---- requests that break it ----

  /** LeaveVoice keeps the invariant exactly when it names the sender's own room, names nothing, or the
      sender is in no room: any other name clears the session's room but leaves its seat. */
  lemma LeaveKeepsSoundIff(s: Server, ws: Ws, channel: string, joins: nat)
    requires Sound(s, joins) && ws in s.conns && joins <= 0x1_0000_0000
    ensures Sound(LeftRoom(s, ws, channel), joins)
       <==> channel == "" || s.conns[ws].room == "" || channel == s.conns[ws].room
  {
    hide Placed, StreamsDistinct, LeftRoom;
    var sess := s.conns[ws];
    if channel == "" || sess.room == "" || channel == sess.room {
      EventKeepsSound(s, Leave(ws, channel), joins);
    } else {
      LeavingElsewhereUnseats(s, ws, channel);
    }
  }

  lemma LeavingElsewhereUnseats(s: Server, ws: Ws, channel: string)
    requires Placed(s) && ws in s.conns && channel != "" && s.conns[ws].room != "" && channel != s.conns[ws].room
    ensures !Placed(LeftRoom(s, ws, channel))
  {
    hide Broadcast, Without;
    var sess, t := s.conns[ws], LeftRoom(s, ws, channel);
    var p :| p in s.rooms[sess.room] && p.sessionId == sess.sessionId;
    assert Known(s, ws);
    assert p in t.rooms[sess.room] && !SitsIn(t, p, sess.room);
    assert !RoomSound(t, sess.room, t.rooms[sess.room]);
  }

  /** JoinVoice keeps the invariant exactly when the channel has a name. */
  lemma JoinKeepsSoundIff(s: Server, ws: Ws, channel: string, joins: nat)
    requires Sound(s, joins) && ws in s.conns && s.conns[ws].authenticated && joins < 0x1_0000_0000
    ensures Sound(Joined(s, ws, channel), joins + 1) <==> channel != ""
  {
    if channel != "" {
      EventKeepsSound(s, Join(ws, channel), joins);
    } else {
      assert "" in Joined(s, ws, channel).rooms;
    }
  }

  // ---- concrete runs ----

  lemma RunOfThree(s: Server, a: Event, b: Event, c: Event)
    ensures RunOf(s, [a, b, c]) == Handled(Handled(Handled(s, a), b), c)
  {
    hide Handled;
    assert [a, b, c][1..] == [b, c] && [b, c][1..] == [c] && [c][1..] == [];
    assert forall t :: RunOf(t, [c]) == Handled(t, c);
    assert forall t :: RunOf(t, [b, c]) == RunOf(Handled(t, b), [c]);
  }

  lemma OneInRed()
    ensures var s := RunOf(NEW_SERVER, [Open(0), Hello(0, "ann", "s0"), Join(0, "red")]);
      && s.conns == map[0 := Session("ann", "s0", true, "red")]
      && s.rooms == map["red" := [Peer("ann", "s0", 1)]]
  {
    RunOfThree(NEW_SERVER, Open(0), Hello(0, "ann", "s0"), Join(0, "red"));
    var s := RunOf(NEW_SERVER, [Open(0), Hello(0, "ann", "s0"), Join(0, "red")]);
    assert s.rooms["red"] == [] + [Peer("ann", "s0", 1)] == [Peer("ann", "s0", 1)];
  }

  /** Joining the channel without a name. */
  lemma EmptyChannelBreaksPlaced()
    ensures !Placed(RunOf(NEW_SERVER, [Open(0), Hello(0, "ann", "s0"), Join(0, "")]))
  {
    RunOfThree(NEW_SERVER, Open(0), Hello(0, "ann", "s0"), Join(0, ""));
    var t := RunOf(NEW_SERVER, [Open(0), Hello(0, "ann", "s0"), Join(0, "")]);
    assert "" in t.rooms && !RoomSound(t, "", t.rooms[""]);
  }

  /** Leaving blue while in red: ann believes to be in no room but still sits in red. */
  lemma WrongLeaveBreaksPlaced()
    ensures var s := RunOf(NEW_SERVER, [Open(0), Hello(0, "ann", "s0"), Join(0, "red")]);
      !Placed(Handled(s, Leave(0, "blue")))
  {
    OneInRed();
    var s := RunOf(NEW_SERVER, [Open(0), Hello(0, "ann", "s0"), Join(0, "red")]);
    var t := Handled(s, Leave(0, "blue"));
    assert t.conns[0].room == "" && t.rooms["red"] == [Peer("ann", "s0", 1)];
    assert Peer("ann", "s0", 1) in t.rooms["red"];
    assert Registered(t) ==> t.registry["s0"] == 0 || "s0" !in t.registry;
    assert !RoomSound(t, "red", t.rooms["red"]) || !Registered(t);
  }
}
