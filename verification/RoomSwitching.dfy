/** Where the client's list and the server's room part: leaving a room, and switching to another. */
module RoomSwitching {
  import opened VoiceRooms
  import opened VoiceRoomInvariant
  import opened SignalingClient
  import opened ReplicatedRooms
  import opened RoomReplication
  import opened ReplicatedRuns

  /** LeaveVoice tells the leaver nothing: its list stays as it was, so it is empty afterwards exactly when
      nobody else was in the room. */
  lemma LeaverKeepsListIff(s: Server, ws: Ws, c: Client)
    requires Placed(s) && ws in s.conns && s.conns[ws].room != "" && ws in s.outbox
    requires Follows(s, ws, c) && Drained(c, s.outbox[ws]).phase.Live?
    ensures var room, sid := s.conns[ws].room, s.conns[ws].sessionId;
      var t := LeftRoom(s, ws, room);
      && ws in t.outbox && Drained(c, t.outbox[ws]) == Drained(c, s.outbox[ws])
      && (Drained(c, t.outbox[ws]).peers == [] <==> Others(RoomOf(s.rooms, room), sid) == [])
  {
    hide Broadcast, Drained, Others, RemovedFrom;
    LeaveIsHeard(s, ws, ws);
    NothingAdded(s.outbox[ws]);
  }

  /** Leaving first makes no difference to a later join. */
  lemma LeaveThenJoin(s: Server, ws: Ws, b: string)
    requires ws in s.conns && s.conns[ws].authenticated && s.conns[ws].room != ""
    ensures ws in LeftRoom(s, ws, s.conns[ws].room).conns
    ensures Joined(LeftRoom(s, ws, s.conns[ws].room), ws, b) == Joined(s, ws, b)
  {
    hide Broadcast, RemovedFrom, EnteredRoom;
  }

  /** Switching rooms over a live list: reading everything queued gives the new room exactly when nobody
      else was in the old one. */
  lemma SwitchKeepsReplicaIff(s: Server, ws: Ws, c: Client, b: string)
    requires Placed(s) && OneSessionPerUser(s) && ws in s.conns && s.conns[ws].authenticated && ws in s.outbox
    requires s.conns[ws].room != "" && b != "" && b != s.conns[ws].room
    requires Follows(s, ws, c) && Drained(c, s.outbox[ws]).phase.Live?
    ensures var left, sid := s.conns[ws].room, s.conns[ws].sessionId;
      var t := Joined(s, ws, b);
      && ws in t.outbox
      && (Drained(c, t.outbox[ws]).peers == Others(RoomOf(t.rooms, b), sid) <==> Others(RoomOf(s.rooms, left), sid) == [])
  {
    hide Broadcast, SendAll, Drained, Others, Infos, Placed, OneSessionPerUser, Lists, RemovedFrom, Announcements, ErasedAll;
    var mid := LeftRoom(s, ws, s.conns[ws].room);
    LeavingKeepsPlaced(s, ws);
    LeftKeepsUsers(s, ws, s.conns[ws].room);
    LeftConn(s, ws, ws);
    LeaveIsHeard(s, ws, ws);
    NothingAdded(s.outbox[ws]);
    var existing := RoomOf(mid.rooms, b);
    var own := PeerJoined(b, mid.conns[ws].userId, mid.nextSsrc);
    EnterIsHeard(mid, ws, b, ws);
    var view := Drained(c, s.outbox[ws]);
    DrainAppend(c, s.outbox[ws], [own] + Announcements(b, existing));
    DrainAppend(view, [own], Announcements(b, existing));
    DrainOwn(view, own);
    JoinerSees(mid, ws, b);
    ReplayCoversIff(view, b, existing);
    OldPeersElsewhere(s, ws, b);
    assert view.peers == [] <==> forall i :: i in view.peers ==> Lists(existing, i.userId) by {
      assert view.peers != [] ==> view.peers[0] in view.peers;
    }
  }

  /** Nobody else of the old room is in another one. */
  lemma OldPeersElsewhere(s: Server, ws: Ws, b: string)
    requires Placed(s) && OneSessionPerUser(s) && ws in s.conns && s.conns[ws].room != "" && b != s.conns[ws].room
    ensures var room, sid := s.conns[ws].room, s.conns[ws].sessionId;
      forall i :: i in Others(RoomOf(s.rooms, room), sid) ==> !Lists(RoomOf(RemovedFrom(s.rooms, room, sid), b), i.userId)
  {
    hide Others, Without;
    var room, sid := s.conns[ws].room, s.conns[ws].sessionId;
    assert RoomOf(RemovedFrom(s.rooms, room, sid), b) == RoomOf(s.rooms, b);
    OthersUsers(s.rooms[room], sid);
    forall i | i in Others(s.rooms[room], sid) ensures !Lists(RoomOf(s.rooms, b), i.userId) {
      var p :| p in s.rooms[room] && p.sessionId != sid && i == Info(p.userId, p.ssrc);
      UserInOneRoom(s, room, p, b);
    }
  }

  lemma UserInOneRoom(s: Server, a: string, p: Peer, b: string)
    requires Placed(s) && OneSessionPerUser(s) && a in s.rooms && p in s.rooms[a] && b != a
    ensures !Lists(RoomOf(s.rooms, b), p.userId)
  {
    assert RoomSound(s, a, s.rooms[a]) && SitsIn(s, p, a);
    if b in s.rooms {
      assert RoomSound(s, b, s.rooms[b]);
      forall q | q in s.rooms[b] ensures q.userId != p.userId {
        assert SitsIn(s, q, b);
      }
    }
  }

  // ---- a concrete run ----

  function TwoInRed(): seq<Event>
  {
    [Open(0), Hello(0, "ann", "s0"), Join(0, "red"), Open(1), Hello(1, "bob", "s1"), Join(1, "red")]
  }

  /** What the server has after ann and bob joined the red room, up to the queues. */
  lemma TwoInRedServer()
    ensures var s := RunOf(NEW_SERVER, TwoInRed());
      && s.conns == map[0 := Session("ann", "s0", true, "red"), 1 := Session("bob", "s1", true, "red")]
      && s.registry == map["s0" := 0, "s1" := 1] && s.nextSsrc == 3
      && s.rooms == map["red" := [Peer("ann", "s0", 1), Peer("bob", "s1", 2)]]
      && s.outbox.Keys == {0, 1}
      && s.outbox[0] == [PeerJoined("red", "ann", 1), PeerJoined("red", "bob", 2)]
  {
    hide Joined, RunOf;
    var s1 := Opened(NEW_SERVER, 0);
    var s2 := Greeted(s1, 0, "ann", "s0");
    var s3 := Joined(s2, 0, "red");
    FirstJoin(s2);
    var s4 := Opened(s3, 1);
    var s5 := Greeted(s4, 1, "bob", "s1");
    SecondJoin(s5);
    RunOfSix(NEW_SERVER, TwoInRed());
  }

  lemma RunOfSix(s: Server, events: seq<Event>)
    requires |events| == 6
    ensures RunOf(s, events)
      == Handled(Handled(Handled(Handled(Handled(Handled(s, events[0]), events[1]), events[2]), events[3]), events[4]), events[5])
  {
    hide Handled;
    var e1, e2, e3, e4, e5 := events[1..], events[2..], events[3..], events[4..], events[5..];
    assert e1[1..] == e2 && e2[1..] == e3 && e3[1..] == e4 && e4[1..] == e5 && e5[1..] == [];
    assert forall t :: RunOf(t, e5) == Handled(t, events[5]);
    assert forall t :: RunOf(t, e4) == RunOf(Handled(t, events[4]), e5);
    assert forall t :: RunOf(t, e3) == RunOf(Handled(t, events[3]), e4);
    assert forall t :: RunOf(t, e2) == RunOf(Handled(t, events[2]), e3);
    assert forall t :: RunOf(t, e1) == RunOf(Handled(t, events[1]), e2);
  }

  lemma SendOne(outbox: map<Ws, seq<Message>>, registry: map<string, Ws>, ws: Ws, m: Message, p: Peer)
    requires ws in outbox && p.sessionId in registry && registry[p.sessionId] == ws
    ensures SendAll(outbox, ws, []) == outbox && SendAll(outbox, ws, [m]) == outbox[ws := outbox[ws] + [m]]
    ensures Broadcast(outbox, registry, [], m) == outbox
    ensures Broadcast(outbox, registry, [p], m) == outbox[ws := outbox[ws] + [m]]
  {
    assert [m][..0] == [] && [p][..0] == [];
    assert SendAll(outbox, ws, [m]) == Send(SendAll(outbox, ws, []), ws, m);
    assert Broadcast(outbox, registry, [p], m) == Send(Broadcast(outbox, registry, [], m), ws, m);
  }

  lemma FirstJoin(s: Server)
    requires s.conns == map[0 := Session("ann", "s0", true, "")] && s.registry == map["s0" := 0]
    requires s.rooms == map[] && s.nextSsrc == 1 && s.outbox == map[0 := []]
    ensures var t := Joined(s, 0, "red");
      && t.conns == map[0 := Session("ann", "s0", true, "red")] && t.registry == s.registry && t.nextSsrc == 2
      && t.rooms == map["red" := [Peer("ann", "s0", 1)]]
      && t.outbox == map[0 := [PeerJoined("red", "ann", 1)]]
  {
    hide Broadcast, SendAll;
    var own := PeerJoined("red", "ann", 1);
    var first := Send(s.outbox, 0, own);
    assert [] + [own] == [own] && first == map[0 := [own]];
    assert Announcements("red", []) == [];
    SendOne(first, s.registry, 0, own, Peer("ann", "s0", 1));
    assert [] + [Peer("ann", "s0", 1)] == [Peer("ann", "s0", 1)];
    assert Joined(s, 0, "red").rooms["red"] == [Peer("ann", "s0", 1)];
  }

  lemma SecondJoin(s: Server)
    requires s.conns == map[0 := Session("ann", "s0", true, "red"), 1 := Session("bob", "s1", true, "")]
    requires s.registry == map["s0" := 0, "s1" := 1] && s.nextSsrc == 2
    requires s.rooms == map["red" := [Peer("ann", "s0", 1)]]
    requires s.outbox == map[0 := [PeerJoined("red", "ann", 1)], 1 := []]
    ensures var t := Joined(s, 1, "red");
      && t.conns == map[0 := Session("ann", "s0", true, "red"), 1 := Session("bob", "s1", true, "red")]
      && t.registry == s.registry && t.nextSsrc == 3
      && t.rooms == map["red" := [Peer("ann", "s0", 1), Peer("bob", "s1", 2)]]
      && t.outbox.Keys == {0, 1}
      && t.outbox[0] == [PeerJoined("red", "ann", 1), PeerJoined("red", "bob", 2)]
  {
    hide Broadcast, SendAll;
    var ann, own := Peer("ann", "s0", 1), PeerJoined("red", "bob", 2);
    var first := Send(s.outbox, 1, own);
    var replay := PeerJoined("red", "ann", 1);
    assert Announcements("red", [ann]) == [replay];
    SendOne(first, s.registry, 1, replay, Peer("bob", "s1", 2));
    var second := SendAll(first, 1, [replay]);
    assert second.Keys == {0, 1} && second[0] == [PeerJoined("red", "ann", 1)];
    SendOne(second, s.registry, 0, own, ann);
    var t := Joined(s, 1, "red");
    assert t.outbox == second[0 := second[0] + [own]];
    assert [ann] + [Peer("bob", "s1", 2)] == [ann, Peer("bob", "s1", 2)];
    assert t.rooms["red"] == [ann] + [Peer("bob", "s1", 2)];
    assert second[0] + [own] == [PeerJoined("red", "ann", 1), own];
  }

  lemma TwoInRedIsPlaced()
    ensures Placed(RunOf(NEW_SERVER, TwoInRed())) && OneSessionPerUser(RunOf(NEW_SERVER, TwoInRed()))
  {
    hide RunOf, TwoInRed;
    TwoInRedServer();
    TwoAreRegistered(RunOf(NEW_SERVER, TwoInRed()));
    TwoAreSeated(RunOf(NEW_SERVER, TwoInRed()));
  }

  lemma TwoAreRegistered(s: Server)
    requires s.conns == map[0 := Session("ann", "s0", true, "red"), 1 := Session("bob", "s1", true, "red")]
    requires s.registry == map["s0" := 0, "s1" := 1] && s.outbox.Keys == {0, 1}
    ensures Registered(s) && OneSessionPerUser(s)
  {
  }

  lemma TwoAreSeated(s: Server)
    requires s.conns == map[0 := Session("ann", "s0", true, "red"), 1 := Session("bob", "s1", true, "red")]
    requires s.registry == map["s0" := 0, "s1" := 1]
    requires s.rooms == map["red" := [Peer("ann", "s0", 1), Peer("bob", "s1", 2)]]
    ensures Seated(s)
  {
    var ann, bob := Peer("ann", "s0", 1), Peer("bob", "s1", 2);
    var room := s.rooms["red"];
    assert room[0] == ann && room[1] == bob;
    assert forall p :: p in room ==> p == ann || p == bob;
    assert RoomSound(s, "red", room);
    assert ann in room && bob in room;
    assert HasSession(room, "s0") && HasSession(room, "s1");
  }

  /** Ann, live in the red room with bob, switches to the blue one, where nobody is, and still lists him. */
  lemma SwitchKeepsStalePeer(ann: Client)
    requires ann == Client("ann", Syncing(0, []), [])
    ensures var s := RunOf(NEW_SERVER, TwoInRed());
      && 0 in s.conns && 0 in s.outbox && Drained(ann, s.outbox[0]).peers == [Info("bob", 2)]
      && var t := Joined(s, 0, "blue");
      && 0 in t.outbox && Drained(ann, t.outbox[0]).peers != []
      && Others(RoomOf(t.rooms, "blue"), "s0") == []
  {
    hide Joined, Placed;
    var s := RunOf(NEW_SERVER, TwoInRed());
    TwoInRedServer();
    TwoInRedIsPlaced();
    AnnSeesBob(ann);
    var view := Drained(ann, s.outbox[0]);
    AnnFollows(s, ann);
    OthersInRed();
    SwitchKeepsReplicaIff(s, 0, ann, "blue");
    AloneInBlue(s);
  }

  lemma AnnSeesBob(ann: Client)
    requires ann == Client("ann", Syncing(0, []), [])
    ensures Drained(ann, [PeerJoined("red", "ann", 1), PeerJoined("red", "bob", 2)]) == Client("ann", Live, [Info("bob", 2)])
  {
    var a, b := PeerJoined("red", "ann", 1), PeerJoined("red", "bob", 2);
    DrainOne(ann, [], a);
    DrainOne(ann, [a], b);
    assert [] + [a] == [a] && [a] + [b] == [a, b];
    assert Erased([], "bob") + [Info("bob", 2)] == [Info("bob", 2)];
  }

  lemma OthersInRed()
    ensures Others([Peer("ann", "s0", 1), Peer("bob", "s1", 2)], "s0") == [Info("bob", 2)]
  {
    OthersSnoc([], Peer("ann", "s0", 1), "s0");
    OthersSnoc([Peer("ann", "s0", 1)], Peer("bob", "s1", 2), "s0");
    assert [] + [Peer("ann", "s0", 1)] == [Peer("ann", "s0", 1)];
    assert [Peer("ann", "s0", 1)] + [Peer("bob", "s1", 2)] == [Peer("ann", "s0", 1), Peer("bob", "s1", 2)];
  }

  lemma AnnFollows(s: Server, ann: Client)
    requires ann == Client("ann", Syncing(0, []), []) && 0 in s.conns && 0 in s.outbox
    requires s.conns[0] == Session("ann", "s0", true, "red")
    requires RoomOf(s.rooms, "red") == [Peer("ann", "s0", 1), Peer("bob", "s1", 2)]
    requires Drained(ann, s.outbox[0]) == Client("ann", Live, [Info("bob", 2)])
    ensures Follows(s, 0, ann)
  {
    hide Others, Drained;
    OthersInRed();
  }

  lemma AloneInBlue(s: Server)
    requires 0 in s.conns && s.conns[0] == Session("ann", "s0", true, "red") && "red" in s.rooms && "blue" !in s.rooms
    ensures Others(RoomOf(Joined(s, 0, "blue").rooms, "blue"), "s0") == []
  {
    hide Broadcast, SendAll, Others, Without;
    var own := Peer("ann", "s0", s.nextSsrc);
    assert RoomOf(Joined(s, 0, "blue").rooms, "blue") == [] + [own];
    OthersSnoc([], own, "s0");
    NobodyElse();
  }

  lemma NobodyElse()
    ensures Others([], "s0") == []
  {
  }
}
