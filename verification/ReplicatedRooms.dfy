/** The client's member list against the server's room: what each message does to the one and the event
    behind it to the other, and whom a broadcast reaches. */
module ReplicatedRooms {
  import opened Words
  import opened VoiceRooms
  import opened VoiceRoomInvariant
  import opened SignalingClient

  // ---- one list: who else is in the room ----

  function Others(room: seq<Peer>, sid: string): seq<Info>
  {
    if room == [] then []
    else
      var last := room[|room| - 1];
      Others(room[..|room| - 1], sid) + (if last.sessionId == sid then [] else [Info(last.userId, last.ssrc)])
  }

  function Infos(room: seq<Peer>): seq<Info>
  {
    if room == [] then [] else Infos(room[..|room| - 1]) + [Info(room[|room| - 1].userId, room[|room| - 1].ssrc)]
  }

  ghost predicate HasUser(peers: seq<Info>, user: string)
  {
    exists p :: p in peers && p.userId == user
  }

  /** In this room list one session stands for one user. */
  ghost predicate UserIsSession(room: seq<Peer>, user: string, sid: string)
  {
    forall p :: p in room ==> (p.userId == user <==> p.sessionId == sid)
  }

  lemma {:induction false} ErasedMembers(peers: seq<Info>, user: string)
    ensures forall p :: p in Erased(peers, user) <==> p in peers && p.userId != user
    decreases |peers|
  {
    if peers == [] {
    } else {
      assert peers == peers[..|peers| - 1] + [peers[|peers| - 1]];
      ErasedMembers(peers[..|peers| - 1], user);
    }
  }

  lemma ErasedSnoc(peers: seq<Info>, p: Info, user: string)
    ensures Erased(peers + [p], user) == Erased(peers, user) + (if p.userId == user then [] else [p])
  {
    assert (peers + [p])[..|peers|] == peers;
  }

  lemma {:induction false} ErasedLength(peers: seq<Info>, user: string)
    ensures |Erased(peers, user)| <= |peers|
    ensures Erased(peers, user) == peers <==> !HasUser(peers, user)
    decreases |peers|
  {
    if peers == [] {
    } else {
      var front, last := peers[..|peers| - 1], peers[|peers| - 1];
      assert peers == front + [last];
      ErasedLength(front, user);
    }
  }

  /** The list names exactly the members under other sessions, each with its stream. */
  lemma {:induction false} OthersUsers(room: seq<Peer>, sid: string)
    ensures forall i :: i in Others(room, sid) ==> exists p :: p in room && p.sessionId != sid && i == Info(p.userId, p.ssrc)
    ensures forall p :: p in room && p.sessionId != sid ==> Info(p.userId, p.ssrc) in Others(room, sid)
    decreases |room|
  {
    if room == [] {
    } else {
      var front, last := room[..|room| - 1], room[|room| - 1];
      assert room == front + [last];
      OthersUsers(front, sid);
      assert last in room;
    }
  }

  /** And each of them once. */
  lemma {:induction false} OthersSize(room: seq<Peer>, sid: string)
    requires OncePerSession(room)
    ensures |Others(room, sid)| == |room| - (if HasSession(room, sid) then 1 else 0)
    decreases |room|
  {
    if room == [] {
    } else {
      var front, last := room[..|room| - 1], room[|room| - 1];
      assert room == front + [last];
      OthersSize(front, sid);
      forall i | 0 <= i < |front| ensures front[i].sessionId != last.sessionId {
        assert front[i] == room[i] && last == room[|front|];
      }
      assert HasSession(room, sid) <==> HasSession(front, sid) || last.sessionId == sid by {
        assert last in room;
        assert forall p :: p in front ==> p in room;
      }
    }
  }

  lemma NothingAdded<T>(a: seq<T>)
    ensures a + [] == a
  {
  }

  /** What PeerLeft does to the replica is what leaving does to the room. */
  lemma {:induction false} ErasingFollowsLeaving(room: seq<Peer>, sid: string, user: string, gone: string)
    requires UserIsSession(room, user, gone)
    ensures Erased(Others(room, sid), user) == Others(Without(room, gone), sid)
    decreases |room|
  {
    if room == [] {
    } else {
      var front, last := room[..|room| - 1], room[|room| - 1];
      assert room == front + [last];
      ErasingFollowsLeaving(front, sid, user, gone);
      ErasedSnoc(Others(front, sid), Info(last.userId, last.ssrc), user);
      OthersSnoc(Without(front, gone), last, sid);
      NothingAdded(Others(front, sid));
      NothingAdded(Without(front, gone));
      NothingAdded(Others(Without(front, gone), sid));
    }
  }

  lemma OthersSnoc(room: seq<Peer>, p: Peer, sid: string)
    ensures Others(room + [p], sid) == Others(room, sid) + (if p.sessionId == sid then [] else [Info(p.userId, p.ssrc)])
  {
    assert (room + [p])[..|room|] == room;
  }

  /** What PeerJoined does to the replica is what entering does to the room, exactly when the newcomer
      was not already listed under another session. */
  lemma JoiningFollowsEntering(room: seq<Peer>, sid: string, own: Peer)
    requires own.sessionId != sid
    ensures Erased(Others(room, sid), own.userId) + [Info(own.userId, own.ssrc)] == Others(room + [own], sid)
       <==> !HasUser(Others(room, sid), own.userId)
  {
    OthersSnoc(room, own, sid);
    var before, after := Others(room, sid), Erased(Others(room, sid), own.userId);
    var entry := [Info(own.userId, own.ssrc)];
    ErasedLength(before, own.userId);
    if after + entry == before + entry {
      assert after == (after + entry)[..|after|] && before == (before + entry)[..|before|];
    }
  }

  lemma {:induction false} OthersOfStranger(room: seq<Peer>, sid: string)
    requires forall p :: p in room ==> p.sessionId != sid
    ensures Others(room, sid) == Infos(room)
    decreases |room|
  {
    if room == [] {
    } else {
      OthersOfStranger(room[..|room| - 1], sid);
    }
  }

  lemma {:induction false} OthersWithout(room: seq<Peer>, sid: string)
    ensures Others(room, sid) == Infos(Without(room, sid))
    decreases |room|
  {
    if room == [] {
    } else {
      var front, last := room[..|room| - 1], room[|room| - 1];
      OthersWithout(front, sid);
      NothingAdded(Without(front, sid));
      NothingAdded(Others(front, sid));
      assert (Without(front, sid) + [last])[..|Without(front, sid)|] == Without(front, sid);
    }
  }

  // ---- the replay a joiner reads ----

  function ErasedAll(peers: seq<Info>, room: seq<Peer>): seq<Info>
  {
    if room == [] then peers else Erased(ErasedAll(peers, room[..|room| - 1]), room[|room| - 1].userId)
  }

  ghost predicate Lists(room: seq<Peer>, user: string)
  {
    exists p :: p in room && p.userId == user
  }

  lemma {:induction false} ErasedAllMembers(peers: seq<Info>, room: seq<Peer>)
    ensures forall i :: i in ErasedAll(peers, room) <==> i in peers && !Lists(room, i.userId)
    decreases |room|
  {
    if room == [] {
    } else {
      var front, last := room[..|room| - 1], room[|room| - 1];
      assert room == front + [last];
      ErasedAllMembers(peers, front);
      ErasedMembers(ErasedAll(peers, front), last.userId);
      forall i ensures Lists(room, i) <==> Lists(front, i) || i == last.userId {
        assert last in room;
        if p :| p in front && p.userId == i {
          assert p in room;
        }
      }
    }
  }

  ghost predicate DistinctUsers(room: seq<Peer>)
  {
    forall i, j :: 0 <= i < j < |room| ==> room[i].userId != room[j].userId
  }

  lemma {:induction false} InfosMembers(room: seq<Peer>)
    ensures forall i :: i in Infos(room) ==> Lists(room, i.userId)
    ensures forall p :: p in room ==> Info(p.userId, p.ssrc) in Infos(room)
    decreases |room|
  {
    if room == [] {
    } else {
      var front, last := room[..|room| - 1], room[|room| - 1];
      assert room == front + [last];
      InfosMembers(front);
      assert last in room;
      forall i | i in Infos(room) ensures Lists(room, i.userId) {
        if i in Infos(front) {
          var p :| p in front && p.userId == i.userId;
          assert p in room;
        } else {
          assert last.userId == i.userId;
        }
      }
    }
  }

  lemma {:induction false} ErasedConcat(a: seq<Info>, b: seq<Info>, user: string)
    ensures Erased(a + b, user) == Erased(a, user) + Erased(b, user)
    decreases |b|
  {
    if b == [] {
      assert a + b == a;
    } else {
      AppendLast(a, b);
      ErasedConcat(a, b[..|b| - 1], user);
    }
  }

  lemma AnnouncementsSnoc(channel: string, room: seq<Peer>)
    requires room != []
    ensures Announcements(channel, room)
         == Announcements(channel, room[..|room| - 1])
          + [PeerJoined(channel, room[|room| - 1].userId, room[|room| - 1].ssrc)]
  {
  }

  /** A live client that reads the replay of a room ends with the replayed members at the end and, of
      what it had, only users the room does not list. */
  lemma {:induction false} ReplayYields(c: Client, channel: string, room: seq<Peer>)
    requires c.phase.Live? && DistinctUsers(room) && !Lists(room, c.userId)
    ensures Drained(c, Announcements(channel, room)) == c.(peers := ErasedAll(c.peers, room) + Infos(room))
    decreases |room|
  {
    if room == [] {
      assert Announcements(channel, room) == [];
      assert c.peers + [] == c.peers;
    } else {
      var front, last := room[..|room| - 1], room[|room| - 1];
      assert room == front + [last];
      assert last in room;
      forall p | p in front ensures p in room && p.userId != last.userId {
      }
      ReplayYields(c, channel, front);
      AnnouncementsSnoc(channel, room);
      DrainOne(c, Announcements(channel, front), PeerJoined(channel, last.userId, last.ssrc));
      ErasedConcat(ErasedAll(c.peers, front), Infos(front), last.userId);
      InfosMembers(front);
      ErasedLength(Infos(front), last.userId);
      Assoc(ErasedAll(c.peers, room), Infos(front), [Info(last.userId, last.ssrc)]);
    }
  }

  /** A replay read over a live list leaves exactly the room's members iff the room lists everyone who
      was on the list: nothing tells the client to forget the others. */
  lemma ReplayCoversIff(c: Client, channel: string, room: seq<Peer>)
    requires c.phase.Live? && DistinctUsers(room) && !Lists(room, c.userId)
    ensures Drained(c, Announcements(channel, room)).peers == Infos(room)
       <==> forall i :: i in c.peers ==> Lists(room, i.userId)
  {
    ReplayYields(c, channel, room);
    ErasedAllMembers(c.peers, room);
    var rest := ErasedAll(c.peers, room);
    assert |rest + Infos(room)| == |rest| + |Infos(room)|;
    if rest == [] {
      forall i | i in c.peers ensures Lists(room, i.userId) {
        assert i !in rest;
      }
    } else {
      assert rest[0] in rest;
    }
  }

  // ---- who a broadcast reaches ----

  ghost predicate Reached(registry: map<string, Ws>, peers: seq<Peer>, ws: Ws)
  {
    exists p :: p in peers && p.sessionId in registry && registry[p.sessionId] == ws
  }

  ghost predicate OneSessionPerWs(registry: map<string, Ws>)
  {
    forall a, b :: a in registry && b in registry && registry[a] == registry[b] ==> a == b
  }

  /** Every listed peer gets the message once, everyone else nothing. */
  lemma {:induction false} BroadcastReaches(outbox: map<Ws, seq<Message>>, registry: map<string, Ws>, peers: seq<Peer>, m: Message, ws: Ws)
    requires ws in outbox && OncePerSession(peers) && OneSessionPerWs(registry)
    ensures Broadcast(outbox, registry, peers, m).Keys == outbox.Keys
    ensures Broadcast(outbox, registry, peers, m)[ws] == outbox[ws] + (if Reached(registry, peers, ws) then [m] else [])
    decreases |peers|
  {
    hide Reached, OncePerSession, OneSessionPerWs;
    NothingAdded(outbox[ws]);
    NobodyReached(registry, ws);
    if peers == [] {
    } else {
      var front, last := peers[..|peers| - 1], peers[|peers| - 1];
      assert peers == front + [last];
      ReachedSnoc(registry, front, last, ws);
      BroadcastReaches(outbox, registry, front, m, ws);
    }
  }

  lemma NobodyReached(registry: map<string, Ws>, ws: Ws)
    ensures !Reached(registry, [], ws)
  {
  }

  lemma ReachedSnoc(registry: map<string, Ws>, front: seq<Peer>, last: Peer, ws: Ws)
    requires OncePerSession(front + [last]) && OneSessionPerWs(registry)
    ensures OncePerSession(front)
    ensures var hit := last.sessionId in registry && registry[last.sessionId] == ws;
      && (Reached(registry, front + [last], ws) <==> Reached(registry, front, ws) || hit)
      && (hit ==> !Reached(registry, front, ws))
  {
    var peers := front + [last];
    assert forall i :: 0 <= i < |front| ==> peers[i] == front[i] && peers[i].sessionId != peers[|front|].sessionId;
    assert forall p :: p in peers <==> p in front || p == last;
  }

  lemma {:induction false} SendAllReaches(outbox: map<Ws, seq<Message>>, to: Ws, ms: seq<Message>, ws: Ws)
    requires ws in outbox && to in outbox
    ensures SendAll(outbox, to, ms).Keys == outbox.Keys
    ensures SendAll(outbox, to, ms)[ws] == if ws == to then outbox[ws] + ms else outbox[ws]
    decreases |ms|
  {
    if ms == [] {
      assert outbox[ws] + ms == outbox[ws];
    } else {
      SendAllReaches(outbox, to, ms[..|ms| - 1], ws);
      assert outbox[ws] + ms == (outbox[ws] + ms[..|ms| - 1]) + [ms[|ms| - 1]];
    }
  }
}
