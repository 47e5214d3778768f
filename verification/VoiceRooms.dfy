/** The voice-room side of the signaling server: sessions, rooms, and the messages queued to each
    connection. */
module VoiceRooms {
  import opened Words

  type Ws = nat

  datatype Session = Session(userId: string, sessionId: string, authenticated: bool, room: string)

  datatype Peer = Peer(userId: string, sessionId: string, ssrc: U32)

  /** Chat stands for every envelope the voice protocol ignores. */
  datatype Message = PeerJoined(channel: string, userId: string, ssrc: U32)
                   | PeerLeft(channel: string, userId: string)
                   | Error(code: nat)
                   | Chat

  datatype Server = Server(conns: map<Ws, Session>, registry: map<string, Ws>, rooms: map<string, seq<Peer>>,
                           nextSsrc: U32, outbox: map<Ws, seq<Message>>)

  const NEW_SERVER := Server(map[], map[], map[], 1, map[])

  // ---- sending ----

  function Send(outbox: map<Ws, seq<Message>>, ws: Ws, m: Message): map<Ws, seq<Message>>
  {
    if ws in outbox then outbox[ws := outbox[ws] + [m]] else outbox
  }

  function SendAll(outbox: map<Ws, seq<Message>>, ws: Ws, ms: seq<Message>): map<Ws, seq<Message>>
  {
    if ms == [] then outbox else Send(SendAll(outbox, ws, ms[..|ms| - 1]), ws, ms[|ms| - 1])
  }

  /** One direct send to every listed peer whose session is still registered. */
  function Broadcast(outbox: map<Ws, seq<Message>>, registry: map<string, Ws>, peers: seq<Peer>, m: Message): map<Ws, seq<Message>>
  {
    if peers == [] then outbox
    else
      var before := Broadcast(outbox, registry, peers[..|peers| - 1], m);
      var sid := peers[|peers| - 1].sessionId;
      if sid in registry then Send(before, registry[sid], m) else before
  }

  // ---- handlers ----

  function Without(room: seq<Peer>, sid: string): seq<Peer>
  {
    if room == [] then []
    else Without(room[..|room| - 1], sid) + (if room[|room| - 1].sessionId == sid then [] else [room[|room| - 1]])
  }

  function RoomOf(rooms: map<string, seq<Peer>>, channel: string): seq<Peer>
  {
    if channel in rooms then rooms[channel] else []
  }

  /** Taking a session out of a room's list; a room left empty is dropped. */
  function RemovedFrom(rooms: map<string, seq<Peer>>, channel: string, sid: string): map<string, seq<Peer>>
  {
    if channel !in rooms then rooms
    else if Without(rooms[channel], sid) == [] then rooms - {channel}
    else rooms[channel := Without(rooms[channel], sid)]
  }

  function LeftRoom(s: Server, ws: Ws, channel: string): Server
    requires ws in s.conns
  {
    var sess := s.conns[ws];
    if channel == "" then s
    else
      var rooms := RemovedFrom(s.rooms, channel, sess.sessionId);
      s.(rooms := rooms, conns := s.conns[ws := sess.(room := "")],
         outbox := Broadcast(s.outbox, s.registry, RoomOf(rooms, channel), PeerLeft(channel, sess.userId)))
  }

  function Announcements(channel: string, peers: seq<Peer>): (ms: seq<Message>)
    ensures |ms| == |peers|
  {
    seq(|peers|, i requires 0 <= i < |peers| => PeerJoined(channel, peers[i].userId, peers[i].ssrc))
  }

  /** Registering a session that is in no room: itself first, then the others to it, then it to them. */
  function EnteredRoom(s: Server, ws: Ws, channel: string): Server
    requires ws in s.conns
  {
    var sess := s.conns[ws];
    var existing := RoomOf(s.rooms, channel);
    var own := PeerJoined(channel, sess.userId, s.nextSsrc);
    Server(s.conns[ws := sess.(room := channel)], s.registry,
           s.rooms[channel := existing + [Peer(sess.userId, sess.sessionId, s.nextSsrc)]],
           Low32(s.nextSsrc + 1),
           Broadcast(SendAll(Send(s.outbox, ws, own), ws, Announcements(channel, existing)), s.registry, existing, own))
  }

  function Joined(s: Server, ws: Ws, channel: string): Server
    requires ws in s.conns
  {
    var sess := s.conns[ws];
    if !sess.authenticated then s.(outbox := Send(s.outbox, ws, Error(401)))
    else EnteredRoom(if sess.room != "" then LeftRoom(s, ws, sess.room) else s, ws, channel)
  }

  function Opened(s: Server, ws: Ws): Server
  {
    s.(conns := s.conns[ws := Session("", "", false, "")], outbox := s.outbox[ws := []])
  }

  /** A successful Hello; its Ready reply is consumed by the client's handshake. */
  function Greeted(s: Server, ws: Ws, user: string, sid: string): Server
    requires ws in s.conns
  {
    s.(conns := s.conns[ws := s.conns[ws].(userId := user, sessionId := sid, authenticated := true)],
       registry := s.registry[sid := ws])
  }

  function Closed(s: Server, ws: Ws): Server
    requires ws in s.conns
  {
    var sess := s.conns[ws];
    var s' := if sess.room != "" then LeftRoom(s, ws, sess.room) else s;
    s'.(conns := s'.conns - {ws}, outbox := s'.outbox - {ws},
        registry := if sess.sessionId != "" then s'.registry - {sess.sessionId} else s'.registry)
  }

  // ---- the class ----

  class GatewayState {
    var conns: map<Ws, Session>
    var registry: map<string, Ws>
    var rooms: map<string, seq<Peer>>
    var nextSsrc: U32
    var outbox: map<Ws, seq<Message>>

    ghost function Value(): Server
      reads this
    {
      Server(conns, registry, rooms, nextSsrc, outbox)
    }

    constructor ()
      ensures Value() == NEW_SERVER
    {
      conns, registry, rooms, nextSsrc, outbox := map[], map[], map[], 1, map[];
    }

    method SendEnvelope(ws: Ws, m: Message)
      modifies this`outbox
      ensures outbox == Send(old(outbox), ws, m)
    {
      if ws in outbox {
        outbox := outbox[ws := outbox[ws] + [m]];
      }
    }

    method RemoveFromVoiceRoom(sid: string, channel: string) returns (remaining: seq<Peer>)
      modifies this`rooms
      ensures rooms == RemovedFrom(old(rooms), channel, sid)
      ensures remaining == RoomOf(rooms, channel)
    {
      if channel !in rooms {
        return [];
      }
      var room := rooms[channel];
      var kept: seq<Peer> := [];
      for i := 0 to |room|
        invariant kept == Without(room[..i], sid)
      {
        assert room[..i + 1][..i] == room[..i];
        if room[i].sessionId != sid {
          kept := kept + [room[i]];
        }
      }
      assert room[..|room|] == room;
      if kept == [] {
        rooms := rooms - {channel};
      } else {
        rooms := rooms[channel := kept];
      }
      remaining := kept;
    }

    // One direct send to every listed peer that can still be looked up.
    method SendToPeers(peers: seq<Peer>, m: Message)
      modifies this`outbox
      ensures outbox == Broadcast(old(outbox), registry, peers, m)
    {
      for i := 0 to |peers|
        invariant outbox == Broadcast(old(outbox), registry, peers[..i], m)
      {
        assert peers[..i + 1][..i] == peers[..i];
        if peers[i].sessionId in registry {
          SendEnvelope(registry[peers[i].sessionId], m);
        }
      }
      assert peers[..|peers|] == peers;
    }

    method LeaveVoiceRoom(ws: Ws, channel: string)
      requires ws in conns
      modifies this
      ensures Value() == LeftRoom(old(Value()), ws, channel)
    {
      if channel == "" {
        return;
      }
      var remaining := RemoveFromVoiceRoom(conns[ws].sessionId, channel);
      conns := conns[ws := conns[ws].(room := "")];
      SendToPeers(remaining, PeerLeft(channel, conns[ws].userId));
    }

    method OnJoinVoice(ws: Ws, channel: string)
      requires ws in conns
      modifies this
      ensures Value() == Joined(old(Value()), ws, channel)
    {
      if !conns[ws].authenticated {
        SendEnvelope(ws, Error(401));
        return;
      }
      if conns[ws].room != "" {
        LeaveVoiceRoom(ws, conns[ws].room);
      }
      var sess := conns[ws];
      conns := conns[ws := sess.(room := channel)];
      var ssrc := nextSsrc;
      nextSsrc := Low32(nextSsrc + 1);
      var existing := if channel in rooms then rooms[channel] else [];
      rooms := rooms[channel := existing + [Peer(sess.userId, sess.sessionId, ssrc)]];
      SendEnvelope(ws, PeerJoined(channel, sess.userId, ssrc));
      ReplayPeers(ws, channel, existing);
      SendToPeers(existing, PeerJoined(channel, sess.userId, ssrc));
    }

    // The joiner learns who is already in the room.
    method ReplayPeers(ws: Ws, channel: string, existing: seq<Peer>)
      modifies this`outbox
      ensures outbox == SendAll(old(outbox), ws, Announcements(channel, existing))
    {
      ghost var ms := Announcements(channel, existing);
      for i := 0 to |existing|
        invariant outbox == SendAll(old(outbox), ws, ms[..i])
      {
        assert ms[..i + 1][..i] == ms[..i];
        SendEnvelope(ws, PeerJoined(channel, existing[i].userId, existing[i].ssrc));
      }
      assert ms[..|existing|] == ms;
    }

    method OnLeaveVoice(ws: Ws, channel: string)
      requires ws in conns
      modifies this
      ensures Value() == LeftRoom(old(Value()), ws, channel)
    {
      LeaveVoiceRoom(ws, channel);
    }

    method OnClose(ws: Ws)
      requires ws in conns
      modifies this
      ensures Value() == Closed(old(Value()), ws)
    {
      var sess := conns[ws];
      if sess.room != "" {
        LeaveVoiceRoom(ws, sess.room);
      }
      if sess.sessionId != "" {
        registry := registry - {sess.sessionId};
      }
      conns := conns - {ws};
      outbox := outbox - {ws};
    }
  }
}
