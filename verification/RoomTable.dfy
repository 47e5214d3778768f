/** The relay's table of rooms, and the packet log it stands for. */
module RoomTable {
  import opened Words

  type RoomId = U64
  type PeerId = U32
  type Time = int
  datatype Addr = Addr(ip: U32, port: U16)

  datatype Entry = Entry(addr: Addr, lastSeen: Time)

  type Rooms = map<RoomId, map<PeerId, Entry>>

  // ---- one call ----

  function RoomAt(rooms: Rooms, r: RoomId): map<PeerId, Entry>
  {
    if r in rooms then rooms[r] else map[]
  }

  function Lookup(rooms: Rooms, r: RoomId, p: PeerId): Option<Entry>
  {
    if p in RoomAt(rooms, r) then Some(RoomAt(rooms, r)[p]) else None
  }

  predicate Stale(e: Entry, ttl: int, now: Time) { now - e.lastSeen > ttl }

  function Kept(peers: map<PeerId, Entry>, ttl: int, now: Time): map<PeerId, Entry>
  {
    map p | p in peers && !Stale(peers[p], ttl, now) :: peers[p]
  }

  datatype Call = Packet(room: RoomId, peer: PeerId, src: Addr, now: Time) | Reap(ttl: int, now: Time)

  function After(rooms: Rooms, c: Call): Rooms
  {
    match c
    case Packet(r, p, src, now) => rooms[r := RoomAt(rooms, r)[p := Entry(src, now)]]
    case Reap(ttl, now) => map r | r in rooms && Kept(rooms[r], ttl, now) != map[] :: Kept(rooms[r], ttl, now)
  }

  lemma LookupAfter(rooms: Rooms, c: Call, r: RoomId, p: PeerId)
    ensures var before := Lookup(rooms, r, p);
      Lookup(After(rooms, c), r, p) ==
        if c.Packet? && c.room == r && c.peer == p then Some(Entry(c.src, c.now))
        else if c.Reap? && before.Some? && Stale(before.value, c.ttl, c.now) then None
        else before
  {
    if c.Reap? && r in rooms {
      assert p in Kept(rooms[r], c.ttl, c.now) ==> Kept(rooms[r], c.ttl, c.now) != map[];
    }
  }

  // ---- the packet log ----

  function TableAfter(log: seq<Call>): Rooms
  {
    if log == [] then map[] else After(TableAfter(log[..|log| - 1]), log[|log| - 1])
  }

  predicate IsFrom(c: Call, r: RoomId, p: PeerId) { c.Packet? && c.room == r && c.peer == p }

  /** The i-th call was the peer's latest packet, and no reap since came more than its ttl later. */
  ghost predicate Live(log: seq<Call>, r: RoomId, p: PeerId, i: nat)
  {
    && i < |log| && IsFrom(log[i], r, p)
    && forall j :: i < j < |log| ==> !IsFrom(log[j], r, p) && !(log[j].Reap? && log[j].now - log[i].now > log[j].ttl)
  }

  ghost predicate Present(log: seq<Call>, r: RoomId, p: PeerId)
  {
    exists i :: Live(log, r, p, i)
  }

  lemma LiveBefore(log: seq<Call>, c: Call, r: RoomId, p: PeerId, i: nat)
    ensures Live(log + [c], r, p, i) <==>
      (i == |log| && IsFrom(c, r, p))
      || (Live(log, r, p, i) && !IsFrom(c, r, p) && !(c.Reap? && c.now - log[i].now > c.ttl))
  {
    var t := log + [c];
    assert forall j :: 0 <= j < |log| ==> t[j] == log[j];
    assert t[|log|] == c;
    if Live(t, r, p, i) && i < |log| {
      assert forall j :: i < j < |log| ==> !IsFrom(t[j], r, p) && !(t[j].Reap? && t[j].now - t[i].now > t[j].ttl);
    }
  }

  /** The table is the log: a peer has an entry exactly when its latest packet was not followed by a reap
      more than the ttl later, and the entry is that packet's address and time. */
  lemma {:induction false} TableIsLog(log: seq<Call>, r: RoomId, p: PeerId)
    ensures Lookup(TableAfter(log), r, p).Some? <==> Present(log, r, p)
    ensures forall i: nat :: Live(log, r, p, i) ==> Lookup(TableAfter(log), r, p) == Some(Entry(log[i].src, log[i].now))
    decreases |log|
  {
    hide After, Lookup;
    if log == [] {
      NoEntry(r, p);
    } else {
      var front, c := log[..|log| - 1], log[|log| - 1];
      assert log == front + [c];
      TableIsLog(front, r, p);
      LookupAfter(TableAfter(front), c, r, p);
      forall i: nat ensures Live(log, r, p, i) <==>
          (i == |front| && IsFrom(c, r, p))
          || (Live(front, r, p, i) && !IsFrom(c, r, p) && !(c.Reap? && c.now - front[i].now > c.ttl))
      {
        LiveBefore(front, c, r, p, i);
      }
      assert forall i: nat :: i < |front| ==> front[i] == log[i];
      if IsFrom(c, r, p) {
        assert Live(log, r, p, |front|);
      } else if i: nat :| Live(front, r, p, i) {
        OneLatest(front, r, p, i);
        assert Live(log, r, p, i) || !Present(log, r, p);
      }
    }
  }

  lemma NoEntry(r: RoomId, p: PeerId)
    ensures Lookup(map[], r, p) == None
  {
  }

  lemma OneLatest(log: seq<Call>, r: RoomId, p: PeerId, i: nat)
    requires Live(log, r, p, i)
    ensures forall k :: Live(log, r, p, k) ==> k == i
  {
  }

  lemma {:induction false} NoEmptyRoom(log: seq<Call>)
    ensures forall r :: r in TableAfter(log) ==> TableAfter(log)[r] != map[]
    decreases |log|
  {
    if log == [] {
    } else {
      NoEmptyRoom(log[..|log| - 1]);
      if log[|log| - 1].Packet? {
        var c := log[|log| - 1];
        assert c.peer in TableAfter(log)[c.room];
      }
    }
  }

  // ---- recipients ----

  /** The other peers of a room and where to reach them. */
  function Recipients(rooms: Rooms, r: RoomId, p: PeerId): map<PeerId, Addr>
  {
    map q | q in RoomAt(rooms, r) && q != p :: RoomAt(rooms, r)[q].addr
  }

  /** A packet goes to exactly the other peers of its room that are present, each at the address of its
      latest packet. */
  lemma RecipientsAreLatest(log: seq<Call>, r: RoomId, p: PeerId, q: PeerId)
    ensures q in Recipients(TableAfter(log), r, p) <==> q != p && Present(log, r, q)
    ensures q in Recipients(TableAfter(log), r, p) ==>
      exists i: nat :: Live(log, r, q, i) && Recipients(TableAfter(log), r, p)[q] == log[i].src
  {
    TableIsLog(log, r, q);
  }

  /** A list of addresses covers the recipients, one each, in some order. */
  ghost predicate Covers(addrs: seq<Addr>, order: seq<PeerId>, recipients: map<PeerId, Addr>)
  {
    && |addrs| == |order|
    && (forall i, j :: 0 <= i < j < |order| ==> order[i] != order[j])
    && (forall q :: q in order <==> q in recipients)
    && (forall i :: 0 <= i < |order| ==> order[i] in recipients && addrs[i] == recipients[order[i]])
  }

  // ---- counting ----

  ghost function Peers(rooms: Rooms): set<(RoomId, PeerId)>
  {
    set r, p | r in rooms && p in rooms[r] :: (r, p)
  }

  ghost function Pairs(r: RoomId, ps: set<PeerId>): set<(RoomId, PeerId)>
  {
    set p | p in ps :: (r, p)
  }

  lemma {:induction false} PairCount(r: RoomId, ps: set<PeerId>)
    ensures |Pairs(r, ps)| == |ps|
    decreases |ps|
  {
    if ps == {} {
    } else {
      var q :| q in ps;
      PairCount(r, ps - {q});
      assert Pairs(r, ps) == Pairs(r, ps - {q}) + {(r, q)};
    }
  }

  lemma RoomSplit(rooms: Rooms, r: RoomId)
    requires r in rooms
    ensures |Peers(rooms)| == |Peers(rooms - {r})| + |rooms[r]|
  {
    hide Peers, Pairs;
    PairCount(r, rooms[r].Keys);
    PeersSplit(rooms, r);
    DisjointCount(Peers(rooms - {r}), Pairs(r, rooms[r].Keys));
    assert |rooms[r].Keys| == |rooms[r]|;
  }

  lemma PeersSplit(rooms: Rooms, r: RoomId)
    requires r in rooms
    ensures Peers(rooms) == Peers(rooms - {r}) + Pairs(r, rooms[r].Keys)
    ensures Peers(rooms - {r}) !! Pairs(r, rooms[r].Keys)
  {
  }

  lemma DisjointCount<T>(a: set<T>, b: set<T>)
    requires a !! b
    ensures |a + b| == |a| + |b|
  {
  }

  lemma ReplacedRoom(rooms: Rooms, r: RoomId, peers: map<PeerId, Entry>)
    requires r in rooms
    ensures |Peers(rooms[r := peers])| == |Peers(rooms)| - |rooms[r]| + |peers|
    ensures |Peers(rooms - {r})| == |Peers(rooms)| - |rooms[r]|
  {
    RoomSplit(rooms, r);
    RoomSplit(rooms[r := peers], r);
    assert rooms[r := peers] - {r} == rooms - {r};
  }

  // ---- the class ----

  class RoomTable {
    var rooms: Rooms
    ghost var log: seq<Call>

    ghost predicate Valid()
      reads this
    {
      rooms == TableAfter(log)
    }

    constructor ()
      ensures Valid() && log == []
    {
      rooms, log := map[], [];
    }

    method OnPacket(r: RoomId, p: PeerId, src: Addr, now: Time) returns (addrs: seq<Addr>, ghost order: seq<PeerId>)
      requires Valid()
      modifies this
      ensures Valid() && log == old(log) + [Packet(r, p, src, now)]
      ensures rooms == After(old(rooms), Packet(r, p, src, now))
      ensures Covers(addrs, order, Recipients(rooms, r, p))
    {
      var room: map<PeerId, Entry> := if r in rooms then rooms[r] else map[];
      room := room[p := Entry(src, now)];
      rooms := rooms[r := room];
      log := log + [Packet(r, p, src, now)];
      assert log[..|log| - 1] == old(log);
      addrs, order := [], [];
      var todo := room.Keys;
      while todo != {}
        invariant todo <= room.Keys
        invariant |addrs| == |order|
        invariant forall i, j :: 0 <= i < j < |order| ==> order[i] != order[j]
        invariant forall q :: q in order <==> q in room && q !in todo && q != p
        invariant forall i :: 0 <= i < |order| ==> order[i] in room && addrs[i] == room[order[i]].addr
        decreases todo
      {
        var q :| q in todo;
        todo := todo - {q};
        if q != p {
          addrs := addrs + [room[q].addr];
          order := order + [q];
        }
      }
    }

    method ReapExpired(ttl: int, now: Time) returns (dropped: nat)
      requires Valid()
      modifies this
      ensures Valid() && log == old(log) + [Reap(ttl, now)]
      ensures rooms == After(old(rooms), Reap(ttl, now))
      ensures dropped == |Peers(old(rooms))| - |Peers(rooms)|
    {
      hide Kept, Peers;
      ghost var was, goal := rooms, After(rooms, Reap(ttl, now));
      dropped := 0;
      var todo := rooms.Keys;
      while todo != {}
        invariant log == old(log) && todo <= rooms.Keys && rooms.Keys <= was.Keys
        invariant forall r :: r in todo ==> r in was && rooms[r] == was[r]
        invariant forall r :: r in rooms && r !in todo ==> r in goal && rooms[r] == goal[r]
        invariant forall r :: r in goal ==> r in rooms
        invariant dropped == |Peers(was)| - |Peers(rooms)|
        decreases todo
      {
        var r :| r in todo;
        todo := todo - {r};
        var kept, n := ReapRoom(rooms[r], ttl, now);
        ReplacedRoom(rooms, r, kept);
        dropped := dropped + n;
        rooms := if kept == map[] then rooms - {r} else rooms[r := kept];
      }
      assert rooms == goal;
      log := log + [Reap(ttl, now)];
      assert log[..|log| - 1] == old(log);
    }

    // Erases the stale peers of one room.
    method ReapRoom(peers: map<PeerId, Entry>, ttl: int, now: Time) returns (kept: map<PeerId, Entry>, n: nat)
      ensures kept == Kept(peers, ttl, now) && n == |peers| - |kept|
    {
      kept, n := peers, 0;
      var todo := peers.Keys;
      while todo != {}
        invariant todo <= kept.Keys <= peers.Keys
        invariant forall p :: p in kept ==> kept[p] == peers[p]
        invariant forall p :: p in peers && p !in todo ==> (p in kept <==> !Stale(peers[p], ttl, now))
        invariant n == |peers.Keys| - |kept.Keys|
        decreases todo
      {
        var p :| p in todo;
        todo := todo - {p};
        if Stale(kept[p], ttl, now) {
          assert kept.Keys - {p} == (kept - {p}).Keys;
          kept := kept - {p};
          n := n + 1;
        }
      }
      assert |kept| == |kept.Keys| && |peers| == |peers.Keys|;
    }

    method PeerCount() returns (n: nat)
      ensures n == |Peers(rooms)|
    {
      n := 0;
      var todo := rooms;
      while todo != map[]
        invariant n + |Peers(todo)| == |Peers(rooms)|
        invariant todo.Keys <= rooms.Keys && forall r :: r in todo ==> todo[r] == rooms[r]
        decreases todo.Keys
      {
        var r :| r in todo;
        RoomSplit(todo, r);
        n := n + |todo[r]|;
        todo := todo - {r};
      }
    }
  }
}
