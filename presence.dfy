/** The server's presence registry and room index (server/src/socket/utils.ts):
    `userPresence` maps a socket id to a presence record and `boardRooms`
    maps a board id to the set of socket ids viewing it. A JavaScript Set is
    modelled as a duplicate-free sequence in insertion order, which is the
    order `Array.from` reads it in. */
module Presence {
  import opened Common
  import Seqs

  datatype PresenceRecord = PresenceRecord(
    socketId: SocketId,
    userId: UserId,
    username: string,
    avatar: Option<string>,
    boardId: Option<BoardId>,
    lastSeen: Millis)

  type PresenceMap = map<SocketId, PresenceRecord>
  type Rooms = map<BoardId, seq<SocketId>>

  /** Both registries together. */
  datatype State = State(presence: PresenceMap, rooms: Rooms)

  // ----- Set operations on a room -----

  /** `Set.prototype.add`: appends unless already present. */
  function SetAdd(s: seq<SocketId>, x: SocketId): (r: seq<SocketId>)
    ensures forall y :: y in r <==> y in s || y == x
    ensures Seqs.NoDup(s) ==> Seqs.NoDup(r)
    ensures x in s ==> r == s
    ensures x !in s ==> r == s + [x]
  {
    if x in s then s else s + [x]
  }

  /** `Set.prototype.delete`: removes the element, keeping the order of the
      others. */
  function SetDelete(s: seq<SocketId>, x: SocketId): (r: seq<SocketId>)
    ensures forall y :: y in r <==> y in s && y != x
    ensures Seqs.NoDup(s) ==> Seqs.NoDup(r)
    ensures x !in s ==> r == s
  {
    SetDeleteFacts(s, x);
    Seqs.Filter(s, (y: SocketId) => y != x)
  }

  lemma SetDeleteFacts(s: seq<SocketId>, x: SocketId)
    ensures var r := Seqs.Filter(s, (y: SocketId) => y != x);
      (forall y :: y in r <==> y in s && y != x)
      && (Seqs.NoDup(s) ==> Seqs.NoDup(r))
      && (x !in s ==> r == s)
  {
    var keep := (y: SocketId) => y != x;
    Seqs.FilterMembers(s, keep);
    if Seqs.NoDup(s) {
      Seqs.FilterNoDup(s, keep);
    }
    if x !in s {
      Seqs.FilterAll(s, keep);
    }
  }

  /** The members of a room; no room entry reads as no members. */
  function Members(rooms: Rooms, b: BoardId): seq<SocketId>
  {
    if b in rooms then rooms[b] else []
  }

  /** Joining a room: create the set when absent, then add the socket. */
  function RoomAdd(rooms: Rooms, b: BoardId, s: SocketId): (r: Rooms)
    ensures r.Keys == rooms.Keys + {b}
    ensures forall y :: y in r[b] <==> y in Members(rooms, b) || y == s
    ensures forall k :: k in rooms && k != b ==> r[k] == rooms[k]
  {
    rooms[b := SetAdd(Members(rooms, b), s)]
  }

  /** Deleting the socket from an existing room without removing the room
      when it becomes empty. */
  function RoomDelete(rooms: Rooms, b: BoardId, s: SocketId): (r: Rooms)
    ensures r.Keys == rooms.Keys
    ensures b in rooms ==> forall y :: y in r[b] <==> y in rooms[b] && y != s
    ensures forall k :: k in rooms && k != b ==> r[k] == rooms[k]
  {
    if b in rooms then rooms[b := SetDelete(rooms[b], s)] else rooms
  }

  /** Deleting the socket from a room and removing the room once empty. */
  function RoomLeave(rooms: Rooms, b: BoardId, s: SocketId): (r: Rooms)
    ensures b in r ==> b in rooms && r[b] != [] && forall y :: y in r[b] <==> y in rooms[b] && y != s
    ensures b in rooms && b !in r ==> forall y :: y in rooms[b] ==> y == s
    ensures r.Keys <= rooms.Keys
    ensures forall k :: k in rooms && k != b ==> k in r && r[k] == rooms[k]
  {
    if b !in rooms then rooms
    else
      var left := SetDelete(rooms[b], s);
      if |left| == 0 then rooms - {b} else rooms[b := left]
  }

  /** Leaving twice is leaving once. */
  lemma RoomLeaveIdempotent(rooms: Rooms, b: BoardId, s: SocketId)
    ensures RoomLeave(RoomLeave(rooms, b, s), b, s) == RoomLeave(rooms, b, s)
  {
    var r := RoomLeave(rooms, b, s);
    if b in r {
      assert s !in r[b];
      assert SetDelete(r[b], s) == r[b];
    }
  }

  // ----- Queries -----

  /** The payload entry `getOnlineUsersInBoard` builds from one record:
      the avatar only when it is set and not empty. */
  function Entry(p: PresenceRecord): (u: UserPresence)
    ensures u.userId == p.userId && u.username == p.username && u.boardId == p.boardId
    ensures u.avatar.Some? <==> Truthy(p.avatar)
    ensures u.avatar.Some? ==> u.avatar == p.avatar
  {
    UserPresence(p.userId, p.username, if Truthy(p.avatar) then p.avatar else None, p.boardId, None)
  }

  /** The room members that have a presence record, in room order. */
  function Known(presence: PresenceMap, ids: seq<SocketId>): seq<SocketId>
  {
    Seqs.Filter(ids, (s: SocketId) => s in presence)
  }

  /** `.map(get).filter(defined).map(entry)` over the members of a room. */
  function Project(presence: PresenceMap, ids: seq<SocketId>): (r: seq<UserPresence>)
    ensures |r| == |Known(presence, ids)|
    ensures forall i :: 0 <= i < |r| ==>
      var s := Known(presence, ids)[i]; s in presence && r[i] == Entry(presence[s])
  {
    if ids == [] then []
    else if ids[0] in presence then [Entry(presence[ids[0]])] + Project(presence, ids[1..])
    else Project(presence, ids[1..])
  }

  /** `getOnlineUsersInBoard(b)`. */
  function OnlineUsers(st: State, b: BoardId): seq<UserPresence>
  {
    if b !in st.rooms then [] else Project(st.presence, st.rooms[b])
  }

  /** No room entry gives the empty list; otherwise one entry per member
      with a record, members without one dropped, so never more entries
      than members; every entry is built from a member's record, and every
      member's record contributes one. */
  lemma OnlineUsersShape(st: State, b: BoardId)
    ensures b !in st.rooms ==> OnlineUsers(st, b) == []
    ensures |OnlineUsers(st, b)| <= |Members(st.rooms, b)|
    ensures forall u :: u in OnlineUsers(st, b) <==>
      exists s :: s in Members(st.rooms, b) && s in st.presence && u == Entry(st.presence[s])
  {
    var ids := Members(st.rooms, b);
    var known := Known(st.presence, ids);
    var r := OnlineUsers(st, b);
    Seqs.FilterMembers(ids, (s: SocketId) => s in st.presence);
    if b in st.rooms {
      forall u ensures u in r <==> exists s :: s in ids && s in st.presence && u == Entry(st.presence[s]) {
        if u in r {
          var i :| 0 <= i < |r| && r[i] == u;
          assert known[i] in known;
        }
        if exists s :: s in ids && s in st.presence && u == Entry(st.presence[s]) {
          var s :| s in ids && s in st.presence && u == Entry(st.presence[s]);
          assert s in known;
          var i :| 0 <= i < |known| && known[i] == s;
          assert r[i] == u;
        }
      }
    }
  }

  /** No deduplication by user: one user with two sockets in a room is
      listed twice. */
  lemma OnlineUsersKeepsDuplicates()
    ensures var rec1 := PresenceRecord("s1", "u", "Ann", None, Some("b"), 0);
      var rec2 := PresenceRecord("s2", "u", "Ann", None, Some("b"), 0);
      var st := State(map["s1" := rec1, "s2" := rec2], map["b" := ["s1", "s2"]]);
      OnlineUsers(st, "b") == [Entry(rec1), Entry(rec2)] && Entry(rec1) == Entry(rec2)
  {
    var rec1 := PresenceRecord("s1", "u", "Ann", None, Some("b"), 0);
    var rec2 := PresenceRecord("s2", "u", "Ann", None, Some("b"), 0);
    var ids: seq<SocketId> := ["s1", "s2"];
    assert ids[1..] == ["s2"];
    assert ids[1..][1..] == [];
  }

  /** `getUserBoardId` / `userInfo?.boardId`: the board a socket is viewing,
      when its record holds a non-empty one. */
  function CurrentBoard(presence: PresenceMap, s: SocketId): (r: Option<BoardId>)
    ensures r.Some? <==> s in presence && Truthy(presence[s].boardId)
    ensures r.Some? ==> r == presence[s].boardId && r.value != ""
  {
    if s in presence && Truthy(presence[s].boardId) then presence[s].boardId else None
  }

  /** The two registries agree: every room member has a record naming that
      room as its board, every record naming a board is a member of its
      room, no record names the empty board, and no room lists a socket
      twice. */
  ghost predicate Consistent(st: State)
  {
    (forall b, s :: b in st.rooms && s in st.rooms[b] ==>
       s in st.presence && st.presence[s].boardId == Some(b))
    && (forall s :: s in st.presence && st.presence[s].boardId.Some? ==>
          st.presence[s].boardId.value != ""
          && st.presence[s].boardId.value in st.rooms
          && s in st.rooms[st.presence[s].boardId.value])
    && (forall b :: b in st.rooms ==> Seqs.NoDup(st.rooms[b]))
  }

  /** On consistent registries `getOnlineUsersInBoard(b)` lists exactly the
      sockets whose record names b. */
  lemma OnlineUsersOfConsistent(st: State, b: BoardId)
    requires Consistent(st)
    ensures forall u :: u in OnlineUsers(st, b) <==>
      exists s :: s in st.presence && st.presence[s].boardId == Some(b) && u == Entry(st.presence[s])
  {
    OnlineUsersShape(st, b);
  }

  /** The mutable registries. */
  class Registry {
    var presence: PresenceMap
    var rooms: Rooms

    constructor ()
      ensures presence == map[] && rooms == map[]
    {
      presence := map[];
      rooms := map[];
    }

    function Snapshot(): State
      reads this
    {
      State(presence, rooms)
    }

    /** `getSocketsByUserId(u)`: exactly the sockets whose record belongs to
        u, each once. */
    method SocketsByUserId(u: UserId) returns (r: seq<SocketId>)
      ensures forall s :: s in r <==> s in presence && presence[s].userId == u
      ensures Seqs.NoDup(r)
    {
      r := [];
      var rest := presence.Keys;
      while rest != {}
        invariant rest <= presence.Keys
        invariant forall s :: s in r <==> s in presence && s !in rest && presence[s].userId == u
        invariant Seqs.NoDup(r)
        decreases rest
      {
        var s :| s in rest;
        if presence[s].userId == u {
          r := r + [s];
        }
        rest := rest - {s};
      }
    }
  }
}
