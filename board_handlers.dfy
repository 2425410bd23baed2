/** The older board handlers (server/src/socket/boardHandlers.ts): joining
    and leaving a board update the presence record in place and the room
    index, and `board:update` writes a partial board after its permission
    checks. As in the wired handlers, each registry transition is a
    function over `Presence.State` that the imperative handler follows. */
module BoardHandlers {
  import opened Common
  import opened Presence
  import Gates
  import Storage

  // ----- board:join -----

  /** The "user:joined" payload: the socket's own avatar, unfiltered. */
  function Joined(c: Conn, b: BoardId): (u: UserPresence)
    ensures u.userId == c.userId && u.boardId == Some(b) && u.avatar == c.avatar
  {
    UserPresence(c.userId, c.username, c.avatar, Some(b), None)
  }

  /** The room index once the socket has left the board it was viewing. */
  function Vacate(st: State, s: SocketId): Rooms
  {
    var prev := CurrentBoard(st.presence, s);
    if prev.Some? && prev.value in st.rooms then RoomDelete(st.rooms, prev.value, s) else st.rooms
  }

  /** Both registries after a join past the gates. */
  function Joining(st: State, s: SocketId, b: BoardId, now: Millis): State
  {
    var presence1 := if s in st.presence
      then st.presence[s := st.presence[s].(boardId := Some(b), lastSeen := now)]
      else st.presence;
    State(presence1, RoomAdd(Vacate(st, s), b, s))
  }

  /** `board:join`: after the two gates, the socket leaves the board it
      was viewing (even when that is the board it joins), the record, if
      any, is pointed at the board and stamped, the socket is added to the
      room, and the lists of online users go out. */
  function Join(st: State, boards: map<BoardId, Board>, c: Conn, b: BoardId, now: Millis): Outcome<State>
  {
    var s := c.socket;
    var board := Lookup(boards, b);
    if board.None? then Outcome(st, [ErrorTo(s, "Board not found")])
    else if !Gates.BoardAccess(board, c.userId) then Outcome(st, [ErrorTo(s, "Access denied to this board")])
    else
      var prev := CurrentBoard(st.presence, s);
      var left := if prev.Some? && prev.value in st.rooms then
          [Emission(ToOthers(prev.value, s), UserLeft(c.userId)),
           Emission(ToRoom(prev.value), UsersOnline(OnlineUsers(State(st.presence, Vacate(st, s)), prev.value)))]
        else [];
      var st1 := Joining(st, s, b, now);
      var online := OnlineUsers(st1, b);
      Outcome(st1, left + [Emission(ToOthers(b, s), UserJoined(Joined(c, b))),
                           Emission(ToSocket(s), UsersOnline(online)),
                           Emission(ToRoom(b), UsersOnline(online)),
                           Emission(ToSocket(s), Notification("success", "Joined board: " + board.value.title))])
  }

  /** A missing board and a board the user may not access are refused
      with one error each, and neither registry changes. */
  lemma JoinRejected(st: State, boards: map<BoardId, Board>, c: Conn, b: BoardId, now: Millis)
    ensures b !in boards ==> Join(st, boards, c, b, now) == Outcome(st, [ErrorTo(c.socket, "Board not found")])
    ensures b in boards && !Gates.BoardAccess(Some(boards[b]), c.userId) ==>
      Join(st, boards, c, b, now) == Outcome(st, [ErrorTo(c.socket, "Access denied to this board")])
  {
  }

  /** A join past the gates points the record at the board and stamps it,
      puts the socket in the board's room (created when absent, and kept
      when the socket rejoins the board it was viewing), takes it out of a
      different previous room, and leaves every other room alone. */
  lemma JoinEffect(st: State, boards: map<BoardId, Board>, c: Conn, b: BoardId, now: Millis)
    requires Gates.BoardAccess(Lookup(boards, b), c.userId)
    ensures var r := Join(st, boards, c, b, now).state; var s := c.socket;
      var prev := CurrentBoard(st.presence, s);
      (s in st.presence ==> r.presence == st.presence[s := st.presence[s].(boardId := Some(b), lastSeen := now)])
      && (s !in st.presence ==> r.presence == st.presence)
      && b in r.rooms && s in r.rooms[b]
      && (forall y :: y in Members(st.rooms, b) ==> y in r.rooms[b])
      && (prev.Some? && prev.value != b && prev.value in st.rooms ==>
            prev.value in r.rooms && s !in r.rooms[prev.value]
            && forall y :: y in st.rooms[prev.value] && y != s ==> y in r.rooms[prev.value])
      && (forall k :: k in st.rooms && k != b && Some(k) != prev ==> k in r.rooms && r.rooms[k] == st.rooms[k])
  {
  }

  /** Joining keeps the registries consistent, for a socket with a record
      and a board with a non-empty id. */
  lemma JoinKeepsConsistent(st: State, boards: map<BoardId, Board>, c: Conn, b: BoardId, now: Millis)
    requires Consistent(st)
    requires c.socket in st.presence
    requires b != ""
    ensures Consistent(Join(st, boards, c, b, now).state)
  {
    if Gates.BoardAccess(Lookup(boards, b), c.userId) {
      assert Join(st, boards, c, b, now).state == Joining(st, c.socket, b, now);
      JoiningKeepsConsistent(st, c.socket, b, now);
    }
  }

  lemma JoiningKeepsConsistent(st: State, s: SocketId, b: BoardId, now: Millis)
    requires Consistent(st)
    requires s in st.presence
    requires b != ""
    ensures Consistent(Joining(st, s, b, now))
  {
    var r := Joining(st, s, b, now);
    var prev := st.presence[s].boardId;
    forall k | k in r.rooms && k != b ensures s !in r.rooms[k] {
      if s in st.rooms[k] {
        assert st.presence[s].boardId == Some(k);
      }
    }
    forall k, x | k in r.rooms && x in r.rooms[k]
      ensures x in r.presence && r.presence[x].boardId == Some(k)
    {
      if x != s {
        assert x in st.rooms[k];
      }
    }
    forall x | x in r.presence && r.presence[x].boardId.Some?
      ensures r.presence[x].boardId.value != ""
        && r.presence[x].boardId.value in r.rooms && x in r.rooms[r.presence[x].boardId.value]
    {
      if x != s {
        var k := st.presence[x].boardId.value;
        assert x in st.rooms[k];
        if k != b && Some(k) == prev {
          assert x != s;
        }
      }
    }
  }

  /** Without a record a join still adds the socket to the room, where no
      record backs it: the registries disagree afterwards. */
  lemma JoinWithoutRecordBreaksConsistency()
    ensures var boards := map["b" := Board("b", "Plan", None, "u", ["u"], 0, 0)];
      var st := State(map[], map[]);
      Consistent(st) && !Consistent(Join(st, boards, Conn("s", "u", "Ann", None), "b", 0).state)
  {
    var boards := map["b" := Board("b", "Plan", None, "u", ["u"], 0, 0)];
    var r := Join(State(map[], map[]), boards, Conn("s", "u", "Ann", None), "b", 0).state;
    assert "s" in r.rooms["b"] && "s" !in r.presence;
  }

  // ----- board:leave -----

  /** `board:leave`: the record's board is cleared only when it is the
      board being left; the socket leaves the room, which is dropped once
      empty; the others are told, and the room gets its new list. */
  function Leave(st: State, c: Conn, b: BoardId): Outcome<State>
  {
    var s := c.socket;
    var presence1 := if s in st.presence && st.presence[s].boardId == Some(b)
      then st.presence[s := st.presence[s].(boardId := None)]
      else st.presence;
    var st1 := State(presence1, RoomLeave(st.rooms, b, s));
    Outcome(st1, [Emission(ToOthers(b, s), UserLeft(c.userId)),
                  Emission(ToRoom(b), UsersOnline(OnlineUsers(st1, b)))])
  }

  /** After a leave the socket is not in the room and its record is on no
      board exactly when it was on the board left; any other board stays
      as it was; a second identical leave changes no state. */
  lemma LeaveEffect(st: State, c: Conn, b: BoardId)
    ensures var r := Leave(st, c, b).state; var s := c.socket;
      r.presence.Keys == st.presence.Keys
      && (s in st.presence && st.presence[s].boardId == Some(b) ==> r.presence[s].boardId.None?)
      && (s in st.presence && st.presence[s].boardId != Some(b) ==> r.presence[s] == st.presence[s])
      && (forall x :: x in st.presence && x != s ==> r.presence[x] == st.presence[x])
      && (b in r.rooms ==> s !in r.rooms[b])
      && Leave(r, c, b).state == r
  {
    RoomLeaveIdempotent(st.rooms, b, c.socket);
  }

  /** Unlike the wired handler's leave, this one keeps the registries
      consistent whatever board the socket was viewing. */
  lemma LeaveKeepsConsistent(st: State, c: Conn, b: BoardId)
    requires Consistent(st)
    ensures Consistent(Leave(st, c, b).state)
  {
    var s := c.socket;
    var r := Leave(st, c, b).state;
    forall k, x | k in r.rooms && x in r.rooms[k]
      ensures x in r.presence && r.presence[x].boardId == Some(k)
    {
      assert x in st.rooms[k];
    }
    forall x | x in r.presence && r.presence[x].boardId.Some?
      ensures r.presence[x].boardId.value in r.rooms && x in r.rooms[r.presence[x].boardId.value]
    {
      var k := r.presence[x].boardId.value;
      assert st.presence[x].boardId == Some(k);
      assert x in st.rooms[k];
      if k == b {
        assert x != s;
        assert b in RoomLeave(st.rooms, b, s) && x in RoomLeave(st.rooms, b, s)[b];
      }
    }
  }

  // ----- board:update -----

  /** The checks `board:update` makes before writing, as written: a
      missing board, a user who is neither owner nor member, and a members
      change by a non-owner are refused. None means the update goes
      ahead. */
  function UpdateDenial(board: Option<Board>, u: UserId, patch: Storage.BoardPatch): (r: Option<string>)
    ensures board.None? ==> r == Some("Board not found")
    ensures board.Some? && !Gates.BoardAccess(board, u) ==> r == Some("Permission denied")
    ensures Gates.BoardAccess(board, u) && patch.members.Some? && board.value.ownerId != u ==>
      r == Some("Only board owner can update members")
    ensures r.None? <==> Gates.BoardAccess(board, u) && (patch.members.None? || board.value.ownerId == u)
  {
    if board.None? then Some("Board not found")
    else if board.value.ownerId != u && u !in board.value.members then Some("Permission denied")
    else if patch.members.Some? && board.value.ownerId != u then Some("Only board owner can update members")
    else None
  }

  /** The same checks with the owner field treated like the member list:
      only the owner may hand the board to someone else. */
  function GuardedUpdateDenial(board: Option<Board>, u: UserId, patch: Storage.BoardPatch): (r: Option<string>)
    ensures r.None? ==> UpdateDenial(board, u, patch).None?
  {
    var denial := UpdateDenial(board, u, patch);
    if denial.Some? then denial
    else if patch.ownerId.Some? && patch.ownerId.value != board.value.ownerId && board.value.ownerId != u then
      Some("Only board owner can change the owner")
    else None
  }

  /** A member who is not the owner may send `{ ownerId: self }`: the
      checks let it through, the member becomes the owner, and may then
      drop the former owner from the members, who loses all access. */
  lemma OwnerTakeover()
    ensures var b0 := Board("b", "Plan", None, "o", ["o", "m"], 0, 0);
      var grab := Storage.BoardPatch(None, None, Some("m"), None);
      var b1 := Storage.ApplyBoardPatch(b0, grab, 1);
      var purge := Storage.BoardPatch(None, None, None, Some(["m"]));
      var b2 := Storage.ApplyBoardPatch(b1, purge, 2);
      UpdateDenial(Some(b0), "m", grab).None? && b1.ownerId == "m"
      && UpdateDenial(Some(b1), "m", purge).None?
      && Gates.BoardAccess(Some(b0), "o") && !Gates.BoardAccess(Some(b2), "o")
      && GuardedUpdateDenial(Some(b0), "m", grab).Some?
  {
  }

  /** With the owner field guarded, an update that goes ahead changes the
      owner and the member list only when the owner sends it. */
  lemma {:induction false} GuardedKeepsOwnership(board: Board, u: UserId, patch: Storage.BoardPatch, now: Millis)
    requires GuardedUpdateDenial(Some(board), u, patch).None?
    ensures var r := Storage.ApplyBoardPatch(board, patch, now);
      (r.ownerId == board.ownerId || u == board.ownerId)
      && (r.members == board.members || u == board.ownerId)
  {
    assert UpdateDenial(Some(board), u, patch).None?;
  }

  /** Title and description changes by any member pass both versions of
      the checks. */
  lemma MembersMayRename(board: Board, u: UserId, title: Option<string>, description: Option<string>)
    requires u in board.members
    ensures UpdateDenial(Some(board), u, Storage.BoardPatch(title, description, None, None)).None?
    ensures GuardedUpdateDenial(Some(board), u, Storage.BoardPatch(title, description, None, None)).None?
  {
  }

  // ----- Imperative handlers -----

  method HandleJoin(reg: Registry, boards: map<BoardId, Board>, c: Conn, b: BoardId, now: Millis)
    returns (out: seq<Emission>)
    modifies reg
    ensures var o := Join(old(reg.Snapshot()), boards, c, b, now); reg.Snapshot() == o.state && out == o.out
  {
    var s := c.socket;
    var board := Lookup(boards, b);
    if board.None? {
      return [ErrorTo(s, "Board not found")];
    }
    if !Gates.BoardAccess(board, c.userId) {
      return [ErrorTo(s, "Access denied to this board")];
    }
    out := [];
    var prev := CurrentBoard(reg.presence, s);
    if prev.Some? && prev.value in reg.rooms {
      var p := prev.value;
      reg.rooms := reg.rooms[p := SetDelete(reg.rooms[p], s)];
      assert reg.rooms == RoomDelete(old(reg.rooms), p, s);
      out := [Emission(ToOthers(p, s), UserLeft(c.userId)),
              Emission(ToRoom(p), UsersOnline(OnlineUsers(reg.Snapshot(), p)))];
    }
    ghost var rooms1 := reg.rooms;
    if s in reg.presence {
      reg.presence := reg.presence[s := reg.presence[s].(boardId := Some(b), lastSeen := now)];
    }
    if b !in reg.rooms {
      reg.rooms := reg.rooms[b := []];
    }
    reg.rooms := reg.rooms[b := SetAdd(reg.rooms[b], s)];
    assert reg.rooms == RoomAdd(rooms1, b, s);
    var online := OnlineUsers(reg.Snapshot(), b);
    out := out + [Emission(ToOthers(b, s), UserJoined(Joined(c, b))),
                  Emission(ToSocket(s), UsersOnline(online)),
                  Emission(ToRoom(b), UsersOnline(online)),
                  Emission(ToSocket(s), Notification("success", "Joined board: " + board.value.title))];
  }

  method HandleLeave(reg: Registry, c: Conn, b: BoardId) returns (out: seq<Emission>)
    modifies reg
    ensures var o := Leave(old(reg.Snapshot()), c, b); reg.Snapshot() == o.state && out == o.out
  {
    var s := c.socket;
    if s in reg.presence && reg.presence[s].boardId == Some(b) {
      reg.presence := reg.presence[s := reg.presence[s].(boardId := None)];
    }
    if b in reg.rooms {
      var left := SetDelete(reg.rooms[b], s);
      if |left| == 0 {
        reg.rooms := reg.rooms - {b};
      } else {
        reg.rooms := reg.rooms[b := left];
      }
    }
    out := [Emission(ToOthers(b, s), UserLeft(c.userId)),
            Emission(ToRoom(b), UsersOnline(OnlineUsers(reg.Snapshot(), b)))];
  }

  /** `board:update`: past the checks the partial board is written as
      given and announced to the room, with a notice to the sender. */
  method HandleUpdate(store: Storage.Store, c: Conn, b: BoardId, patch: Storage.BoardPatch, now: Millis)
    returns (out: seq<Emission>)
    modifies store`boards
    ensures var denial := UpdateDenial(Lookup(old(store.boards), b), c.userId, patch);
      if denial.Some? then out == [ErrorTo(c.socket, denial.value)] && store.boards == old(store.boards)
      else
        var updated := Storage.ApplyBoardPatch(old(store.boards)[b], patch, now);
        store.boards == old(store.boards)[b := updated]
        && out == [Emission(ToRoom(b), BoardUpdated(updated)),
                   Emission(ToSocket(c.socket), Notification("success", "Board updated successfully"))]
  {
    var denial := UpdateDenial(Lookup(store.boards, b), c.userId, patch);
    if denial.Some? {
      return [ErrorTo(c.socket, denial.value)];
    }
    var updated := store.UpdateBoard(b, patch, now);
    if updated.None? {
      assert false;
      return [ErrorTo(c.socket, "Failed to update board")];
    }
    out := [Emission(ToRoom(b), BoardUpdated(updated.value)),
            Emission(ToSocket(c.socket), Notification("success", "Board updated successfully"))];
  }
}
