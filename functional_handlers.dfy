/** The wired socket handlers (server/src/socket/functional-handlers.ts):
    connect, board join and leave, disconnect, the four task handlers, chat
    and cursor relays, and the error wrapper around them. Each handler is
    one atomic step over the registries and the store and returns the
    events it emits. The registry transitions are given as functions over
    `Presence.State`, which the imperative handlers are proved to follow. */
module FunctionalHandlers {
  import opened Common
  import opened Presence
  import Seqs
  import Gates
  import Reindex
  import TaskModel
  import Storage

  /** `withSocketErrorHandling`: a handler body that fails yields exactly
      one "error" event to the originating socket, carrying the handler's
      message; one that completes yields its own events. */
  function Guarded(s: SocketId, body: Result<seq<Emission>>, message: string): (r: seq<Emission>)
    ensures body.Failure? ==> r == [ErrorTo(s, message)]
    ensures body.Ok? ==> r == body.value
  {
    if body.Failure? then [ErrorTo(s, message)] else body.value
  }

  // ----- Connection lifecycle -----

  /** The record a new connection registers: the avatar only when set, no
      board, seen now. */
  function FreshRecord(c: Conn, now: Millis): (p: PresenceRecord)
    ensures p.socketId == c.socket && p.userId == c.userId && p.boardId.None?
  {
    PresenceRecord(c.socket, c.userId, c.username, if Truthy(c.avatar) then c.avatar else None, None, now)
  }

  function Connect(st: State, c: Conn, now: Millis): State
  {
    State(st.presence[c.socket := FreshRecord(c, now)], st.rooms)
  }

  /** Disconnect: leave the current board's room (dropping it when empty)
      with a "user:left" to the others, then always forget the record. */
  function Disconnect(st: State, c: Conn): Outcome<State>
  {
    var s := c.socket;
    var board := CurrentBoard(st.presence, s);
    if board.Some? then
      Outcome(State(st.presence - {s}, RoomLeave(st.rooms, board.value, s)),
              [Emission(ToOthers(board.value, s), UserLeft(c.userId))])
    else
      Outcome(State(st.presence - {s}, st.rooms), [])
  }

  /** Connecting a fresh socket keeps the registries consistent, and the
      socket starts on no board. */
  lemma ConnectKeepsConsistent(st: State, c: Conn, now: Millis)
    requires Consistent(st)
    requires c.socket !in st.presence
    ensures Consistent(Connect(st, c, now))
    ensures CurrentBoard(Connect(st, c, now).presence, c.socket).None?
  {
  }

  /** Disconnecting leaves no trace of the socket on consistent registries,
      and keeps them consistent. */
  lemma {:induction false} DisconnectForgets(st: State, c: Conn)
    requires Consistent(st)
    ensures var r := Disconnect(st, c).state;
      Consistent(r) && c.socket !in r.presence
      && forall b :: b in r.rooms ==> c.socket !in r.rooms[b]
  {
    var s := c.socket;
    var r := Disconnect(st, c).state;
    forall b | b in r.rooms ensures s !in r.rooms[b] {
      if s in st.rooms[b] {
        assert CurrentBoard(st.presence, s) == Some(b);
      }
    }
    forall b, x | b in r.rooms && x in r.rooms[b]
      ensures x in r.presence && r.presence[x].boardId == Some(b)
    {
      assert x in st.rooms[b];
    }
    forall x | x in r.presence && r.presence[x].boardId.Some?
      ensures r.presence[x].boardId.value in r.rooms && x in r.rooms[r.presence[x].boardId.value]
    {
      var b := r.presence[x].boardId.value;
      assert x in st.rooms[b];
      if CurrentBoard(st.presence, s) == Some(b) {
        assert x != s;
      }
    }
  }

  /** A socket that connects and disconnects without joining leaves the
      registries as it found them. */
  lemma ConnectThenDisconnect(st: State, c: Conn, now: Millis)
    requires c.socket !in st.presence
    ensures Disconnect(Connect(st, c, now), c) == Outcome(st, [])
  {
    assert Connect(st, c, now).presence - {c.socket} == st.presence;
  }

  // ----- Board join and leave -----

  /** Whether a join of `b` takes the socket out of another room first. */
  predicate Switching(st: State, s: SocketId, b: BoardId)
    requires s in st.presence
  {
    var prev := st.presence[s].boardId;
    Truthy(prev) && prev.value != b && prev.value in st.rooms
  }

  /** Both registries after a join past the gate. */
  function Joining(st: State, s: SocketId, b: BoardId): State
    requires s in st.presence
  {
    var rooms1 := if Switching(st, s, b) then RoomDelete(st.rooms, st.presence[s].boardId.value, s) else st.rooms;
    State(st.presence[s := st.presence[s].(boardId := Some(b))], RoomAdd(rooms1, b, s))
  }

  /** `handleBoardJoin` for a socket that has a record. */
  function Join(st: State, boards: map<BoardId, Board>, c: Conn, b: BoardId): Outcome<State>
    requires c.socket in st.presence
  {
    var s := c.socket;
    if !Gates.BoardAccess(Lookup(boards, b), c.userId) then
      Outcome(st, [ErrorTo(s, "Access denied to this board")])
    else
      var left := if Switching(st, s, b) then [Emission(ToOthers(st.presence[s].boardId.value, s), UserLeft(c.userId))] else [];
      var st1 := Joining(st, s, b);
      Outcome(st1, left + [Emission(ToOthers(b, s), UserJoinedId(c.userId)),
                           Emission(ToSocket(s), PresenceUpdate(OnlineUsers(st1, b)))])
  }

  /** A denied join emits one error and changes neither registry. */
  lemma JoinDenied(st: State, boards: map<BoardId, Board>, c: Conn, b: BoardId)
    requires c.socket in st.presence
    requires !Gates.BoardAccess(Lookup(boards, b), c.userId)
    ensures Join(st, boards, c, b) == Outcome(st, [ErrorTo(c.socket, "Access denied to this board")])
  {
  }

  /** A join that passes the gate points the record at the board, puts the
      socket in the board's room (created when absent) and, when the socket
      was viewing another board, takes it out of that room; no other record
      and no other room changes. */
  lemma JoinEffect(st: State, boards: map<BoardId, Board>, c: Conn, b: BoardId)
    requires c.socket in st.presence
    requires Gates.BoardAccess(Lookup(boards, b), c.userId)
    ensures var r := Join(st, boards, c, b).state; var s := c.socket;
      var prev := st.presence[s].boardId;
      r.presence == st.presence[s := st.presence[s].(boardId := Some(b))]
      && b in r.rooms && s in r.rooms[b]
      && (forall y :: y in Members(st.rooms, b) ==> y in r.rooms[b])
      && (Truthy(prev) && prev.value != b && prev.value in st.rooms ==>
            prev.value in r.rooms && s !in r.rooms[prev.value])
      && (forall k :: k in st.rooms && k != b && Some(k) != prev ==> k in r.rooms && r.rooms[k] == st.rooms[k])
  {
  }

  /** Joining keeps the registries consistent. */
  lemma JoinKeepsConsistent(st: State, boards: map<BoardId, Board>, c: Conn, b: BoardId)
    requires c.socket in st.presence
    requires Consistent(st)
    requires b != ""
    ensures Consistent(Join(st, boards, c, b).state)
  {
    if Gates.BoardAccess(Lookup(boards, b), c.userId) {
      JoiningKeepsConsistent(st, c.socket, b);
    }
  }

  lemma JoiningKeepsConsistent(st: State, s: SocketId, b: BoardId)
    requires s in st.presence
    requires Consistent(st)
    requires b != ""
    ensures Consistent(Joining(st, s, b))
  {
    var r := Joining(st, s, b);
    var prev := st.presence[s].boardId;
    forall k | k in r.rooms && k != b ensures s !in r.rooms[k] {
      if s in st.rooms[k] {
        assert st.presence[s].boardId == Some(k);
      }
    }
    forall k, x | k in r.rooms && x in r.rooms[k]
      ensures x in r.presence && r.presence[x].boardId == Some(k)
    {
      if x != s {
        assert x in st.rooms[k];
      }
    }
    forall x | x in r.presence && r.presence[x].boardId.Some?
      ensures r.presence[x].boardId.value != ""
        && r.presence[x].boardId.value in r.rooms && x in r.rooms[r.presence[x].boardId.value]
    {
      if x != s {
        var k := st.presence[x].boardId.value;
        assert x in st.rooms[k];
        if k != b && Some(k) == prev {
          assert x != s;
        }
      }
    }
  }

  /** `handleBoardLeave`: clears the record's board whatever it was, takes
      the socket out of the room (dropping the room when empty), and always
      notifies the others. */
  function Leave(st: State, c: Conn, b: BoardId): Outcome<State>
  {
    var s := c.socket;
    var presence1 := if s in st.presence then st.presence[s := st.presence[s].(boardId := None)] else st.presence;
    Outcome(State(presence1, RoomLeave(st.rooms, b, s)), [Emission(ToOthers(b, s), UserLeft(c.userId))])
  }

  /** After a leave the socket is on no board and not in the room; a second
      identical leave changes no state. */
  lemma LeaveEffect(st: State, c: Conn, b: BoardId)
    ensures var r := Leave(st, c, b).state;
      (c.socket in st.presence ==> r.presence[c.socket].boardId.None?)
      && (b in r.rooms ==> c.socket !in r.rooms[b])
      && Leave(r, c, b).state == r
  {
    var r := Leave(st, c, b).state;
    RoomLeaveIdempotent(st.rooms, b, c.socket);
    if c.socket in st.presence {
      assert r.presence[c.socket := r.presence[c.socket].(boardId := None)] == r.presence;
    }
  }

  /** Leave keeps the registries consistent when the socket was on that
      board or on none. */
  lemma LeaveKeepsConsistent(st: State, c: Conn, b: BoardId)
    requires Consistent(st)
    requires c.socket in st.presence ==> st.presence[c.socket].boardId in {None, Some(b)}
    ensures Consistent(Leave(st, c, b).state)
  {
    var s := c.socket;
    var r := Leave(st, c, b).state;
    forall k, x | k in r.rooms && x in r.rooms[k]
      ensures x in r.presence && r.presence[x].boardId == Some(k)
    {
      assert x in st.rooms[k];
    }
    forall x | x in r.presence && r.presence[x].boardId.Some?
      ensures r.presence[x].boardId.value in r.rooms && x in r.rooms[r.presence[x].boardId.value]
    {
      var k := r.presence[x].boardId.value;
      assert x in st.rooms[k];
      if k == b {
        LeaveKeepsOther(st.rooms, b, s, x);
      }
    }
  }

  /** A room that holds a socket other than the one leaving survives the
      leave and keeps that socket. */
  lemma LeaveKeepsOther(rooms: Rooms, b: BoardId, s: SocketId, x: SocketId)
    requires b in rooms && x in rooms[b] && x != s
    ensures b in RoomLeave(rooms, b, s) && x in RoomLeave(rooms, b, s)[b]
  {
  }

  /** Leaving a board the socket is not viewing clears its board while it
      stays in the other room: the registries disagree afterwards. */
  lemma LeaveOtherBoardBreaksConsistency()
    ensures var c := Conn("s", "u", "Ann", None);
      var st := State(map["s" := PresenceRecord("s", "u", "Ann", None, Some("b1"), 0)], map["b1" := ["s"]]);
      Consistent(st) && !Consistent(Leave(st, c, "b2").state)
  {
    var st := State(map["s" := PresenceRecord("s", "u", "Ann", None, Some("b1"), 0)], map["b1" := ["s"]]);
    var r := Leave(st, Conn("s", "u", "Ann", None), "b2").state;
    assert "s" in r.rooms["b1"] && r.presence["s"].boardId.None?;
  }

  // ----- Imperative handlers over the registry -----

  method HandleConnect(reg: Registry, c: Conn, now: Millis)
    modifies reg
    ensures reg.Snapshot() == Connect(old(reg.Snapshot()), c, now)
  {
    reg.presence := reg.presence[c.socket := FreshRecord(c, now)];
  }

  method HandleDisconnect(reg: Registry, c: Conn) returns (out: seq<Emission>)
    modifies reg
    ensures var o := Disconnect(old(reg.Snapshot()), c); reg.Snapshot() == o.state && out == o.out
  {
    out := [];
    var s := c.socket;
    if s in reg.presence && Truthy(reg.presence[s].boardId) {
      var b := reg.presence[s].boardId.value;
      out := [Emission(ToOthers(b, s), UserLeft(c.userId))];
      if b in reg.rooms {
        var left := SetDelete(reg.rooms[b], s);
        if |left| == 0 {
          reg.rooms := reg.rooms - {b};
        } else {
          reg.rooms := reg.rooms[b := left];
        }
      }
    }
    reg.presence := reg.presence - {s};
  }

  method HandleJoin(reg: Registry, boards: map<BoardId, Board>, c: Conn, b: BoardId) returns (out: seq<Emission>)
    requires c.socket in reg.presence
    modifies reg
    ensures var o := Join(old(reg.Snapshot()), boards, c, b); reg.Snapshot() == o.state && out == o.out
  {
    var s := c.socket;
    if !Gates.BoardAccess(Lookup(boards, b), c.userId) {
      return [ErrorTo(s, "Access denied to this board")];
    }
    ghost var st := reg.Snapshot();
    var info := reg.presence[s];
    out := [];
    if Truthy(info.boardId) && info.boardId.value != b && info.boardId.value in reg.rooms {
      var prev := info.boardId.value;
      reg.rooms := reg.rooms[prev := SetDelete(reg.rooms[prev], s)];
      assert reg.rooms == RoomDelete(old(reg.rooms), prev, s);
      out := [Emission(ToOthers(prev, s), UserLeft(c.userId))];
    }
    ghost var rooms1 := reg.rooms;
    reg.presence := reg.presence[s := info.(boardId := Some(b))];
    if b !in reg.rooms {
      reg.rooms := reg.rooms[b := []];
    }
    reg.rooms := reg.rooms[b := SetAdd(reg.rooms[b], s)];
    assert reg.rooms == RoomAdd(rooms1, b, s);
    assert reg.Snapshot() == Joining(st, s, b);
    out := out + [Emission(ToOthers(b, s), UserJoinedId(c.userId))];
    out := out + [Emission(ToSocket(s), PresenceUpdate(OnlineUsers(reg.Snapshot(), b)))];
  }

  method HandleLeave(reg: Registry, c: Conn, b: BoardId) returns (out: seq<Emission>)
    modifies reg
    ensures var o := Leave(old(reg.Snapshot()), c, b); reg.Snapshot() == o.state && out == o.out
  {
    var s := c.socket;
    if s in reg.presence {
      reg.presence := reg.presence[s := reg.presence[s].(boardId := None)];
    }
    if b in reg.rooms {
      var left := SetDelete(reg.rooms[b], s);
      if |left| == 0 {
        reg.rooms := reg.rooms - {b};
      } else {
        reg.rooms := reg.rooms[b := left];
      }
    }
    out := [Emission(ToOthers(b, s), UserLeft(c.userId))];
  }

  // ----- Task handlers -----

  /** `handleTaskCreate`: needs a viewed board and access to the column's
      board (not necessarily the viewed one); the store's failure becomes
      "Failed to create task"; the new task goes to the viewed board. */
  method HandleTaskCreate(store: Storage.Store, presence: PresenceMap, c: Conn,
                          input: TaskModel.TaskInput, id: TaskId, now: Millis) returns (out: seq<Emission>)
    requires id !in store.tasks
    modifies store`tasks
    ensures var board := CurrentBoard(presence, c.socket);
      var built := TaskModel.Create(old(store.tasks), input, id, c.userId, now);
      if board.None? then out == [ErrorTo(c.socket, "Not connected to any board")] && store.tasks == old(store.tasks)
      else if !Gates.ColumnAccess(store.columns, store.boards, input.columnId, c.userId) then
        out == [ErrorTo(c.socket, "Access denied")] && store.tasks == old(store.tasks)
      else if built.Ok? && Reindex.SlotFree(old(store.tasks), id, built.value.columnId, built.value.position) then
        out == [Emission(ToRoom(board.value), TaskCreated(built.value))] && store.tasks == old(store.tasks)[id := built.value]
      else
        out == [ErrorTo(c.socket, "Failed to create task")] && store.tasks == old(store.tasks)
  {
    var board := CurrentBoard(presence, c.socket);
    if board.None? {
      return [ErrorTo(c.socket, "Not connected to any board")];
    }
    if !Gates.ColumnAccess(store.columns, store.boards, input.columnId, c.userId) {
      return [ErrorTo(c.socket, "Access denied")];
    }
    var r := store.CreateTask(input, id, c.userId, now);
    var body := if r.Ok? then Ok([Emission(ToRoom(board.value), TaskCreated(r.value))]) else Failure(r.message);
    out := Guarded(c.socket, body, "Failed to create task");
  }

  /** `handleTaskUpdate`: the patch is written without validation; a write
      onto an occupied slot becomes "Failed to update task". */
  method HandleTaskUpdate(store: Storage.Store, presence: PresenceMap, c: Conn,
                          id: TaskId, patch: Storage.TaskPatch, now: Millis) returns (out: seq<Emission>)
    modifies store`tasks
    ensures var board := CurrentBoard(presence, c.socket);
      if board.None? then out == [ErrorTo(c.socket, "Not connected to any board")] && store.tasks == old(store.tasks)
      else if id !in old(store.tasks) then out == [ErrorTo(c.socket, "Task not found")] && store.tasks == old(store.tasks)
      else if !Gates.ColumnAccess(store.columns, store.boards, Some(old(store.tasks)[id].columnId), c.userId) then
        out == [ErrorTo(c.socket, "Access denied")] && store.tasks == old(store.tasks)
      else
        var t := Storage.ApplyPatch(old(store.tasks)[id], patch, now);
        if Reindex.SlotFree(old(store.tasks), id, t.columnId, t.position) then
          out == [Emission(ToRoom(board.value), TaskUpdated(t))] && store.tasks == old(store.tasks)[id := t]
        else
          out == [ErrorTo(c.socket, "Failed to update task")] && store.tasks == old(store.tasks)
  {
    var board := CurrentBoard(presence, c.socket);
    if board.None? {
      return [ErrorTo(c.socket, "Not connected to any board")];
    }
    if id !in store.tasks {
      return [ErrorTo(c.socket, "Task not found")];
    }
    if !Gates.ColumnAccess(store.columns, store.boards, Some(store.tasks[id].columnId), c.userId) {
      return [ErrorTo(c.socket, "Access denied")];
    }
    var r := store.UpdateTask(id, patch, now);
    var body := if r.Failure? then Failure(r.message)
                else if r.value.Some? then Ok([Emission(ToRoom(board.value), TaskUpdated(r.value.value))])
                else Ok([]);
    out := Guarded(c.socket, body, "Failed to update task");
  }

  /** `handleTaskDelete`: removes the one task; siblings keep their
      positions. */
  method HandleTaskDelete(store: Storage.Store, presence: PresenceMap, c: Conn, id: TaskId)
    returns (out: seq<Emission>)
    modifies store`tasks
    ensures var board := CurrentBoard(presence, c.socket);
      if board.None? then out == [ErrorTo(c.socket, "Not connected to any board")] && store.tasks == old(store.tasks)
      else if id !in old(store.tasks) then out == [ErrorTo(c.socket, "Task not found")] && store.tasks == old(store.tasks)
      else if !Gates.ColumnAccess(store.columns, store.boards, Some(old(store.tasks)[id].columnId), c.userId) then
        out == [ErrorTo(c.socket, "Access denied")] && store.tasks == old(store.tasks)
      else
        out == [Emission(ToRoom(board.value), TaskDeleted(id))] && store.tasks == old(store.tasks) - {id}
  {
    var board := CurrentBoard(presence, c.socket);
    if board.None? {
      return [ErrorTo(c.socket, "Not connected to any board")];
    }
    if id !in store.tasks {
      return [ErrorTo(c.socket, "Task not found")];
    }
    if !Gates.ColumnAccess(store.columns, store.boards, Some(store.tasks[id].columnId), c.userId) {
      return [ErrorTo(c.socket, "Access denied")];
    }
    store.DeleteTask(id);
    out := [Emission(ToRoom(board.value), TaskDeleted(id))];
  }

  /** `handleTaskMove`: needs access to the source and the destination
      column; rewrites only the moved task, so a target slot that another
      task holds makes the write fail with "Failed to move task". */
  method HandleTaskMove(store: Storage.Store, presence: PresenceMap, c: Conn,
                        id: TaskId, to: ColumnId, p: int, now: Millis) returns (out: seq<Emission>)
    modifies store`tasks
    ensures var board := CurrentBoard(presence, c.socket);
      if board.None? then out == [ErrorTo(c.socket, "Not connected to any board")] && store.tasks == old(store.tasks)
      else if id !in old(store.tasks) then out == [ErrorTo(c.socket, "Task not found")] && store.tasks == old(store.tasks)
      else if !Gates.ColumnAccess(store.columns, store.boards, Some(old(store.tasks)[id].columnId), c.userId)
           || !Gates.ColumnAccess(store.columns, store.boards, Some(to), c.userId) then
        out == [ErrorTo(c.socket, "Access denied")] && store.tasks == old(store.tasks)
      else if Reindex.SlotFree(old(store.tasks), id, to, p) then
        var t := old(store.tasks)[id].(columnId := to, position := p, updatedAt := now);
        out == [Emission(ToRoom(board.value), TaskMovedWithTask(id, to, p, t))]
        && store.tasks == old(store.tasks)[id := t]
      else
        out == [ErrorTo(c.socket, "Failed to move task")] && store.tasks == old(store.tasks)
  {
    var board := CurrentBoard(presence, c.socket);
    if board.None? {
      return [ErrorTo(c.socket, "Not connected to any board")];
    }
    if id !in store.tasks {
      return [ErrorTo(c.socket, "Task not found")];
    }
    var sourceAccess := Gates.ColumnAccess(store.columns, store.boards, Some(store.tasks[id].columnId), c.userId);
    var destAccess := Gates.ColumnAccess(store.columns, store.boards, Some(to), c.userId);
    if !sourceAccess || !destAccess {
      return [ErrorTo(c.socket, "Access denied")];
    }
    var r := store.UpdateTask(id, Storage.MovePatch(to, p), now);
    var body := if r.Failure? then Failure(r.message)
                else if r.value.Some? then Ok([Emission(ToRoom(board.value), TaskMovedWithTask(id, to, p, r.value.value))])
                else Ok([]);
    out := Guarded(c.socket, body, "Failed to move task");
  }

  /** Without renumbering, moving the last-but-one task of a dense column
      to the end of another leaves a gap: the source column is no longer
      dense. The same holds for deleting its first task. */
  lemma NoRenumberLeavesGaps()
    ensures var tasks := map["A" := Reindex.Card("A", "X", 0), "B" := Reindex.Card("B", "X", 1)];
      Reindex.Dense(tasks, "X")
      && !Reindex.Dense(tasks - {"A"}, "X")
      && !Reindex.Dense(tasks["A" := tasks["A"].(columnId := "Y", position := 0)], "X")
  {
    var tasks := map["A" := Reindex.Card("A", "X", 0), "B" := Reindex.Card("B", "X", 1)];
    assert Reindex.Siblings(tasks - {"A"}, "X") == {"B"};
    var moved := tasks["A" := tasks["A"].(columnId := "Y", position := 0)];
    assert Reindex.Siblings(moved, "X") == {"B"};
    assert Reindex.Siblings(tasks, "X") == {"A", "B"};
  }

  // ----- Chat and cursor -----

  /** `messageData.type || "text"`. */
  function KindOrText(raw: Option<string>): (k: string)
    ensures !Truthy(raw) ==> k == "text"
    ensures Truthy(raw) ==> k == raw.value
  {
    if Truthy(raw) then raw.value else "text"
  }

  /** `handleChatSendMessage`: needs a viewed board; a message the schema
      refuses becomes "Failed to send message"; a stored one goes to the
      whole board. */
  method HandleChatSend(store: Storage.Store, presence: PresenceMap, c: Conn,
                        content: Option<string>, kind: Option<string>, id: MessageId, now: Millis)
    returns (out: seq<Emission>)
    modifies store`messages
    ensures var board := CurrentBoard(presence, c.socket);
      if board.None? then out == [ErrorTo(c.socket, "Not connected to any board")] && store.messages == old(store.messages)
      else
        var m := Storage.BuildMessage(id, board.value, c.userId, c.username, content, KindOrText(kind), now);
        if m.Ok? then out == [Emission(ToRoom(board.value), ChatMessageSent(m.value))] && store.messages == old(store.messages) + [m.value]
        else out == [ErrorTo(c.socket, "Failed to send message")] && store.messages == old(store.messages)
  {
    var board := CurrentBoard(presence, c.socket);
    if board.None? {
      return [ErrorTo(c.socket, "Not connected to any board")];
    }
    var m := store.CreateMessage(id, board.value, c.userId, c.username, content, KindOrText(kind), now);
    var body := if m.Ok? then Ok([Emission(ToRoom(board.value), ChatMessageSent(m.value))]) else Failure(m.message);
    out := Guarded(c.socket, body, "Failed to send message");
  }

  /** `handleChatTyping`, `handleChatStopTyping` and `handleUserCursor`
      relay one event to the other sockets on the viewed board, or nothing
      without a board. */
  function Relay(presence: PresenceMap, c: Conn, e: Event): (r: seq<Emission>)
    ensures r == [] <==> CurrentBoard(presence, c.socket).None?
    ensures CurrentBoard(presence, c.socket).Some? ==>
      r == [Emission(ToOthers(CurrentBoard(presence, c.socket).value, c.socket), e)]
  {
    var board := CurrentBoard(presence, c.socket);
    if board.Some? then [Emission(ToOthers(board.value, c.socket), e)] else []
  }

  /** `handleChatTyping`: the sender's name goes to the others. */
  function ChatTyping(presence: PresenceMap, c: Conn): (r: seq<Emission>)
    ensures |r| <= 1 && forall e :: e in r ==> e.event == ChatUserTyping(c.username)
  {
    Relay(presence, c, ChatUserTyping(c.username))
  }

  /** `handleChatStopTyping`: the sender's name goes to the others. */
  function ChatStopTyping(presence: PresenceMap, c: Conn): (r: seq<Emission>)
    ensures |r| <= 1 && forall e :: e in r ==> e.event == ChatUserStoppedTyping(c.username)
  {
    Relay(presence, c, ChatUserStoppedTyping(c.username))
  }

  /** `handleUserCursor`: the sender's id, name and coordinates go to the
      others. */
  function UserCursor(presence: PresenceMap, c: Conn, x: int, y: int): (r: seq<Emission>)
    ensures |r| <= 1 && forall e :: e in r ==> e.event == UserCursorAt(c.userId, c.username, x, y)
  {
    Relay(presence, c, UserCursorAt(c.userId, c.username, x, y))
  }

  /** The relays emit exactly when the socket views a board, only to the
      others on that board, and never to the sender. */
  lemma RelaysReachOthersOnly(presence: PresenceMap, c: Conn, x: int, y: int)
    ensures forall e :: e in ChatTyping(presence, c) + ChatStopTyping(presence, c) + UserCursor(presence, c, x, y) ==>
      CurrentBoard(presence, c.socket).Some?
      && e.target == ToOthers(CurrentBoard(presence, c.socket).value, c.socket)
    ensures (ChatTyping(presence, c) == []) <==> CurrentBoard(presence, c.socket).None?
  {
  }
}
