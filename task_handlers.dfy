/** The older task handlers (server/src/socket/taskHandlers.ts): the same
    four events as the wired handlers, gated on the board the socket is
    viewing, with `task:delete` and `task:move` renumbering the positions
    around the task they touch. Each handler is one atomic step over the
    store and returns the events it emits. */
module TaskHandlers {
  import opened Common
  import opened Presence
  import Gates
  import Reindex
  import TaskModel
  import Storage

  /** `task:create`: the column must be on the viewed board and the user
      must have access to that board; the write then fails exactly when
      the schema or the unique slot index refuses it. */
  method HandleCreate(store: Storage.Store, presence: PresenceMap, c: Conn,
                      input: TaskModel.TaskInput, id: TaskId, now: Millis) returns (out: seq<Emission>)
    requires id !in store.tasks
    modifies store`tasks
    ensures var board := CurrentBoard(presence, c.socket);
      var built := TaskModel.Create(old(store.tasks), input, id, c.userId, now);
      if board.None? then out == [ErrorTo(c.socket, "Not connected to any board")] && store.tasks == old(store.tasks)
      else if !Gates.ColumnOnBoard(store.columns, input.columnId, board.value) then
        out == [ErrorTo(c.socket, "Invalid column")] && store.tasks == old(store.tasks)
      else if !Gates.BoardAccess(Lookup(store.boards, board.value), c.userId) then
        out == [ErrorTo(c.socket, "Access denied")] && store.tasks == old(store.tasks)
      else if built.Ok? && Reindex.SlotFree(old(store.tasks), id, built.value.columnId, built.value.position) then
        out == [Emission(ToRoom(board.value), TaskCreated(built.value))] && store.tasks == old(store.tasks)[id := built.value]
      else
        out == [ErrorTo(c.socket, "Failed to create task")] && store.tasks == old(store.tasks)
  {
    var board := CurrentBoard(presence, c.socket);
    if board.None? {
      return [ErrorTo(c.socket, "Not connected to any board")];
    }
    if !Gates.ColumnOnBoard(store.columns, input.columnId, board.value) {
      return [ErrorTo(c.socket, "Invalid column")];
    }
    if !Gates.BoardAccess(Lookup(store.boards, board.value), c.userId) {
      return [ErrorTo(c.socket, "Access denied")];
    }
    var r := store.CreateTask(input, id, c.userId, now);
    if r.Failure? {
      return [ErrorTo(c.socket, "Failed to create task")];
    }
    out := [Emission(ToRoom(board.value), TaskCreated(r.value))];
  }

  /** `task:update`: the task's column must be on the viewed board; board
      access is not checked again. The patch is written as given, and a
      write onto a slot another task holds is "Failed to update task". */
  method HandleUpdate(store: Storage.Store, presence: PresenceMap, c: Conn,
                      id: TaskId, patch: Storage.TaskPatch, now: Millis) returns (out: seq<Emission>)
    modifies store`tasks
    ensures var board := CurrentBoard(presence, c.socket);
      if board.None? then out == [ErrorTo(c.socket, "Not connected to any board")] && store.tasks == old(store.tasks)
      else if id !in old(store.tasks) then out == [ErrorTo(c.socket, "Task not found")] && store.tasks == old(store.tasks)
      else if !Gates.ColumnOnBoard(store.columns, Some(old(store.tasks)[id].columnId), board.value) then
        out == [ErrorTo(c.socket, "Task not in current board")] && store.tasks == old(store.tasks)
      else
        var t := Storage.ApplyPatch(old(store.tasks)[id], patch, now);
        if Reindex.SlotFree(old(store.tasks), id, t.columnId, t.position) then
          out == [Emission(ToRoom(board.value), TaskUpdated(t))] && store.tasks == old(store.tasks)[id := t]
        else
          out == [ErrorTo(c.socket, "Failed to update task")] && store.tasks == old(store.tasks)
  {
    var board := CurrentBoard(presence, c.socket);
    if board.None? {
      return [ErrorTo(c.socket, "Not connected to any board")];
    }
    if id !in store.tasks {
      return [ErrorTo(c.socket, "Task not found")];
    }
    if !Gates.ColumnOnBoard(store.columns, Some(store.tasks[id].columnId), board.value) {
      return [ErrorTo(c.socket, "Task not in current board")];
    }
    var r := store.UpdateTask(id, patch, now);
    if r.Failure? || r.value.None? {
      return [ErrorTo(c.socket, "Failed to update task")];
    }
    out := [Emission(ToRoom(board.value), TaskUpdated(r.value.value))];
  }

  /** `task:delete`: past the gates and the permission check (creator or
      owner of the viewed board), the task is removed and every later
      sibling moves up by one. */
  method HandleDelete(store: Storage.Store, presence: PresenceMap, c: Conn, id: TaskId)
    returns (out: seq<Emission>)
    modifies store`tasks
    ensures var board := CurrentBoard(presence, c.socket);
      if board.None? then out == [ErrorTo(c.socket, "Not connected to any board")] && store.tasks == old(store.tasks)
      else if id !in old(store.tasks) then out == [ErrorTo(c.socket, "Task not found")] && store.tasks == old(store.tasks)
      else if !Gates.ColumnOnBoard(store.columns, Some(old(store.tasks)[id].columnId), board.value) then
        out == [ErrorTo(c.socket, "Task not in current board")] && store.tasks == old(store.tasks)
      else if !Gates.MayDelete(old(store.tasks)[id], Lookup(store.boards, board.value), c.userId) then
        out == [ErrorTo(c.socket, "Permission denied")] && store.tasks == old(store.tasks)
      else
        out == [Emission(ToRoom(board.value), TaskDeleted(id))] && store.tasks == Reindex.Delete(old(store.tasks), id)
  {
    var board := CurrentBoard(presence, c.socket);
    if board.None? {
      return [ErrorTo(c.socket, "Not connected to any board")];
    }
    if id !in store.tasks {
      return [ErrorTo(c.socket, "Task not found")];
    }
    var task := store.tasks[id];
    if !Gates.ColumnOnBoard(store.columns, Some(task.columnId), board.value) {
      return [ErrorTo(c.socket, "Task not in current board")];
    }
    if !Gates.MayDelete(task, Lookup(store.boards, board.value), c.userId) {
      return [ErrorTo(c.socket, "Permission denied")];
    }
    store.DeleteTask(id);
    store.ShiftTasks(task.columnId, task.position + 1, None, -1);
    out := [Emission(ToRoom(board.value), TaskDeleted(id))];
  }

  /** `task:move`: both columns must be on the viewed board. A move onto
      the task's own slot does nothing and emits nothing; otherwise the
      siblings are shifted to open the target slot and close the old one,
      and the task is written there. The write never meets an occupied
      slot, so "Failed to move task" is never emitted past the gates. */
  method HandleMove(store: Storage.Store, presence: PresenceMap, c: Conn,
                    id: TaskId, to: ColumnId, p: int, now: Millis) returns (out: seq<Emission>)
    modifies store`tasks
    ensures var board := CurrentBoard(presence, c.socket);
      if board.None? then out == [ErrorTo(c.socket, "Not connected to any board")] && store.tasks == old(store.tasks)
      else if id !in old(store.tasks) then out == [ErrorTo(c.socket, "Task not found")] && store.tasks == old(store.tasks)
      else if !Gates.ColumnOnBoard(store.columns, Some(old(store.tasks)[id].columnId), board.value)
           || !Gates.ColumnOnBoard(store.columns, Some(to), board.value) then
        out == [ErrorTo(c.socket, "Invalid column or not in current board")] && store.tasks == old(store.tasks)
      else
        var from := old(store.tasks)[id].columnId;
        store.tasks == Reindex.Move(old(store.tasks), id, to, p, now)
        && out == (if from == to && old(store.tasks)[id].position == p then []
                   else [Emission(ToRoom(board.value), TaskMoved(id, from, to, p))])
  {
    var board := CurrentBoard(presence, c.socket);
    if board.None? {
      return [ErrorTo(c.socket, "Not connected to any board")];
    }
    if id !in store.tasks {
      return [ErrorTo(c.socket, "Task not found")];
    }
    var from := store.tasks[id].columnId;
    var was := store.tasks[id].position;
    if !Gates.ColumnOnBoard(store.columns, Some(from), board.value)
       || !Gates.ColumnOnBoard(store.columns, Some(to), board.value) {
      return [ErrorTo(c.socket, "Invalid column or not in current board")];
    }
    if from == to && p == was {
      return [];
    }
    ghost var before := store.tasks;
    if from == to {
      if p < was {
        store.ShiftTasks(to, p, Some(was), 1);
      } else {
        store.ShiftTasks(to, was + 1, Some(p + 1), -1);
      }
    } else {
      store.ShiftTasks(from, was + 1, None, -1);
      store.ShiftTasks(to, p, None, 1);
    }
    assert store.tasks == Reindex.MoveShifts(before, id, to, p);
    Reindex.MoveShiftsFrame(before, id, to, p);
    Reindex.MoveSlotFree(before, id, to, p);
    var r := store.UpdateTask(id, Storage.MovePatch(to, p), now);
    if r.Failure? || r.value.None? {
      assert false;
      return [ErrorTo(c.socket, "Failed to move task")];
    }
    out := [Emission(ToRoom(board.value), TaskMoved(id, from, to, p))];
  }

  // ----- The creator field of an update -----

  /** As written, `task:update` writes `createdBy` like any other field, so
      a member who is neither the creator nor the owner can name themself
      the creator and then pass the permission check of `task:delete`. */
  lemma CreatorTakeover()
    ensures var t := Task("t", "Write", None, None, "c", 0, Medium, None, 0, 0, "a");
      var board := Some(Board("b", "Team", None, "o", ["o", "a", "m"], 0, 0));
      var t2 := Storage.ApplyPatch(t, Storage.NoTaskChange.(createdBy := Some("m")), 1);
      !Gates.MayDelete(t, board, "m") && Gates.MayDelete(t2, board, "m") && t2.createdBy == "m"
  {
  }

  /** With `createdBy` withheld from the update, no update changes who may
      delete a task. */
  lemma GuardedUpdateKeepsDeletePermission(t: Task, u: Storage.TaskPatch, board: Option<Board>, user: UserId, now: Millis)
    ensures Storage.ApplyPatch(t, Storage.WithoutCreator(u), now).createdBy == t.createdBy
    ensures Gates.MayDelete(Storage.ApplyPatch(t, Storage.WithoutCreator(u), now), board, user)
            <==> Gates.MayDelete(t, board, user)
  {
  }
}
