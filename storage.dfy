/** The in-memory stand-in for the MongoDB collections the socket handlers
    use: one map per collection, and the document operations the handlers
    call (`create`, `findByIdAndUpdate`, `findByIdAndDelete`, `updateMany`).
    Each operation is one atomic step; the unique (columnId, position) index
    of the task collection is enforced on single-document writes. */
module Storage {
  import opened Common
  import Reindex
  import TaskModel

  /** The fields an update may carry (`Partial<Task>`); None leaves a field
      as it is. `createdBy` is an ordinary field of the schema, so an update
      may rewrite it; `createdAt` is protected by the timestamps option. */
  datatype TaskPatch = TaskPatch(
    title: Option<string>,
    description: Option<string>,
    assigneeId: Option<UserId>,
    columnId: Option<ColumnId>,
    position: Option<int>,
    priority: Option<Priority>,
    dueDate: Option<Millis>,
    createdBy: Option<UserId>)

  const NoTaskChange := TaskPatch(None, None, None, None, None, None, None, None)

  function Pick<T>(o: Option<T>, d: T): T
  {
    if o.Some? then o.value else d
  }

  /** A string field of an update passes through the schema's `trim: true`
      setter, which update queries run as well. */
  function PickTrimmed(o: Option<string>, d: string): string
  {
    if o.Some? then Trim(o.value) else d
  }

  /** `{ ...updates, updatedAt: now }` applied to a stored task, without
      validation: every field the patch names is overwritten (title and
      description trimmed), `updatedAt` is stamped, and the identity and
      creation time never change. */
  function ApplyPatch(t: Task, u: TaskPatch, now: Millis): (r: Task)
    ensures r.id == t.id && r.createdAt == t.createdAt && r.updatedAt == now
    ensures r.createdBy == Pick(u.createdBy, t.createdBy)
    ensures r.title == PickTrimmed(u.title, t.title)
    ensures r.description == (if u.description.Some? then Some(Trim(u.description.value)) else t.description)
    ensures r.columnId == Pick(u.columnId, t.columnId) && r.position == Pick(u.position, t.position)
    ensures r.assigneeId == (if u.assigneeId.Some? then u.assigneeId else t.assigneeId)
    ensures r.priority == Pick(u.priority, t.priority)
    ensures r.dueDate == (if u.dueDate.Some? then u.dueDate else t.dueDate)
    ensures u == NoTaskChange ==> r == t.(updatedAt := now)
  {
    t.(title := PickTrimmed(u.title, t.title),
       description := if u.description.Some? then Some(Trim(u.description.value)) else t.description,
       assigneeId := if u.assigneeId.Some? then u.assigneeId else t.assigneeId,
       columnId := Pick(u.columnId, t.columnId),
       position := Pick(u.position, t.position),
       priority := Pick(u.priority, t.priority),
       dueDate := if u.dueDate.Some? then u.dueDate else t.dueDate,
       createdBy := Pick(u.createdBy, t.createdBy),
       updatedAt := now)
  }

  /** An update stores trimmed text: writing the stored title or description
      back changes nothing but `updatedAt`. */
  lemma ApplyPatchStoresTrimmed(t: Task, u: TaskPatch, now: Millis, later: Millis)
    ensures var r := ApplyPatch(t, u, now);
      u.title.Some? ==> ApplyPatch(r, NoTaskChange.(title := Some(r.title)), later) == r.(updatedAt := later)
    ensures var r := ApplyPatch(t, u, now);
      u.description.Some? ==>
        ApplyPatch(r, NoTaskChange.(description := r.description), later) == r.(updatedAt := later)
  {
    var r := ApplyPatch(t, u, now);
    if u.title.Some? {
      TrimIdempotent(u.title.value);
    }
    if u.description.Some? {
      TrimIdempotent(u.description.value);
    }
  }

  /** Applying a patch twice at the same moment is applying it once. */
  lemma ApplyPatchIdempotent(t: Task, u: TaskPatch, now: Millis)
    ensures ApplyPatch(ApplyPatch(t, u, now), u, now) == ApplyPatch(t, u, now)
  {
  }

  /** The patch an update would write if `createdBy` were withheld from it,
      as the delete permission needs. */
  function WithoutCreator(u: TaskPatch): (v: TaskPatch)
    ensures forall t: Task, now :: ApplyPatch(t, v, now) == ApplyPatch(t, u, now).(createdBy := t.createdBy)
  {
    u.(createdBy := None)
  }

  /** The patch a move writes: column and position only. */
  function MovePatch(to: ColumnId, p: int): (u: TaskPatch)
    ensures forall t: Task, now :: ApplyPatch(t, u, now) == t.(columnId := to, position := p, updatedAt := now)
  {
    TaskPatch(None, None, None, Some(to), Some(p), None, None, None)
  }

  /** The fields a board update may carry (`Partial<Board>`). */
  datatype BoardPatch = BoardPatch(
    title: Option<string>,
    description: Option<string>,
    ownerId: Option<UserId>,
    members: Option<seq<UserId>>)

  /** `{ ...updates, updatedAt: now }` applied to a stored board, without
      validation; title and description pass the `trim: true` setters. An
      update query does not run the save hook, so the owner is not
      re-added. */
  function ApplyBoardPatch(b: Board, u: BoardPatch, now: Millis): (r: Board)
    ensures r.id == b.id && r.createdAt == b.createdAt && r.updatedAt == now
    ensures r.ownerId == Pick(u.ownerId, b.ownerId) && r.members == Pick(u.members, b.members)
    ensures r.title == PickTrimmed(u.title, b.title)
    ensures r.description == (if u.description.Some? then Some(Trim(u.description.value)) else b.description)
  {
    b.(title := PickTrimmed(u.title, b.title),
       description := if u.description.Some? then Some(Trim(u.description.value)) else b.description,
       ownerId := Pick(u.ownerId, b.ownerId),
       members := Pick(u.members, b.members),
       updatedAt := now)
  }

  const MaxMessageLength := 1000

  /** Casting and validating a chat message (server/src/models/ChatMessage.ts):
      the content is trimmed and must then hold 1 to 1000 characters, and the
      type must be "text" or "system". */
  function BuildMessage(id: MessageId, boardId: BoardId, userId: UserId, username: string,
                        content: Option<string>, kind: string, now: Millis): (r: Result<ChatMessage>)
    ensures r.Ok? <==>
      (content.Some? && 1 <= |Trim(content.value)| <= MaxMessageLength
       && kind in {"text", "system"} && boardId != "" && userId != "" && Trim(username) != "")
    ensures r.Ok? ==>
      r.value.content == Trim(content.value) && r.value.boardId == boardId && r.value.userId == userId
      && r.value.timestamp == now && r.value.id == id
      && (r.value.kind == Text <==> kind == "text")
  {
    if boardId == "" then Failure("Board ID is required")
    else if userId == "" then Failure("User ID is required")
    else if Trim(username) == "" then Failure("Username is required")
    else if content.None? || |Trim(content.value)| == 0 then Failure("Message content is required")
    else if |Trim(content.value)| > MaxMessageLength then Failure("Message content cannot exceed 1000 characters")
    else if kind == "text" then Ok(ChatMessage(id, boardId, userId, Trim(username), Trim(content.value), now, Text))
    else if kind == "system" then Ok(ChatMessage(id, boardId, userId, Trim(username), Trim(content.value), now, System))
    else Failure("Message type must be text or system")
  }

  class Store {
    var tasks: Reindex.Tasks
    var columns: map<ColumnId, Column>
    var boards: map<BoardId, Board>
    var messages: seq<ChatMessage>

    constructor (tasks: Reindex.Tasks, columns: map<ColumnId, Column>, boards: map<BoardId, Board>)
      ensures this.tasks == tasks && this.columns == columns && this.boards == boards
      ensures messages == []
    {
      this.tasks := tasks;
      this.columns := columns;
      this.boards := boards;
      messages := [];
    }

    /** `Task.create(input)` with a fresh id: the hook and the schema decide,
        then the unique index refuses an occupied (columnId, position). */
    method CreateTask(input: TaskModel.TaskInput, id: TaskId, createdBy: UserId, now: Millis)
      returns (r: Result<Task>)
      requires id !in tasks
      modifies this`tasks
      ensures var built := TaskModel.Create(old(tasks), input, id, createdBy, now);
        (r.Ok? <==> built.Ok? && Reindex.SlotFree(old(tasks), id, built.value.columnId, built.value.position))
        && (r.Ok? ==> r.value == built.value && tasks == old(tasks)[id := r.value])
        && (r.Failure? ==> tasks == old(tasks))
    {
      var built := TaskModel.Create(tasks, input, id, createdBy, now);
      if built.Failure? {
        return built;
      }
      if !Reindex.SlotFree(tasks, id, built.value.columnId, built.value.position) {
        return Failure("E11000 duplicate key error");
      }
      tasks := tasks[id := built.value];
      r := built;
    }

    /** `Task.findByIdAndUpdate(id, { ...patch, updatedAt: now }, { new: true })`:
        no document is None; a write onto a slot another task holds fails. */
    method UpdateTask(id: TaskId, patch: TaskPatch, now: Millis) returns (r: Result<Option<Task>>)
      modifies this`tasks
      ensures id !in old(tasks) ==> r == Ok(None) && tasks == old(tasks)
      ensures id in old(tasks) ==>
        var t := ApplyPatch(old(tasks)[id], patch, now);
        if Reindex.SlotFree(old(tasks), id, t.columnId, t.position)
        then r == Ok(Some(t)) && tasks == old(tasks)[id := t]
        else r.Failure? && tasks == old(tasks)
    {
      if id !in tasks {
        return Ok(None);
      }
      var t := ApplyPatch(tasks[id], patch, now);
      if !Reindex.SlotFree(tasks, id, t.columnId, t.position) {
        return Failure("E11000 duplicate key error");
      }
      tasks := tasks[id := t];
      r := Ok(Some(t));
    }

    /** `Task.findByIdAndDelete(id)`. */
    method DeleteTask(id: TaskId)
      modifies this`tasks
      ensures tasks == old(tasks) - {id}
    {
      tasks := tasks - {id};
    }

    /** `Task.updateMany({ columnId: c, position: [lo, hi) }, { $inc: { position: delta } })`. */
    method ShiftTasks(c: ColumnId, lo: int, hi: Option<int>, delta: int)
      modifies this`tasks
      ensures tasks == Reindex.Shift(old(tasks), c, lo, hi, delta)
    {
      tasks := Reindex.Shift(tasks, c, lo, hi, delta);
    }

    /** `Board.findByIdAndUpdate(id, { ...patch, updatedAt: now }, { new: true })`. */
    method UpdateBoard(id: BoardId, patch: BoardPatch, now: Millis) returns (r: Option<Board>)
      modifies this`boards
      ensures id !in old(boards) ==> r == None && boards == old(boards)
      ensures id in old(boards) ==>
        r == Some(ApplyBoardPatch(old(boards)[id], patch, now)) && boards == old(boards)[id := r.value]
    {
      if id !in boards {
        return None;
      }
      var b := ApplyBoardPatch(boards[id], patch, now);
      boards := boards[id := b];
      r := Some(b);
    }

    /** `ChatMessage.create(...)`: a valid message is appended. */
    method CreateMessage(id: MessageId, boardId: BoardId, userId: UserId, username: string,
                         content: Option<string>, kind: string, now: Millis) returns (r: Result<ChatMessage>)
      modifies this`messages
      ensures r == BuildMessage(id, boardId, userId, username, content, kind, now)
      ensures r.Ok? ==> messages == old(messages) + [r.value]
      ensures r.Failure? ==> messages == old(messages)
    {
      r := BuildMessage(id, boardId, userId, username, content, kind, now);
      if r.Ok? {
        messages := messages + [r.value];
      }
    }
  }
}
