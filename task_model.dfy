/** The task schema of server/src/models/Task.ts: its field rules, the
    pre-save hook that places a new task at the end of its column,
    `getNextPosition`, `isOverdue` and `getDaysUntilDue`. */
module TaskModel {
  import opened Common
  import Positions
  import Reindex

  const MaxTitleLength := 200
  const MaxDescriptionLength := 1000

  /** The fields `Task.create` receives; a field that is absent, undefined
      or null is None. */
  datatype TaskInput = TaskInput(
    title: Option<string>,
    description: Option<string>,
    assigneeId: Option<UserId>,
    columnId: Option<ColumnId>,
    position: Option<int>,
    priority: Option<string>,
    dueDate: Option<Millis>)

  /** `getNextPosition(columnId)`: 0 for an empty column, otherwise one past
      the largest position in the column. */
  function NextPosition(tasks: Reindex.Tasks, c: ColumnId): (r: int)
    ensures Reindex.Siblings(tasks, c) == {} ==> r == 0
    ensures Reindex.Siblings(tasks, c) != {} ==>
      exists id :: id in tasks && tasks[id].columnId == c && tasks[id].position == r - 1
    ensures forall id :: id in tasks && tasks[id].columnId == c ==> tasks[id].position < r
  {
    var ps := Reindex.PositionsIn(tasks, c);
    Reindex.PositionsEmpty(tasks, c);
    assert forall id :: id in tasks && tasks[id].columnId == c ==> tasks[id].position in ps;
    Positions.NextPosition(ps)
  }

  /** On a dense column the hook appends: the new task gets position n. */
  lemma PreSaveAppends(tasks: Reindex.Tasks, c: ColumnId)
    requires Reindex.Dense(tasks, c)
    ensures Positions.PreSavePosition(true, None, NextPosition(tasks, c)) == Some(|Reindex.Siblings(tasks, c)|)
  {
    Reindex.NextOfDense(tasks, c);
  }

  /** `priority`: absent means "medium"; any other string than the three
      enum values is rejected (None). */
  function ParsePriority(raw: Option<string>): (r: Option<Priority>)
    ensures raw.None? ==> r == Some(Medium)
    ensures r.None? <==> raw.Some? && raw.value !in {"low", "medium", "high"}
  {
    if raw.None? then Some(Medium)
    else if raw.value == "low" then Some(Low)
    else if raw.value == "medium" then Some(Medium)
    else if raw.value == "high" then Some(High)
    else None
  }

  /** A required string is present and not empty. */
  predicate Present(s: Option<string>)
  {
    s.Some? && s.value != ""
  }

  /** `title`: required, trimmed, then 1 to 200 characters. */
  predicate TitleValid(raw: Option<string>)
  {
    raw.Some? && 1 <= |Trim(raw.value)| <= MaxTitleLength
  }

  /** `description`: optional, trimmed, then at most 1000 characters. */
  predicate DescriptionValid(raw: Option<string>)
  {
    raw.None? || |Trim(raw.value)| <= MaxDescriptionLength
  }

  /** `dueDate`: null, or strictly after the moment of validation. */
  predicate DueDateValid(due: Option<Millis>, now: Millis)
  {
    due.None? || due.value > now
  }

  /** Every rule of the schema, for an input whose position the hook has
      already settled. */
  predicate InputValid(input: TaskInput, position: Option<int>, createdBy: UserId, now: Millis)
  {
    TitleValid(input.title) && DescriptionValid(input.description)
    && Present(input.columnId) && position.Some? && position.value >= 0
    && ParsePriority(input.priority).Some? && DueDateValid(input.dueDate, now)
    && createdBy != ""
  }

  /** Casting and validating a new document: a task exactly when every rule
      holds, with the trimmed strings, the defaults filled in and both
      timestamps at `now`. */
  function Build(input: TaskInput, id: TaskId, position: Option<int>, createdBy: UserId, now: Millis): (r: Result<Task>)
    ensures r.Ok? <==> InputValid(input, position, createdBy, now)
    ensures r.Ok? ==>
      r.value.id == id && r.value.title == Trim(input.title.value)
      && r.value.columnId == input.columnId.value && r.value.position == position.value
      && r.value.priority == ParsePriority(input.priority).value
      && r.value.dueDate == input.dueDate && r.value.assigneeId == input.assigneeId
      && r.value.createdBy == createdBy && r.value.createdAt == now && r.value.updatedAt == now
      && (input.description.Some? ==> r.value.description == Some(Trim(input.description.value)))
      && (input.description.None? ==> r.value.description.None?)
  {
    if input.title.None? then Failure("Task title is required")
    else if |Trim(input.title.value)| == 0 then Failure("Task title is required")
    else if |Trim(input.title.value)| > MaxTitleLength then Failure("Task title cannot exceed 200 characters")
    else if !DescriptionValid(input.description) then Failure("Task description cannot exceed 1000 characters")
    else if !Present(input.columnId) then Failure("Column ID is required")
    else if position.None? then Failure("Task position is required")
    else if position.value < 0 then Failure("Task position cannot be negative")
    else if ParsePriority(input.priority).None? then Failure("Priority must be low, medium, or high")
    else if !DueDateValid(input.dueDate, now) then Failure("Due date must be in the future")
    else if createdBy == "" then Failure("Created by is required")
    else
      var description := if input.description.Some? then Some(Trim(input.description.value)) else None;
      Ok(Task(id, Trim(input.title.value), description, input.assigneeId, input.columnId.value,
              position.value, ParsePriority(input.priority).value, input.dueDate, now, now, createdBy))
  }

  /** `Task.create(input)` as Mongoose runs a save: validation is the first
      pre-save hook, so the schema checks the position as given, and the
      position hook of lines 121-134 only ever sees a document that already
      has one, which it keeps. A task without a position is refused. */
  function Create(tasks: Reindex.Tasks, input: TaskInput, id: TaskId, createdBy: UserId, now: Millis): (r: Result<Task>)
    ensures r.Ok? <==> InputValid(input, input.position, createdBy, now)
    ensures input.position.None? ==> r.Failure?
    ensures r == Build(input, id, input.position, createdBy, now)
  {
    var validated := Build(input, id, input.position, createdBy, now);
    if validated.Failure? then validated
    else
      var t := validated.value;
      var p := Positions.PreSavePosition(true, Some(t.position), NextPosition(tasks, t.columnId));
      Ok(t.(position := p.value))
  }

  /** The order the hook's comment intends: the hook fills in a missing
      position first, then the schema validates the document. */
  function CreateHookFirst(tasks: Reindex.Tasks, input: TaskInput, id: TaskId, createdBy: UserId, now: Millis): (r: Result<Task>)
    ensures r.Ok? && input.position.None? ==> r.value.position == NextPosition(tasks, r.value.columnId)
    ensures input.position.Some? ==> r == Create(tasks, input, id, createdBy, now)
    ensures input.position.None? && input.columnId.Some? ==>
      (r.Ok? <==> InputValid(input, Some(NextPosition(tasks, input.columnId.value)), createdBy, now))
    ensures input.columnId.None? ==> r.Failure?
  {
    var next := if input.columnId.Some? then NextPosition(tasks, input.columnId.value) else 0;
    Build(input, id, Positions.PreSavePosition(true, input.position, next), createdBy, now)
  }

  /** As written, the auto-position path is unreachable: an input that the
      intended order accepts only thanks to the hook is refused with
      "Task position is required". */
  lemma AutoPositionUnreachable(tasks: Reindex.Tasks, input: TaskInput, id: TaskId, createdBy: UserId, now: Millis)
    requires input.position.None? && input.columnId.Some?
    requires InputValid(input, Some(NextPosition(tasks, input.columnId.value)), createdBy, now)
    ensures Create(tasks, input, id, createdBy, now) == Failure("Task position is required")
    ensures CreateHookFirst(tasks, input, id, createdBy, now).Ok?
  {
  }

  /** In the intended order a task created without a position lands in the
      first free slot at the end of its column: a dense column stays dense
      and gains the task. */
  lemma CreateAppendKeepsDense(tasks: Reindex.Tasks, input: TaskInput, id: TaskId, createdBy: UserId, now: Millis)
    requires id !in tasks
    requires input.position.None?
    requires CreateHookFirst(tasks, input, id, createdBy, now).Ok?
    requires Reindex.Dense(tasks, input.columnId.value)
    ensures var t := CreateHookFirst(tasks, input, id, createdBy, now).value;
      t.position == |Reindex.Siblings(tasks, t.columnId)|
      && Reindex.SlotFree(tasks, id, t.columnId, t.position)
      && Reindex.Dense(tasks[id := t], t.columnId)
      && Reindex.Siblings(tasks[id := t], t.columnId) == Reindex.Siblings(tasks, t.columnId) + {id}
  {
    var t := CreateHookFirst(tasks, input, id, createdBy, now).value;
    Reindex.NextOfDense(tasks, t.columnId);
    Reindex.AppendAtEnd(tasks, id, t);
  }

  /** `isOverdue`: never without a due date, otherwise exactly when now is
      past it. */
  function IsOverdue(due: Option<Millis>, now: Millis): (r: bool)
    ensures due.None? ==> !r
    ensures due.Some? ==> (r <==> now > due.value)
  {
    due.Some? && now > due.value
  }

  /** A due date the validator accepts is not overdue at that moment, and an
      overdue task stays overdue as time passes. */
  lemma OverdueAgreesWithValidator(due: Option<Millis>, now: Millis, later: Millis)
    requires now <= later
    ensures DueDateValid(due, now) ==> !IsOverdue(due, now)
    ensures IsOverdue(due, now) ==> IsOverdue(due, later)
  {
  }

  /** `getDaysUntilDue`: the whole days to the due date, rounded up, with
      integer milliseconds in place of floating-point division. */
  function DaysUntilDue(due: Option<Millis>, now: Millis): (r: Option<int>)
    ensures r.None? <==> due.None?
    ensures r.Some? ==> (r.value - 1) * DayMillis < due.value - now <= r.value * DayMillis
  {
    if due.None? then None else Some(CeilDiv(due.value - now, DayMillis))
  }

  /** Overdue tasks have no days left; a task that is not overdue has a
      non-negative count. */
  lemma DaysUntilDueSign(due: Millis, now: Millis)
    ensures IsOverdue(Some(due), now) ==> DaysUntilDue(Some(due), now).value <= 0
    ensures !IsOverdue(Some(due), now) ==> DaysUntilDue(Some(due), now).value >= 0
  {
    var q := DaysUntilDue(Some(due), now).value;
    if IsOverdue(Some(due), now) {
      assert (q - 1) * DayMillis < due - now < 0;
    } else {
      assert 0 <= due - now <= q * DayMillis;
    }
  }
}
