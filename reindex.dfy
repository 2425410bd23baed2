/** The position bookkeeping of the task handlers in
    server/src/socket/taskHandlers.ts: each `updateMany` shift, the write of
    the moved task, and what they do to the positions of a column. A column
    is dense when its n tasks sit at the distinct positions 0 .. n-1. */
module Reindex {
  import opened Common
  import Positions

  type Tasks = map<TaskId, Task>

  /** The ids of the tasks in column `c`. */
  function Siblings(tasks: Tasks, c: ColumnId): set<TaskId>
  {
    set id | id in tasks && tasks[id].columnId == c
  }

  /** The positions taken in column `c`. */
  function PositionsIn(tasks: Tasks, c: ColumnId): set<int>
  {
    set id | id in tasks && tasks[id].columnId == c :: tasks[id].position
  }

  /** A column without tasks has no positions taken, and conversely. */
  lemma PositionsEmpty(tasks: Tasks, c: ColumnId)
    ensures PositionsIn(tasks, c) == {} <==> Siblings(tasks, c) == {}
  {
    var ps := PositionsIn(tasks, c);
    forall x | x in ps ensures exists id :: id in Siblings(tasks, c) && tasks[id].position == x {
      var id :| id in tasks && tasks[id].columnId == c && tasks[id].position == x;
      assert id in Siblings(tasks, c);
    }
    if Siblings(tasks, c) != {} {
      var id :| id in Siblings(tasks, c);
      assert tasks[id].position in ps;
    }
  }

  /** The unique index on (columnId, position) (server/src/models/Task.ts:84). */
  predicate UniqueSlots(tasks: Tasks)
  {
    forall i, j ::
      (i in tasks && j in tasks && tasks[i].columnId == tasks[j].columnId
       && tasks[i].position == tasks[j].position) ==> i == j
  }

  /** No task other than `id` occupies position `p` of column `c`. */
  predicate SlotFree(tasks: Tasks, id: TaskId, c: ColumnId, p: int)
  {
    forall j :: j in tasks && j != id ==> tasks[j].columnId != c || tasks[j].position != p
  }

  predicate Dense(tasks: Tasks, c: ColumnId)
  {
    (forall i :: i in tasks && tasks[i].columnId == c ==>
       0 <= tasks[i].position < |Siblings(tasks, c)|)
    && (forall i, j ::
          (i in tasks && j in tasks && tasks[i].columnId == c && tasks[j].columnId == c
           && tasks[i].position == tasks[j].position) ==> i == j)
  }

  /** The selector `{ columnId: c, position: { $gte: lo, $lt: hi } }`, with
      no upper bound when `hi` is None. Positions are integers, so a strict
      lower bound `$gt: x` is `lo == x + 1` and an inclusive upper bound
      `$lte: x` is `hi == Some(x + 1)`. */
  predicate Selected(t: Task, c: ColumnId, lo: int, hi: Option<int>)
  {
    t.columnId == c && lo <= t.position && (hi.None? || t.position < hi.value)
  }

  /** `Task.updateMany(selector, { $inc: { position: delta } })`. */
  function Shift(tasks: Tasks, c: ColumnId, lo: int, hi: Option<int>, delta: int): Tasks
  {
    map id | id in tasks ::
      if Selected(tasks[id], c, lo, hi) then tasks[id].(position := tasks[id].position + delta)
      else tasks[id]
  }

  /** The shifts `task:move` performs before it writes the moved task
      (server/src/socket/taskHandlers.ts:228-265). */
  function MoveShifts(tasks: Tasks, id: TaskId, to: ColumnId, p: int): Tasks
    requires id in tasks
  {
    var from := tasks[id].columnId;
    var was := tasks[id].position;
    if from == to then
      if p < was then Shift(tasks, to, p, Some(was), 1)
      else Shift(tasks, to, was + 1, Some(p + 1), -1)
    else
      Shift(Shift(tasks, from, was + 1, None, -1), to, p, None, 1)
  }

  /** `Task.findByIdAndUpdate(id, { columnId, position, updatedAt })`. */
  function Place(tasks: Tasks, id: TaskId, c: ColumnId, p: int, now: Millis): Tasks
    requires id in tasks
  {
    tasks[id := tasks[id].(columnId := c, position := p, updatedAt := now)]
  }

  /** A whole `task:move` past its gates: nothing for a move onto the
      task's own slot, otherwise the shifts and then the write. */
  function Move(tasks: Tasks, id: TaskId, to: ColumnId, p: int, now: Millis): (r: Tasks)
    requires id in tasks
    ensures id in r && r[id].columnId == to && r[id].position == p
  {
    if tasks[id].columnId == to && tasks[id].position == p then tasks
    else Place(MoveShifts(tasks, id, to, p), id, to, p, now)
  }

  /** `task:delete` past its gates: the delete, then the gap-closing shift
      (server/src/socket/taskHandlers.ts:169-175). */
  function Delete(tasks: Tasks, id: TaskId): Tasks
    requires id in tasks
  {
    Shift(tasks - {id}, tasks[id].columnId, tasks[id].position + 1, None, -1)
  }

  // ----- What a move touches -----

  /** The shifts leave the moved task alone, change nothing but positions,
      and change nothing outside the source and target columns. */
  lemma MoveShiftsFrame(tasks: Tasks, id: TaskId, to: ColumnId, p: int)
    requires id in tasks
    ensures var r := MoveShifts(tasks, id, to, p);
      r.Keys == tasks.Keys && r[id] == tasks[id]
      && (forall j :: j in tasks ==> r[j] == tasks[j].(position := r[j].position))
      && (forall j :: (j in tasks && tasks[j].columnId != tasks[id].columnId
            && tasks[j].columnId != to) ==> r[j] == tasks[j])
  {
  }

  /** After the shifts nobody else holds the target slot, whatever the
      positions were, so the write of the moved task never collides with
      the unique index. */
  lemma MoveSlotFree(tasks: Tasks, id: TaskId, to: ColumnId, p: int)
    requires id in tasks
    requires tasks[id].columnId != to || tasks[id].position != p
    ensures SlotFree(MoveShifts(tasks, id, to, p), id, to, p)
  {
  }

  /** A move changes no task outside the source and target columns, keeps
      the set of tasks, and puts the moved task at (to, p). */
  lemma MoveFrame(tasks: Tasks, id: TaskId, to: ColumnId, p: int, now: Millis)
    requires id in tasks
    requires tasks[id].columnId != to || tasks[id].position != p
    ensures var r := Move(tasks, id, to, p, now);
      r.Keys == tasks.Keys
      && r[id] == tasks[id].(columnId := to, position := p, updatedAt := now)
      && (forall j :: (j in tasks && tasks[j].columnId != tasks[id].columnId
            && tasks[j].columnId != to) ==> r[j] == tasks[j])
  {
    MoveShiftsFrame(tasks, id, to, p);
  }

  /** A move keeps the unique (columnId, position) index, for any target. */
  lemma MoveKeepsUnique(tasks: Tasks, id: TaskId, to: ColumnId, p: int, now: Millis)
    requires id in tasks
    requires UniqueSlots(tasks)
    ensures UniqueSlots(Move(tasks, id, to, p, now))
  {
    var t := tasks[id];
    if t.columnId != to || t.position != p {
      var s := MoveShifts(tasks, id, to, p);
      var r := Move(tasks, id, to, p, now);
      MoveSlotFree(tasks, id, to, p);
      forall i, j | i in r && j in r && r[i].columnId == r[j].columnId && r[i].position == r[j].position
        ensures i == j
      {
        if i != id && j != id {
          ShiftedApart(tasks, id, to, p, i, j);
        }
      }
    }
  }

  /** Two tasks other than the moved one that the shifts put on one slot
      already shared a slot before. */
  lemma ShiftedApart(tasks: Tasks, id: TaskId, to: ColumnId, p: int, i: TaskId, j: TaskId)
    requires id in tasks && i in tasks && j in tasks && i != id && j != id
    requires UniqueSlots(tasks)
    requires var s := MoveShifts(tasks, id, to, p);
      s[i].columnId == s[j].columnId && s[i].position == s[j].position
    ensures i == j
  {
    var t := tasks[id];
    assert tasks[i].position != t.position || tasks[i].columnId != t.columnId;
    assert tasks[j].position != t.position || tasks[j].columnId != t.columnId;
  }

  // ----- Density -----

  /** A same-column move to 0 <= p < n keeps the column dense and puts the
      moved task at p. */
  lemma {:induction false} ReorderKeepsDense(tasks: Tasks, id: TaskId, p: int, now: Millis)
    requires id in tasks
    requires Dense(tasks, tasks[id].columnId)
    requires 0 <= p < |Siblings(tasks, tasks[id].columnId)|
    ensures var c := tasks[id].columnId; var r := Move(tasks, id, c, p, now);
      Dense(r, c) && r[id].position == p && Siblings(r, c) == Siblings(tasks, c)
  {
    var c := tasks[id].columnId;
    var was := tasks[id].position;
    var r := Move(tasks, id, c, p, now);
    if p != was {
      MoveShiftsFrame(tasks, id, c, p);
      assert Siblings(r, c) == Siblings(tasks, c);
      var n := |Siblings(tasks, c)|;
      forall i | i in r && r[i].columnId == c ensures 0 <= r[i].position < n {
        if i != id {
          assert tasks[i].position != was;
        }
      }
      forall i, j | i in r && j in r && r[i].columnId == c && r[j].columnId == c && r[i].position == r[j].position
        ensures i == j
      {
        if i != id && j != id {
          assert tasks[i].position != was && tasks[j].position != was;
        }
        if i != id {
          assert tasks[i].position != was;
        }
        if j != id {
          assert tasks[j].position != was;
        }
      }
    }
  }

  /** The other tasks of the column keep their relative order under a
      same-column move. */
  lemma ReorderKeepsOrder(tasks: Tasks, id: TaskId, p: int, now: Millis, i: TaskId, j: TaskId)
    requires id in tasks && i in tasks && j in tasks && i != id && j != id
    requires UniqueSlots(tasks)
    requires tasks[i].columnId == tasks[id].columnId == tasks[j].columnId
    ensures var r := Move(tasks, id, tasks[id].columnId, p, now);
      tasks[i].position < tasks[j].position <==> r[i].position < r[j].position
  {
    assert tasks[i].position != tasks[id].position;
    assert tasks[j].position != tasks[id].position;
  }

  /** A move to another column at 0 <= p <= |target| keeps both columns
      dense: the source loses the task and the target gains it at p. */
  lemma MoveAcrossKeepsDense(tasks: Tasks, id: TaskId, to: ColumnId, p: int, now: Millis)
    requires id in tasks
    requires tasks[id].columnId != to
    requires Dense(tasks, tasks[id].columnId) && Dense(tasks, to)
    requires 0 <= p <= |Siblings(tasks, to)|
    ensures var from := tasks[id].columnId; var r := Move(tasks, id, to, p, now);
      Dense(r, from) && Dense(r, to) && r[id].columnId == to && r[id].position == p
      && Siblings(r, from) == Siblings(tasks, from) - {id}
      && Siblings(r, to) == Siblings(tasks, to) + {id}
  {
    MoveShiftsFrame(tasks, id, to, p);
    SourceStaysDense(tasks, id, to, p, now);
    TargetStaysDense(tasks, id, to, p, now);
  }

  lemma {:induction false} SourceStaysDense(tasks: Tasks, id: TaskId, to: ColumnId, p: int, now: Millis)
    requires id in tasks
    requires tasks[id].columnId != to
    requires Dense(tasks, tasks[id].columnId)
    ensures var from := tasks[id].columnId; var r := Move(tasks, id, to, p, now);
      Dense(r, from) && Siblings(r, from) == Siblings(tasks, from) - {id}
  {
    var from := tasks[id].columnId;
    var was := tasks[id].position;
    var r := Move(tasks, id, to, p, now);
    MoveShiftsFrame(tasks, id, to, p);
    assert Siblings(r, from) == Siblings(tasks, from) - {id};
    assert id in Siblings(tasks, from);
    assert |Siblings(r, from)| == |Siblings(tasks, from)| - 1;
    forall i | i in r && r[i].columnId == from ensures 0 <= r[i].position < |Siblings(r, from)| {
      assert i != id;
      assert tasks[i].position != was;
    }
    forall i, j | i in r && j in r && r[i].columnId == from && r[j].columnId == from && r[i].position == r[j].position
      ensures i == j
    {
      assert i != id && j != id;
      assert tasks[i].columnId == from && tasks[j].columnId == from;
    }
  }

  lemma TargetStaysDense(tasks: Tasks, id: TaskId, to: ColumnId, p: int, now: Millis)
    requires id in tasks
    requires tasks[id].columnId != to
    requires Dense(tasks, to)
    requires 0 <= p <= |Siblings(tasks, to)|
    ensures var r := Move(tasks, id, to, p, now);
      Dense(r, to) && Siblings(r, to) == Siblings(tasks, to) + {id}
  {
    TargetPositions(tasks, id, to, p, now);
    OpenSlot(tasks, Move(tasks, id, to, p, now), id, to, p);
  }

  /** Putting a new task at p and moving every task at p or after one
      place on keeps a column dense, for 0 <= p <= n. */
  lemma OpenSlot(tasks: Tasks, r: Tasks, id: TaskId, c: ColumnId, p: int)
    requires id in tasks && tasks[id].columnId != c
    requires Dense(tasks, c)
    requires 0 <= p <= |Siblings(tasks, c)|
    requires r.Keys == tasks.Keys && r[id].columnId == c && r[id].position == p
    requires forall i :: i in tasks && i != id ==>
      (r[i].columnId == c <==> tasks[i].columnId == c)
      && (tasks[i].columnId == c ==>
            r[i].position == if tasks[i].position >= p then tasks[i].position + 1 else tasks[i].position)
    ensures Dense(r, c) && Siblings(r, c) == Siblings(tasks, c) + {id}
  {
    var n := |Siblings(tasks, c)|;
    assert Siblings(r, c) == Siblings(tasks, c) + {id};
    assert id !in Siblings(tasks, c);
    assert |Siblings(r, c)| == n + 1;
    forall i | i in r && r[i].columnId == c ensures 0 <= r[i].position < n + 1 {
      if i != id {
        assert tasks[i].columnId == c && 0 <= tasks[i].position < n;
      }
    }
    forall i, j | i in r && j in r && r[i].columnId == c && r[j].columnId == c && r[i].position == r[j].position
      ensures i == j
    {
      if i != id && j != id {
        assert tasks[i].columnId == c && tasks[j].columnId == c;
        assert tasks[i].position == tasks[j].position;
      }
    }
  }

  /** Where a move across columns puts each task of the target column. */
  lemma TargetPositions(tasks: Tasks, id: TaskId, to: ColumnId, p: int, now: Millis)
    requires id in tasks
    requires tasks[id].columnId != to
    ensures var r := Move(tasks, id, to, p, now);
      r.Keys == tasks.Keys && r[id].columnId == to && r[id].position == p
      && forall i :: i in tasks && i != id ==>
           (r[i].columnId == to <==> tasks[i].columnId == to)
           && (tasks[i].columnId == to ==>
                 r[i].position == if tasks[i].position >= p then tasks[i].position + 1 else tasks[i].position)
  {
  }

  // ----- Delete -----

  /** Delete removes exactly the task, changes nothing outside its column,
      and keeps a dense column dense. */
  lemma {:induction false} DeleteKeepsDense(tasks: Tasks, id: TaskId)
    requires id in tasks
    requires Dense(tasks, tasks[id].columnId)
    ensures var c := tasks[id].columnId; var r := Delete(tasks, id);
      Dense(r, c) && Siblings(r, c) == Siblings(tasks, c) - {id}
  {
    var c := tasks[id].columnId;
    var was := tasks[id].position;
    var r := Delete(tasks, id);
    assert Siblings(r, c) == Siblings(tasks, c) - {id};
    assert id in Siblings(tasks, c);
    forall i | i in r && r[i].columnId == c ensures 0 <= r[i].position < |Siblings(r, c)| {
      assert tasks[i].position != was;
    }
  }

  /** Delete keeps the task records other than the deleted one, apart from
      the positions after it in its column, which move up by one. */
  lemma DeleteFrame(tasks: Tasks, id: TaskId)
    requires id in tasks
    ensures var r := Delete(tasks, id);
      r.Keys == tasks.Keys - {id}
      && (forall j :: j in r && (tasks[j].columnId != tasks[id].columnId || tasks[j].position < tasks[id].position)
            ==> r[j] == tasks[j])
      && (forall j :: j in r && tasks[j].columnId == tasks[id].columnId && tasks[j].position > tasks[id].position
            ==> r[j] == tasks[j].(position := tasks[j].position - 1))
  {
  }

  /** Delete keeps the unique (columnId, position) index. */
  lemma DeleteKeepsUnique(tasks: Tasks, id: TaskId)
    requires id in tasks
    requires UniqueSlots(tasks)
    ensures UniqueSlots(Delete(tasks, id))
  {
    var r := Delete(tasks, id);
    forall i, j | i in r && j in r && r[i].columnId == r[j].columnId && r[i].position == r[j].position
      ensures i == j
    {
      assert tasks[i].columnId != tasks[id].columnId || tasks[i].position != tasks[id].position;
      assert tasks[j].columnId != tasks[id].columnId || tasks[j].position != tasks[id].position;
    }
  }

  // ----- Append at max + 1 -----

  /** The positions of a dense column of n tasks are exactly 0 .. n-1. */
  lemma DensePositions(tasks: Tasks, c: ColumnId)
    requires Dense(tasks, c)
    ensures PositionsIn(tasks, c) == Positions.Range(|Siblings(tasks, c)|)
  {
    var n := |Siblings(tasks, c)|;
    ImageSize(tasks, c, Siblings(tasks, c));
    assert PositionsIn(tasks, c) == Image(tasks, Siblings(tasks, c));
    Positions.FullSubsetOfRange(PositionsIn(tasks, c), n);
  }

  function Image(tasks: Tasks, ids: set<TaskId>): set<int>
    requires ids <= tasks.Keys
  {
    set id | id in ids :: tasks[id].position
  }

  /** Tasks of one column at distinct positions take as many positions as
      there are tasks. */
  lemma {:induction false} ImageSize(tasks: Tasks, c: ColumnId, ids: set<TaskId>)
    requires ids <= Siblings(tasks, c)
    requires Dense(tasks, c)
    ensures |Image(tasks, ids)| == |ids|
  {
    if ids != {} {
      var y :| y in ids;
      var rest := ids - {y};
      ImageSize(tasks, c, rest);
      assert Image(tasks, ids) == Image(tasks, rest) + {tasks[y].position};
      assert tasks[y].position !in Image(tasks, rest);
    }
  }

  /** On a dense column of n tasks `getNextPosition` is n. */
  lemma NextOfDense(tasks: Tasks, c: ColumnId)
    requires Dense(tasks, c)
    ensures Positions.NextPosition(PositionsIn(tasks, c)) == |Siblings(tasks, c)|
  {
    DensePositions(tasks, c);
    Positions.NextOfRange(|Siblings(tasks, c)|);
  }

  /** Appending at `getNextPosition` keeps a dense column dense: the new
      task lands at n, one past the last. */
  lemma AppendKeepsDense(tasks: Tasks, id: TaskId, t: Task)
    requires id !in tasks
    requires Dense(tasks, t.columnId)
    requires t.position == Positions.NextPosition(PositionsIn(tasks, t.columnId))
    ensures Dense(tasks[id := t], t.columnId)
    ensures t.position == |Siblings(tasks, t.columnId)|
    ensures Siblings(tasks[id := t], t.columnId) == Siblings(tasks, t.columnId) + {id}
  {
    NextOfDense(tasks, t.columnId);
    AppendAtEnd(tasks, id, t);
  }

  lemma AppendAtEnd(tasks: Tasks, id: TaskId, t: Task)
    requires id !in tasks
    requires Dense(tasks, t.columnId)
    requires t.position == |Siblings(tasks, t.columnId)|
    ensures Dense(tasks[id := t], t.columnId)
    ensures Siblings(tasks[id := t], t.columnId) == Siblings(tasks, t.columnId) + {id}
  {
    var c := t.columnId;
    var n := |Siblings(tasks, c)|;
    var r := tasks[id := t];
    assert Siblings(r, c) == Siblings(tasks, c) + {id};
    assert id !in Siblings(tasks, c);
    assert |Siblings(r, c)| == n + 1;
    forall i | i in r && r[i].columnId == c ensures 0 <= r[i].position < n + 1 {
      if i != id {
        assert tasks[i] == r[i];
      }
    }
    forall i, j | i in r && j in r && r[i].columnId == c && r[j].columnId == c && r[i].position == r[j].position
      ensures i == j
    {
      if i != id && j != id {
        assert tasks[i] == r[i] && tasks[j] == r[j];
      }
    }
  }

  // ----- Worked examples -----

  function Card(id: TaskId, c: ColumnId, p: int): Task
  {
    Task(id, id, None, None, c, p, Medium, None, 0, 0, "u")
  }

  /** [A0, B1, C2, D3] with D moved to 1 gives [A0, D1, B2, C3]. */
  lemma ExampleMoveUp()
    ensures var r := Move(map["A" := Card("A", "c", 0), "B" := Card("B", "c", 1),
                              "C" := Card("C", "c", 2), "D" := Card("D", "c", 3)], "D", "c", 1, 9);
      r.Keys == {"A", "B", "C", "D"}
      && r["A"].position == 0 && r["D"].position == 1 && r["B"].position == 2 && r["C"].position == 3
  {
  }

  /** X[A0, B1] and Y[C0] with A moved to Y at 0 give X[B0] and Y[A0, C1]. */
  lemma ExampleMoveAcross()
    ensures var r := Move(map["A" := Card("A", "X", 0), "B" := Card("B", "X", 1),
                              "C" := Card("C", "Y", 0)], "A", "Y", 0, 9);
      r.Keys == {"A", "B", "C"}
      && r["B"] == Card("B", "X", 0) && r["A"].columnId == "Y" && r["A"].position == 0
      && r["C"] == Card("C", "Y", 1)
  {
  }

  /** Deleting B from [A0, B1, C2] gives [A0, C1]. */
  lemma ExampleDelete()
    ensures var r := Delete(map["A" := Card("A", "c", 0), "B" := Card("B", "c", 1),
                                "C" := Card("C", "c", 2)], "B");
      r == map["A" := Card("A", "c", 0), "C" := Card("C", "c", 1)]
  {
  }
}
