/** The client's task store (client/src/stores/task.ts): one list of tasks
    per column id, each kept sorted by position by the actions that add to
    it. A missing column reads as the empty list (`state.tasks[c] || []`). */
module ClientTaskStore {
  import opened Common
  import Seqs

  type TaskLists = map<ColumnId, seq<Task>>

  /** The comparator `(a, b) => a.position - b.position`. */
  const ByPosition: Task -> int := (t: Task) => t.position

  function ColumnTasks(m: TaskLists, c: ColumnId): seq<Task>
  {
    if c in m then m[c] else []
  }

  predicate NotId(t: Task, id: TaskId)
  {
    t.id != id
  }

  /** Every task id appears at most once in the list. */
  predicate UniqueIds(s: seq<Task>)
  {
    forall i, j :: 0 <= i < j < |s| ==> s[i].id != s[j].id
  }

  /** `setTasks(c, tasks)`: column c holds the given tasks sorted by
      position; no other column changes. */
  function SetTasks(m: TaskLists, c: ColumnId, tasks: seq<Task>): (r: TaskLists)
    ensures r.Keys == m.Keys + {c}
    ensures Seqs.SortedBy(r[c], ByPosition) && multiset(r[c]) == multiset(tasks)
    ensures forall k :: k in m && k != c ==> r[k] == m[k]
  {
    m[c := Seqs.SortBy(tasks, ByPosition)]
  }

  /** `addTask(t)`: the task's column grows by exactly that task and stays
      sorted by position; no other column changes. */
  function AddTask(m: TaskLists, t: Task): (r: TaskLists)
    ensures r.Keys == m.Keys + {t.columnId}
    ensures |r[t.columnId]| == |ColumnTasks(m, t.columnId)| + 1
    ensures multiset(r[t.columnId]) == multiset(ColumnTasks(m, t.columnId)) + multiset{t}
    ensures Seqs.SortedBy(r[t.columnId], ByPosition)
    ensures forall k :: k in m && k != t.columnId ==> r[k] == m[k]
  {
    m[t.columnId := Seqs.SortBy(ColumnTasks(m, t.columnId) + [t], ByPosition)]
  }

  /** On a sorted column, adding a task is inserting it after every task
      whose position is not larger than its own. */
  lemma AddTaskInserts(m: TaskLists, t: Task)
    requires Seqs.SortedBy(ColumnTasks(m, t.columnId), ByPosition)
    ensures AddTask(m, t)[t.columnId] == Seqs.Insert(t, ColumnTasks(m, t.columnId), ByPosition)
  {
    Seqs.AppendThenSort(ColumnTasks(m, t.columnId), t, ByPosition);
  }

  /** `updateTask(t)`: in the column `t` names, every task with t's id is
      replaced by t in place and every other task stays; the length is the
      same, an id the column lacks changes nothing, and no other column
      changes. */
  function UpdateTask(m: TaskLists, t: Task): (r: TaskLists)
    ensures r.Keys == m.Keys + {t.columnId}
    ensures var before := ColumnTasks(m, t.columnId);
      |r[t.columnId]| == |before|
      && (forall i :: 0 <= i < |before| && before[i].id == t.id ==> r[t.columnId][i] == t)
      && (forall i :: 0 <= i < |before| && before[i].id != t.id ==> r[t.columnId][i] == before[i])
      && ((forall i :: 0 <= i < |before| ==> before[i].id != t.id) ==> r[t.columnId] == before)
    ensures forall k :: k in m && k != t.columnId ==> r[k] == m[k]
  {
    m[t.columnId := Seqs.Replace(ColumnTasks(m, t.columnId), (x: Task) => !NotId(x, t.id), t)]
  }

  /** An update that changes a task's column neither moves it nor adds it:
      the old copy stays in the old column and the new column gains
      nothing. */
  lemma UpdateDoesNotMove()
    ensures var a := Common.Task("A", "Write", None, None, "X", 0, Medium, None, 0, 0, "u");
      var m := map["X" := [a]];
      var r := UpdateTask(m, a.(columnId := "Y"));
      r["X"] == [a] && r["Y"] == []
  {
  }

  /** `deleteTask(id)`: every column loses the tasks with that id and keeps
      the others in order. */
  method DeleteTask(m: TaskLists, id: TaskId) returns (r: TaskLists)
    ensures r.Keys == m.Keys
    ensures forall c :: c in m ==> r[c] == Seqs.Filter(m[c], (t: Task) => NotId(t, id))
    ensures forall c, x :: c in m ==> (x in r[c] <==> x in m[c] && x.id != id)
  {
    var keep := (t: Task) => NotId(t, id);
    r := m;
    var rest := m.Keys;
    while rest != {}
      invariant rest <= m.Keys && r.Keys == m.Keys
      invariant forall c :: c in m ==> r[c] == if c in rest then m[c] else Seqs.Filter(m[c], keep)
      decreases rest
    {
      var c :| c in rest;
      r := r[c := Seqs.Filter(r[c], keep)];
      rest := rest - {c};
    }
    forall c | c in m ensures forall x :: x in r[c] <==> x in m[c] && x.id != id {
      Seqs.FilterMembers(m[c], keep);
    }
  }

  /** `find(task => task.id === id)`: the first task with that id. */
  function FindById(s: seq<Task>, id: TaskId): (r: Option<Task>)
    ensures r.Some? <==> exists i :: 0 <= i < |s| && s[i].id == id
    ensures r.Some? ==> r.value.id == id && r.value in s
    ensures r.Some? ==> exists i :: 0 <= i < |s| && s[i] == r.value && forall j :: 0 <= j < i ==> s[j].id != id
  {
    if s == [] then None
    else if s[0].id == id then Some(s[0])
    else
      var r := FindById(s[1..], id);
      assert forall i :: 1 <= i < |s| ==> s[i] == s[1..][i - 1];
      if r.Some? then
        var i :| 0 <= i < |s[1..]| && s[1..][i] == r.value && forall j :: 0 <= j < i ==> s[1..][j].id != id;
        assert s[i + 1] == r.value && forall j :: 0 <= j < i + 1 ==> s[j].id != id;
        r
      else r
  }

  /** `moveTask(id, from, to, p)`: a task not in the source column changes
      nothing; otherwise it leaves the source and a copy with the new
      column and position is added to the target, sorted by position. */
  function MoveTask(m: TaskLists, id: TaskId, from: ColumnId, to: ColumnId, p: int): (r: TaskLists)
    ensures FindById(ColumnTasks(m, from), id).None? ==> r == m
  {
    var fromTasks := ColumnTasks(m, from);
    var found := FindById(fromTasks, id);
    if found.None? then m
    else
      var m1 := m[from := Seqs.Filter(fromTasks, (t: Task) => NotId(t, id))];
      var moved := found.value.(columnId := to, position := p);
      m1[to := Seqs.SortBy(ColumnTasks(m1, to) + [moved], ByPosition)]
  }

  /** Filtering out an id that occurs once removes one task. */
  lemma {:induction false} FilterRemovesOne(s: seq<Task>, id: TaskId)
    requires UniqueIds(s)
    requires exists i :: 0 <= i < |s| && s[i].id == id
    ensures |Seqs.Filter(s, (t: Task) => NotId(t, id))| == |s| - 1
  {
    var keep := (t: Task) => NotId(t, id);
    if s[0].id == id {
      assert forall i :: 0 <= i < |s[1..]| ==> keep(s[1..][i]);
      Seqs.FilterAll(s[1..], keep);
    } else {
      var i :| 0 <= i < |s| && s[i].id == id;
      assert s[1..][i - 1].id == id;
      FilterRemovesOne(s[1..], id);
    }
  }

  /** A move of a task in the source column puts the updated copy in the
      target, which ends sorted; the source no longer holds the id; other
      tasks keep their positions, so the target gains exactly the copy; no
      column but the two changes; and with unique ids in the source the
      number of tasks is preserved. */
  lemma MoveTaskEffect(m: TaskLists, id: TaskId, from: ColumnId, to: ColumnId, p: int)
    requires FindById(ColumnTasks(m, from), id).Some?
    ensures var r := MoveTask(m, id, from, to, p);
      var moved := FindById(ColumnTasks(m, from), id).value.(columnId := to, position := p);
      moved in r[to] && Seqs.SortedBy(r[to], ByPosition)
      && (from != to ==> forall x :: x in r[from] ==> x.id != id)
      && (from != to ==> r[from] == Seqs.Filter(ColumnTasks(m, from), (t: Task) => NotId(t, id)))
      && (from == to ==>
            multiset(r[to]) == multiset(Seqs.Filter(ColumnTasks(m, from), (t: Task) => NotId(t, id))) + multiset{moved})
      && (from != to ==> multiset(r[to]) == multiset(ColumnTasks(m, to)) + multiset{moved})
      && (forall k :: k in m && k != from && k != to ==> r[k] == m[k])
      && (UniqueIds(ColumnTasks(m, from)) && from != to ==>
            |r[from]| == |ColumnTasks(m, from)| - 1 && |r[to]| == |ColumnTasks(m, to)| + 1)
      && (UniqueIds(ColumnTasks(m, from)) && from == to ==> |r[to]| == |ColumnTasks(m, to)|)
  {
    var fromTasks := ColumnTasks(m, from);
    var keep := (t: Task) => NotId(t, id);
    var r := MoveTask(m, id, from, to, p);
    var moved := FindById(fromTasks, id).value.(columnId := to, position := p);
    var m1 := m[from := Seqs.Filter(fromTasks, keep)];
    var target := ColumnTasks(m1, to) + [moved];
    assert r[to] == Seqs.SortBy(target, ByPosition);
    assert moved in multiset(target);
    Seqs.FilterMembers(fromTasks, keep);
    if UniqueIds(fromTasks) {
      FilterRemovesOne(fromTasks, id);
    }
  }
}
