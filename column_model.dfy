/** The column schema of server/src/models/Column.ts: field rules, the
    unique (boardId, position) index, `getNextPosition`, the pre-save hook
    and `findByBoard`. */
module ColumnModel {
  import opened Common
  import Positions
  import Seqs

  type Columns = map<ColumnId, Column>

  const MaxTitleLength := 50

  /** The fields a new column document receives; absent fields are None. */
  datatype ColumnInput = ColumnInput(title: Option<string>, position: Option<int>, boardId: Option<BoardId>)

  /** The positions taken on board `b`. */
  function PositionsOn(columns: Columns, b: BoardId): set<int>
  {
    set k | k in columns && columns[k].boardId == b :: columns[k].position
  }

  /** The unique index on (boardId, position) (line 46). */
  predicate UniqueSlots(columns: Columns)
  {
    forall i, j ::
      (i in columns && j in columns && columns[i].boardId == columns[j].boardId
       && columns[i].position == columns[j].position) ==> i == j
  }

  /** The ids of the columns on board `b`. */
  function OnBoard(columns: Columns, b: BoardId): set<ColumnId>
  {
    set k | k in columns && columns[k].boardId == b
  }

  lemma PositionsEmpty(columns: Columns, b: BoardId)
    ensures PositionsOn(columns, b) == {} <==> OnBoard(columns, b) == {}
  {
    var ps := PositionsOn(columns, b);
    forall x | x in ps ensures exists k :: k in OnBoard(columns, b) && columns[k].position == x {
      var k :| k in columns && columns[k].boardId == b && columns[k].position == x;
      assert k in OnBoard(columns, b);
    }
    if OnBoard(columns, b) != {} {
      var k :| k in OnBoard(columns, b);
      assert columns[k].position in ps;
    }
  }

  /** `getNextPosition(boardId)`: 0 for a board without columns, otherwise
      one past the largest position on the board. */
  function NextPosition(columns: Columns, b: BoardId): (r: int)
    ensures OnBoard(columns, b) == {} ==> r == 0
    ensures OnBoard(columns, b) != {} ==>
      exists k :: k in columns && columns[k].boardId == b && columns[k].position == r - 1
    ensures forall k :: k in columns && columns[k].boardId == b ==> columns[k].position < r
  {
    var ps := PositionsOn(columns, b);
    PositionsEmpty(columns, b);
    assert forall k :: k in columns && columns[k].boardId == b ==> columns[k].position in ps;
    Positions.NextPosition(ps)
  }

  predicate TitleValid(raw: Option<string>)
  {
    raw.Some? && 1 <= |Trim(raw.value)| <= MaxTitleLength
  }

  predicate InputValid(input: ColumnInput, position: Option<int>)
  {
    TitleValid(input.title) && position.Some? && position.value >= 0
    && input.boardId.Some? && input.boardId.value != ""
  }

  /** Casting and validating a new column whose position the hook has
      settled: a column exactly when every rule holds. */
  function Build(input: ColumnInput, id: ColumnId, position: Option<int>): (r: Result<Column>)
    ensures r.Ok? <==> InputValid(input, position)
    ensures r.Ok? ==>
      r.value == Column(id, Trim(input.title.value), position.value, input.boardId.value)
  {
    if input.title.None? || |Trim(input.title.value)| == 0 then Failure("Column title is required")
    else if |Trim(input.title.value)| > MaxTitleLength then Failure("Column title cannot exceed 50 characters")
    else if position.None? then Failure("Column position is required")
    else if position.value < 0 then Failure("Column position cannot be negative")
    else if input.boardId.None? || input.boardId.value == "" then Failure("Board ID is required")
    else Ok(Column(id, Trim(input.title.value), position.value, input.boardId.value))
  }

  /** Saving a new column as Mongoose runs it: validation first, so the
      position is checked as given, then the position hook of lines 61-77,
      which keeps the position of a validated column. */
  function Create(columns: Columns, input: ColumnInput, id: ColumnId): (r: Result<Column>)
    ensures r.Ok? <==> InputValid(input, input.position)
    ensures input.position.None? ==> r.Failure?
    ensures r == Build(input, id, input.position)
  {
    var validated := Build(input, id, input.position);
    if validated.Failure? then validated
    else
      var col := validated.value;
      var p := Positions.PreSavePosition(true, Some(col.position), NextPosition(columns, col.boardId));
      Ok(col.(position := p.value))
  }

  /** The order the hook's comment intends: the hook fills in a missing
      position, then the schema validates. */
  function CreateHookFirst(columns: Columns, input: ColumnInput, id: ColumnId): (r: Result<Column>)
    ensures r.Ok? && input.position.None? ==> r.value.position == NextPosition(columns, r.value.boardId)
    ensures input.position.Some? ==> r == Create(columns, input, id)
  {
    var next := if input.boardId.Some? then NextPosition(columns, input.boardId.value) else 0;
    Build(input, id, Positions.PreSavePosition(true, input.position, next))
  }

  /** As written, a column without a position is always refused, even one
      the intended order would place at the end of its board. */
  lemma AutoPositionUnreachable(columns: Columns, input: ColumnInput, id: ColumnId)
    requires input.position.None? && input.boardId.Some?
    requires InputValid(input, Some(NextPosition(columns, input.boardId.value)))
    ensures Create(columns, input, id) == Failure("Column position is required")
    ensures CreateHookFirst(columns, input, id).Ok?
  {
  }

  /** In the intended order a new column saved without a position never
      collides with the unique index and goes after every column of its
      board. */
  lemma CreateAppendKeepsUnique(columns: Columns, input: ColumnInput, id: ColumnId)
    requires id !in columns
    requires UniqueSlots(columns)
    requires input.position.None?
    requires CreateHookFirst(columns, input, id).Ok?
    ensures var col := CreateHookFirst(columns, input, id).value;
      UniqueSlots(columns[id := col])
      && forall k :: k in columns && columns[k].boardId == col.boardId ==> columns[k].position < col.position
  {
    var col := CreateHookFirst(columns, input, id).value;
    assert col.position == NextPosition(columns, input.boardId.value);
  }

  /** `findByBoard(boardId)`: the board's columns in ascending position
      order. */
  method FindByBoard(columns: Columns, b: BoardId) returns (r: seq<Column>)
    ensures Seqs.SortedBy(r, (c: Column) => c.position)
    ensures forall i :: 0 <= i < |r| ==> r[i].boardId == b && r[i] in columns.Values
    ensures forall k :: k in columns && columns[k].boardId == b ==> columns[k] in r
    ensures |r| == |OnBoard(columns, b)|
  {
    var keep := (c: Column) => c.boardId == b;
    var found := Seqs.Select(columns, keep);
    assert Seqs.Matching(columns, keep) == OnBoard(columns, b);
    r := Seqs.SortBy(found, (c: Column) => c.position);
    forall i | 0 <= i < |r| ensures r[i].boardId == b && r[i] in columns.Values {
      assert r[i] in multiset(found);
    }
    forall k | k in columns && columns[k].boardId == b ensures columns[k] in r {
      assert columns[k] in multiset(found);
    }
  }
}
