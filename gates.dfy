/** The authorization gates the socket handlers apply before any mutation:
    board access (owner or member), the column checks of both handler
    variants, the delete permission and the owner-only member change. */
module Gates {
  import opened Common
  import BoardModel

  /** `validateBoardAccess` (server/src/socket/functional-handlers.ts) and
      the equivalent inline checks of the older handlers. */
  predicate BoardAccess(board: Option<Board>, u: UserId)
  {
    board.Some? && (u in board.value.members || board.value.ownerId == u)
  }

  /** The access gate is the `findUserBoards` filter of the board model. */
  lemma BoardAccessIsUserBoard(board: Option<Board>, u: UserId)
    ensures BoardAccess(board, u) <==> board.Some? && BoardModel.IsUserBoard(board.value, u)
  {
  }

  /** `validateColumnAccess`: the column exists, its board exists, and the
      user may access that board, whichever board the socket is viewing. */
  predicate ColumnAccess(columns: map<ColumnId, Column>, boards: map<BoardId, Board>,
                         cid: Option<ColumnId>, u: UserId)
  {
    cid.Some? && cid.value in columns
    && BoardAccess(Lookup(boards, columns[cid.value].boardId), u)
  }

  /** The older handlers' column gate: the column exists and belongs to the
      board the socket is viewing. */
  predicate ColumnOnBoard(columns: map<ColumnId, Column>, cid: Option<ColumnId>, b: BoardId)
  {
    cid.Some? && cid.value in columns && columns[cid.value].boardId == b
  }

  /** Deleting a task is allowed to its creator and to the owner of the
      viewed board; with no such board only the creator may. */
  predicate MayDelete(t: Task, board: Option<Board>, u: UserId)
  {
    t.createdBy == u || (board.Some? && board.value.ownerId == u)
  }

  /** The older handlers' gates imply the newer ones: a column on the viewed
      board, with access to that board, passes `validateColumnAccess`. */
  lemma OnBoardImpliesAccess(columns: map<ColumnId, Column>, boards: map<BoardId, Board>,
                             cid: Option<ColumnId>, b: BoardId, u: UserId)
    requires ColumnOnBoard(columns, cid, b)
    requires BoardAccess(Lookup(boards, b), u)
    ensures ColumnAccess(columns, boards, cid, u)
  {
  }

  /** The converse fails: a member of two boards passes
      `validateColumnAccess` for a column of the board they are not
      viewing. */
  lemma AccessWithoutOnBoard()
    ensures var boards := map["b1" := Board("b1", "One", None, "u", ["u"], 0, 0),
                              "b2" := Board("b2", "Two", None, "u", ["u"], 0, 0)];
      var columns := map["c2" := Column("c2", "Todo", 0, "b2")];
      ColumnAccess(columns, boards, Some("c2"), "u") && !ColumnOnBoard(columns, Some("c2"), "b1")
  {
  }
}
