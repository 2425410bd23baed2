/** The client's board store (client/src/stores/board.ts): the boards the
    user can see and the one currently open. The list keeps arrival order;
    the open board follows the list's updates and deletions of its id. */
module ClientBoardStore {
  import opened Common
  import Seqs

  datatype BoardState = BoardState(currentBoard: Option<Board>, boards: seq<Board>)

  predicate SameId(x: Board, b: Board)
  {
    x.id == b.id
  }

  predicate NotId(x: Board, id: BoardId)
  {
    x.id != id
  }

  function SetCurrentBoard(st: BoardState, b: Option<Board>): (r: BoardState)
    ensures r.currentBoard == b && r.boards == st.boards
  {
    st.(currentBoard := b)
  }

  function SetBoards(st: BoardState, bs: seq<Board>): (r: BoardState)
    ensures r.boards == bs && r.currentBoard == st.currentBoard
  {
    st.(boards := bs)
  }

  /** `addBoard(b)`: b goes last; nothing else changes. */
  function AddBoard(st: BoardState, b: Board): (r: BoardState)
    ensures |r.boards| == |st.boards| + 1 && r.boards[|st.boards|] == b
    ensures r.boards[..|st.boards|] == st.boards && r.currentBoard == st.currentBoard
  {
    st.(boards := st.boards + [b])
  }

  /** `updateBoard(b)`: every board with b's id becomes b in place, and the
      open board becomes b exactly when it has b's id. */
  function UpdateBoard(st: BoardState, b: Board): (r: BoardState)
    ensures |r.boards| == |st.boards|
    ensures forall i :: 0 <= i < |st.boards| && st.boards[i].id == b.id ==> r.boards[i] == b
    ensures forall i :: 0 <= i < |st.boards| && st.boards[i].id != b.id ==> r.boards[i] == st.boards[i]
    ensures (forall i :: 0 <= i < |st.boards| ==> st.boards[i].id != b.id) ==> r.boards == st.boards
    ensures st.currentBoard.Some? && st.currentBoard.value.id == b.id ==> r.currentBoard == Some(b)
    ensures st.currentBoard.None? || st.currentBoard.value.id != b.id ==> r.currentBoard == st.currentBoard
  {
    BoardState(
      if st.currentBoard.Some? && st.currentBoard.value.id == b.id then Some(b) else st.currentBoard,
      Seqs.Replace(st.boards, (x: Board) => SameId(x, b), b))
  }

  /** `deleteBoard(id)`: the boards with that id leave the list, which
      keeps the rest in order, and the open board is closed exactly when it
      has that id. */
  function DeleteBoard(st: BoardState, id: BoardId): (r: BoardState)
    ensures r.currentBoard == if st.currentBoard.Some? && st.currentBoard.value.id == id then None else st.currentBoard
    ensures |r.boards| <= |st.boards|
  {
    BoardState(
      if st.currentBoard.Some? && st.currentBoard.value.id == id then None else st.currentBoard,
      Seqs.Filter(st.boards, (x: Board) => NotId(x, id)))
  }

  /** After a deletion no board with that id is listed or open, every
      other board is still listed, and the list is the old one with
      boards left out, the rest in their order. */
  lemma DeleteBoardEffect(st: BoardState, id: BoardId)
    ensures var r := DeleteBoard(st, id);
      (forall x :: x in r.boards <==> x in st.boards && x.id != id)
      && Seqs.IsSubsequence(r.boards, st.boards)
      && (r.currentBoard.Some? ==> r.currentBoard.value.id != id)
  {
    Seqs.FilterMembers(st.boards, (x: Board) => NotId(x, id));
    Seqs.FilterIsSubsequence(st.boards, (x: Board) => NotId(x, id));
  }

  /** Deleting a board just added undoes the addition when its id was new
      and not open. */
  lemma {:induction false} DeleteUndoesAdd(st: BoardState, b: Board)
    requires forall i :: 0 <= i < |st.boards| ==> st.boards[i].id != b.id
    requires st.currentBoard.Some? ==> st.currentBoard.value.id != b.id
    ensures DeleteBoard(AddBoard(st, b), b.id) == st
  {
    var keep := (x: Board) => NotId(x, b.id);
    Seqs.FilterAppend(st.boards, [b], keep);
    Seqs.FilterAll(st.boards, keep);
  }
}
