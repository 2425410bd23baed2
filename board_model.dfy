/** The board schema of server/src/models/Board.ts: field rules, the
    pre-save hook that keeps the owner among the members, and the three
    board queries, newest first. */
module BoardModel {
  import opened Common
  import Seqs

  type Boards = map<BoardId, Board>

  const MaxTitleLength := 100
  const MaxDescriptionLength := 500

  /** The owner joined to the member list, as the pre-save hook does it:
      appended at the end when missing, otherwise nothing changes. */
  function WithOwner(members: seq<UserId>, owner: UserId): (r: seq<UserId>)
    ensures owner in r
    ensures |members| <= |r| <= |members| + 1
    ensures r[..|members|] == members
    ensures forall u :: u in r ==> u in members || u == owner
    ensures owner in members ==> r == members
  {
    if owner in members then members else members + [owner]
  }

  /** Saving a board twice adds the owner once. */
  lemma {:induction false} PreSaveIdempotent(members: seq<UserId>, owner: UserId)
    ensures WithOwner(WithOwner(members, owner), owner) == WithOwner(members, owner)
  {
    assert owner in WithOwner(members, owner);
  }

  /** A board document being saved: the hook mutates `members` in place. */
  class BoardDocument {
    var ownerId: UserId
    var members: seq<UserId>

    constructor (ownerId: UserId, members: seq<UserId>)
      ensures this.ownerId == ownerId && this.members == members
    {
      this.ownerId := ownerId;
      this.members := members;
    }

    /** The pre-save hook: push the owner unless `members` includes it. */
    method PreSave()
      modifies this`members
      ensures members == WithOwner(old(members), ownerId)
      ensures ownerId in members
    {
      if ownerId !in members {
        members := members + [ownerId];
      }
    }
  }

  /** The fields a new board document receives. */
  datatype BoardInput = BoardInput(
    title: Option<string>,
    description: Option<string>,
    ownerId: Option<UserId>,
    members: seq<UserId>)

  predicate InputValid(input: BoardInput)
  {
    input.title.Some? && 1 <= |Trim(input.title.value)| <= MaxTitleLength
    && (input.description.None? || |Trim(input.description.value)| <= MaxDescriptionLength)
    && input.ownerId.Some? && input.ownerId.value != ""
  }

  /** Validating and saving a new board: a board exactly when every rule
      holds, trimmed, stamped `now`, with the owner among the members. */
  function Build(input: BoardInput, id: BoardId, now: Millis): (r: Result<Board>)
    ensures r.Ok? <==> InputValid(input)
    ensures r.Ok? ==>
      r.value.id == id && r.value.title == Trim(input.title.value)
      && r.value.ownerId == input.ownerId.value
      && r.value.members == WithOwner(input.members, input.ownerId.value)
      && r.value.createdAt == now && r.value.updatedAt == now
      && (input.description.Some? ==> r.value.description == Some(Trim(input.description.value)))
      && (input.description.None? ==> r.value.description.None?)
  {
    if input.title.None? || |Trim(input.title.value)| == 0 then Failure("Board title is required")
    else if |Trim(input.title.value)| > MaxTitleLength then Failure("Board title cannot exceed 100 characters")
    else if input.description.Some? && |Trim(input.description.value)| > MaxDescriptionLength then
      Failure("Board description cannot exceed 500 characters")
    else if input.ownerId.None? || input.ownerId.value == "" then Failure("Board owner is required")
    else
      var description := if input.description.Some? then Some(Trim(input.description.value)) else None;
      Ok(Board(id, Trim(input.title.value), description, input.ownerId.value,
               WithOwner(input.members, input.ownerId.value), now, now))
  }

  /** A saved board has its owner among its members. */
  predicate OwnerIsMember(b: Board)
  {
    b.ownerId in b.members
  }

  /** The `$or` filter of `findUserBoards`. */
  predicate IsUserBoard(b: Board, u: UserId)
  {
    b.ownerId == u || u in b.members
  }

  /** Newest first: `sort({ createdAt: -1 })`. */
  ghost predicate NewestFirst(r: seq<Board>)
  {
    forall i, j :: 0 <= i < j < |r| ==> r[i].createdAt >= r[j].createdAt
  }

  /** A query sorted newest first: exactly the boards that satisfy `keep`. */
  method FindSorted(boards: Boards, keep: Board -> bool) returns (r: seq<Board>)
    ensures NewestFirst(r)
    ensures |r| == |Seqs.Matching(boards, keep)|
    ensures forall i :: 0 <= i < |r| ==> keep(r[i]) && r[i] in boards.Values
    ensures forall k :: k in boards && keep(boards[k]) ==> boards[k] in r
  {
    var found := Seqs.Select(boards, keep);
    var key := (b: Board) => -b.createdAt;
    r := Seqs.SortBy(found, key);
    assert Seqs.SortedBy(r, key);
    forall i | 0 <= i < |r| ensures keep(r[i]) && r[i] in boards.Values {
      assert r[i] in multiset(found);
    }
    forall k | k in boards && keep(boards[k]) ensures boards[k] in r {
      assert boards[k] in multiset(found);
    }
  }

  /** The filters of the three board queries. */
  function OwnedBy(owner: UserId): Board -> bool
  {
    (b: Board) => b.ownerId == owner
  }

  function MemberOf(u: UserId): Board -> bool
  {
    (b: Board) => u in b.members
  }

  function UserBoardOf(u: UserId): Board -> bool
  {
    (b: Board) => IsUserBoard(b, u)
  }

  /** `findByOwner(ownerId)`: the owner's boards, each once, newest first. */
  method FindByOwner(boards: Boards, owner: UserId) returns (r: seq<Board>)
    ensures NewestFirst(r)
    ensures |r| == |Seqs.Matching(boards, OwnedBy(owner))|
    ensures forall i :: 0 <= i < |r| ==> r[i].ownerId == owner && r[i] in boards.Values
    ensures forall k :: k in boards && boards[k].ownerId == owner ==> boards[k] in r
  {
    r := FindSorted(boards, OwnedBy(owner));
  }

  /** `findByMember(userId)`: the boards listing the user, each once,
      newest first. */
  method FindByMember(boards: Boards, u: UserId) returns (r: seq<Board>)
    ensures NewestFirst(r)
    ensures |r| == |Seqs.Matching(boards, MemberOf(u))|
    ensures forall i :: 0 <= i < |r| ==> u in r[i].members && r[i] in boards.Values
    ensures forall k :: k in boards && u in boards[k].members ==> boards[k] in r
  {
    r := FindSorted(boards, MemberOf(u));
  }

  /** `findUserBoards(userId)`: the boards the user owns or is a member of,
      each once, newest first. */
  method FindUserBoards(boards: Boards, u: UserId) returns (r: seq<Board>)
    ensures NewestFirst(r)
    ensures |r| == |Seqs.Matching(boards, UserBoardOf(u))|
    ensures forall i :: 0 <= i < |r| ==> IsUserBoard(r[i], u) && r[i] in boards.Values
    ensures forall k :: k in boards && IsUserBoard(boards[k], u) ==> boards[k] in r
  {
    r := FindSorted(boards, UserBoardOf(u));
  }

  /** On boards whose owner is a member, as the hook keeps them, the
      owner-or-member filter matches exactly the member filter. */
  lemma UserBoardsAreMemberBoards(boards: Boards, u: UserId)
    requires forall k :: k in boards ==> OwnerIsMember(boards[k])
    ensures Seqs.Matching(boards, UserBoardOf(u)) == Seqs.Matching(boards, MemberOf(u))
  {
  }
}
