/** The client's presence store (client/src/stores/presence.ts): who is on
    the open board, in arrival order, and the last cursor each user sent. */
module ClientPresenceStore {
  import opened Common
  import Seqs

  datatype PresenceState = PresenceState(onlineUsers: seq<UserPresence>, userCursors: map<UserId, UserPresence>)

  predicate NotUser(p: UserPresence, u: UserId)
  {
    p.userId != u
  }

  /** At most one entry per user. */
  predicate UniqueUsers(s: seq<UserPresence>)
  {
    forall i, j :: 0 <= i < j < |s| ==> s[i].userId != s[j].userId
  }

  /** `findIndex(p => p.userId === u)`: the first entry of u, or -1. */
  function FirstIndex(s: seq<UserPresence>, u: UserId): (r: int)
    ensures -1 <= r < |s|
    ensures r == -1 <==> forall i :: 0 <= i < |s| ==> s[i].userId != u
    ensures r >= 0 ==> s[r].userId == u && forall i :: 0 <= i < r ==> s[i].userId != u
  {
    if s == [] then -1
    else if s[0].userId == u then 0
    else
      var k := FirstIndex(s[1..], u);
      assert forall i :: 1 <= i < |s| ==> s[i] == s[1..][i - 1];
      if k == -1 then -1 else k + 1
  }

  function SetOnlineUsers(st: PresenceState, users: seq<UserPresence>): (r: PresenceState)
    ensures r.onlineUsers == users && r.userCursors == st.userCursors
  {
    st.(onlineUsers := users)
  }

  /** `addUser(p)`: the first entry of p's user is overwritten in place;
      a user not yet listed is appended. Cursors are untouched. */
  function AddUser(st: PresenceState, p: UserPresence): (r: PresenceState)
    ensures r.userCursors == st.userCursors
    ensures p in r.onlineUsers
    ensures |st.onlineUsers| <= |r.onlineUsers| <= |st.onlineUsers| + 1
  {
    var i := FirstIndex(st.onlineUsers, p.userId);
    if i >= 0 then
      assert st.onlineUsers[i := p][i] == p;
      st.(onlineUsers := st.onlineUsers[i := p])
    else st.(onlineUsers := st.onlineUsers + [p])
  }

  /** Adding is an upsert: the user's first entry is replaced in place, or
      the entry is appended when the user is not listed; the list grows only
      for a user it lacks, every
      other user's entry stays, and a list with one entry per user keeps
      that property, so p's user ends with exactly the entry p. */
  lemma AddUserUpserts(st: PresenceState, p: UserPresence)
    ensures var s := st.onlineUsers; var k := FirstIndex(s, p.userId);
      (k >= 0 ==> AddUser(st, p).onlineUsers == s[k := p])
      && (k == -1 ==> AddUser(st, p).onlineUsers == s + [p])
    ensures var r := AddUser(st, p).onlineUsers;
      (|r| == |st.onlineUsers| + 1 <==> forall i :: 0 <= i < |st.onlineUsers| ==> st.onlineUsers[i].userId != p.userId)
      && (forall x :: x in st.onlineUsers && x.userId != p.userId ==> x in r)
      && (UniqueUsers(st.onlineUsers) ==>
            UniqueUsers(r) && forall i :: 0 <= i < |r| && r[i].userId == p.userId ==> r[i] == p)
  {
    var s := st.onlineUsers;
    var k := FirstIndex(s, p.userId);
    var r := AddUser(st, p).onlineUsers;
    forall x | x in s && x.userId != p.userId ensures x in r {
      var i :| 0 <= i < |s| && s[i] == x;
      assert r[i] == x;
    }
    if UniqueUsers(s) && k >= 0 {
      assert forall i :: 0 <= i < |s| && i != k ==> s[i].userId != p.userId;
    }
  }

  /** `removeUser(u)`: u's entries and cursor are dropped; every other
      entry and cursor stays. */
  function RemoveUser(st: PresenceState, u: UserId): (r: PresenceState)
    ensures r.userCursors.Keys == st.userCursors.Keys - {u}
    ensures forall v :: v in r.userCursors ==> r.userCursors[v] == st.userCursors[v]
    ensures |r.onlineUsers| <= |st.onlineUsers|
  {
    PresenceState(Seqs.Filter(st.onlineUsers, (p: UserPresence) => NotUser(p, u)), st.userCursors - {u})
  }

  lemma RemoveUserEffect(st: PresenceState, u: UserId)
    ensures forall x :: x in RemoveUser(st, u).onlineUsers <==> x in st.onlineUsers && x.userId != u
  {
    Seqs.FilterMembers(st.onlineUsers, (p: UserPresence) => NotUser(p, u));
  }

  /** Removing a user just added leaves the list as removing the user from
      the list before the addition: nothing of the added entry survives. */
  lemma RemoveUndoesAdd(st: PresenceState, p: UserPresence)
    ensures RemoveUser(AddUser(st, p), p.userId).onlineUsers == RemoveUser(st, p.userId).onlineUsers
  {
    var keep := (x: UserPresence) => NotUser(x, p.userId);
    var s := st.onlineUsers;
    var k := FirstIndex(s, p.userId);
    if k >= 0 {
      Seqs.FilterSkipsUpdate(s, k, p, keep);
    } else {
      Seqs.FilterAppend(s, [p], keep);
    }
  }

  /** `updateUserCursor(p)`: p becomes its user's cursor; other cursors and
      the list stay. */
  function UpdateUserCursor(st: PresenceState, p: UserPresence): (r: PresenceState)
    ensures r.onlineUsers == st.onlineUsers
    ensures r.userCursors.Keys == st.userCursors.Keys + {p.userId} && r.userCursors[p.userId] == p
    ensures forall v :: v in st.userCursors && v != p.userId ==> r.userCursors[v] == st.userCursors[v]
  {
    st.(userCursors := st.userCursors[p.userId := p])
  }
}
