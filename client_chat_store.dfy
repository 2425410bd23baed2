/** The client's chat store (client/src/stores/chat.ts): the messages of
    the open board in timestamp order, and who is typing, one indicator per
    user, the latest last. */
module ClientChatStore {
  import opened Common
  import Seqs

  datatype ChatState = ChatState(messages: seq<ChatMessage>, typingUsers: seq<TypingIndicator>)

  /** The comparator on `new Date(timestamp).getTime()`. */
  const ByTime: ChatMessage -> int := (m: ChatMessage) => m.timestamp

  predicate NotTyper(t: TypingIndicator, u: UserId)
  {
    t.userId != u
  }

  /** At most one indicator per user. */
  predicate OnePerUser(s: seq<TypingIndicator>)
  {
    forall i, j :: 0 <= i < j < |s| ==> s[i].userId != s[j].userId
  }

  /** `addMessage(m)`: the list gains exactly m and stays in time order;
      a message with the same timestamp as earlier ones goes after them. */
  function AddMessage(st: ChatState, m: ChatMessage): (r: ChatState)
    ensures r.typingUsers == st.typingUsers
    ensures |r.messages| == |st.messages| + 1
    ensures multiset(r.messages) == multiset(st.messages) + multiset{m}
    ensures Seqs.SortedBy(r.messages, ByTime)
  {
    st.(messages := Seqs.SortBy(st.messages + [m], ByTime))
  }

  /** On a list already in time order, adding a message inserts it after
      every message not later than it. */
  lemma AddMessageInserts(st: ChatState, m: ChatMessage)
    requires Seqs.SortedBy(st.messages, ByTime)
    ensures AddMessage(st, m).messages == Seqs.Insert(m, st.messages, ByTime)
  {
    Seqs.AppendThenSort(st.messages, m, ByTime);
  }

  function SetMessages(st: ChatState, ms: seq<ChatMessage>): (r: ChatState)
    ensures r.typingUsers == st.typingUsers
    ensures Seqs.SortedBy(r.messages, ByTime) && multiset(r.messages) == multiset(ms)
  {
    st.(messages := Seqs.SortBy(ms, ByTime))
  }

  /** `addTypingUser(t)`: any earlier indicator of t's user is dropped and
      t goes last. */
  function AddTypingUser(st: ChatState, t: TypingIndicator): (r: ChatState)
    ensures r.messages == st.messages
    ensures |r.typingUsers| >= 1 && r.typingUsers[|r.typingUsers| - 1] == t
    ensures |r.typingUsers| <= |st.typingUsers| + 1
  {
    st.(typingUsers := Seqs.Filter(st.typingUsers, (x: TypingIndicator) => NotTyper(x, t.userId)) + [t])
  }

  /** Whatever the list held before, t's user ends with exactly one
      indicator, t; every other user's indicators stay, and one indicator
      per user is kept. */
  lemma AddTypingUserEffect(st: ChatState, t: TypingIndicator)
    ensures var r := AddTypingUser(st, t).typingUsers;
      (forall i :: 0 <= i < |r| - 1 ==> r[i].userId != t.userId)
      && (forall x :: x in r <==> x == t || (x in st.typingUsers && x.userId != t.userId))
      && (OnePerUser(st.typingUsers) ==> OnePerUser(r))
  {
    var keep := (x: TypingIndicator) => NotTyper(x, t.userId);
    var kept := Seqs.Filter(st.typingUsers, keep);
    var r := kept + [t];
    Seqs.FilterMembers(st.typingUsers, keep);
    assert forall i :: 0 <= i < |r| - 1 ==> r[i] == kept[i] && r[i] in kept;
    if OnePerUser(st.typingUsers) {
      FilterKeepsOnePerUser(st.typingUsers, keep);
    }
  }

  /** A filtered list keeps one indicator per user. */
  lemma {:induction false} FilterKeepsOnePerUser(s: seq<TypingIndicator>, keep: TypingIndicator -> bool)
    requires OnePerUser(s)
    ensures OnePerUser(Seqs.Filter(s, keep))
  {
    if s != [] {
      FilterKeepsOnePerUser(s[1..], keep);
      Seqs.FilterMembers(s[1..], keep);
      assert forall x :: x in s[1..] ==> x.userId != s[0].userId;
    }
  }

  /** `removeTypingUser(u)`: u's indicators go; the others stay in order. */
  function RemoveTypingUser(st: ChatState, u: UserId): (r: ChatState)
    ensures r.messages == st.messages && |r.typingUsers| <= |st.typingUsers|
  {
    st.(typingUsers := Seqs.Filter(st.typingUsers, (x: TypingIndicator) => NotTyper(x, u)))
  }

  /** Removing a user after adding their indicator removes every trace of
      it: the list is that of removing the user from the list before. */
  lemma RemoveUndoesAddTyping(st: ChatState, t: TypingIndicator)
    ensures RemoveTypingUser(AddTypingUser(st, t), t.userId) == RemoveTypingUser(st, t.userId)
    ensures forall x :: x in RemoveTypingUser(st, t.userId).typingUsers <==> x in st.typingUsers && x.userId != t.userId
  {
    var keep := (x: TypingIndicator) => NotTyper(x, t.userId);
    var kept := Seqs.Filter(st.typingUsers, keep);
    Seqs.FilterAppend(kept, [t], keep);
    Seqs.FilterIdempotent(st.typingUsers, keep);
    Seqs.FilterMembers(st.typingUsers, keep);
  }
}
