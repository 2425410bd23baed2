/** The typing-indicator registry of server/src/socket/chatHandlers.ts:
    `typingUsers` maps a board to a map from user to that user's pending
    stop-typing timer. A timer is an id drawn from a counter; `pending`
    holds the timers armed and neither cleared nor fired yet, with what
    each was armed for. A timer firing is an explicit event. */
module ChatHandlers {
  import opened Common
  import opened Presence

  type TimerId = nat

  /** What a timer was armed for: the socket that typed, its user, and the
      board the socket was viewing at the time. */
  datatype Armed = Armed(socket: SocketId, userId: UserId, board: BoardId)

  type Typing = map<BoardId, map<UserId, TimerId>>

  datatype TypingState = TypingState(typing: Typing, pending: map<TimerId, Armed>, next: TimerId)

  /** Every entry holds a pending timer armed for that board and user,
      every pending timer is the entry of its board and user, no inner
      map is empty, and the counter is past every timer. */
  ghost predicate Wellformed(st: TypingState)
  {
    (forall b, u :: b in st.typing && u in st.typing[b] ==>
       st.typing[b][u] in st.pending
       && st.pending[st.typing[b][u]].board == b && st.pending[st.typing[b][u]].userId == u)
    && (forall t :: t in st.pending ==>
          st.pending[t].board in st.typing && st.pending[t].userId in st.typing[st.pending[t].board]
          && st.typing[st.pending[t].board][st.pending[t].userId] == t)
    && (forall b :: b in st.typing ==> st.typing[b] != map[])
    && (forall t :: t in st.pending ==> t < st.next)
  }

  /** On a well-formed registry a board and user have at most one pending
      timer. */
  lemma OnePendingPerUser(st: TypingState, t1: TimerId, t2: TimerId)
    requires Wellformed(st)
    requires t1 in st.pending && t2 in st.pending
    requires st.pending[t1].board == st.pending[t2].board && st.pending[t1].userId == st.pending[t2].userId
    ensures t1 == t2
  {
  }

  /** The entry of user u on board b removed, and the board's map with it
      once empty. */
  function Forget(typing: Typing, b: BoardId, u: UserId): (r: Typing)
    ensures b !in typing ==> r == typing
    ensures forall k :: k in typing && k != b ==> k in r && r[k] == typing[k]
    ensures r.Keys <= typing.Keys
    ensures b in r ==> r[b] == typing[b] - {u} && r[b] != map[]
    ensures b in typing && b !in r ==> typing[b] - {u} == map[]
  {
    if b !in typing then typing
    else
      var inner := typing[b] - {u};
      if inner == map[] then typing - {b} else typing[b := inner]
  }

  /** `chat:typing`: nothing without a board; otherwise the user's previous
      timer on the board, if any, is cleared, a fresh one is armed and
      recorded, and the others on the board are told. */
  function StartTyping(st: TypingState, presence: PresenceMap, c: Conn): (r: Outcome<TypingState>)
    ensures CurrentBoard(presence, c.socket).None? ==> r == Outcome(st, [])
    ensures CurrentBoard(presence, c.socket).Some? ==>
      var b := CurrentBoard(presence, c.socket).value;
      b in r.state.typing && c.userId in r.state.typing[b] && st.next in r.state.pending
      && r.state.typing[b][c.userId] == st.next && r.state.pending[st.next] == Armed(c.socket, c.userId, b)
      && r.state.next == st.next + 1
      && r.out == [Emission(ToOthers(b, c.socket), ChatTyping(TypingIndicator(c.userId, c.username, b)))]
  {
    var board := CurrentBoard(presence, c.socket);
    if board.None? then Outcome(st, [])
    else
      var b := board.value;
      var u := c.userId;
      var inner := if b in st.typing then st.typing[b] else map[];
      var cleared := if u in inner then st.pending - {inner[u]} else st.pending;
      var t := st.next;
      Outcome(TypingState(st.typing[b := inner[u := t]], cleared[t := Armed(c.socket, u, b)], t + 1),
              [Emission(ToOthers(b, c.socket), ChatTyping(TypingIndicator(u, c.username, b)))])
  }

  /** `chat:stop-typing`, and the typing cleanup on disconnect: nothing
      without a board; otherwise the user's timer on the board, if any, is
      cleared and its entry forgotten, and the others are told. */
  function StopTyping(st: TypingState, presence: PresenceMap, c: Conn): Outcome<TypingState>
  {
    var board := CurrentBoard(presence, c.socket);
    if board.None? then Outcome(st, [])
    else
      var b := board.value;
      var u := c.userId;
      var st1 := if b in st.typing && u in st.typing[b]
        then TypingState(Forget(st.typing, b, u), st.pending - {st.typing[b][u]}, st.next)
        else st;
      Outcome(st1, [Emission(ToOthers(b, c.socket), ChatStopTyping(u))])
  }

  /** A timer firing, as written: the stop notice and the cleanup use the
      board the socket's record names when the timer fires, which is not
      the board it was armed on once the record has moved on. */
  function ExpireAsWritten(st: TypingState, t: TimerId, boardAtFire: Option<BoardId>): (r: Outcome<TypingState>)
    requires t in st.pending
    ensures r.state.pending == st.pending - {t} && r.state.next == st.next
    ensures boardAtFire.None? ==> r.state.typing == st.typing && r.out == []
    ensures boardAtFire.Some? ==>
      r.state.typing == Forget(st.typing, boardAtFire.value, st.pending[t].userId)
      && r.out == [Emission(ToOthers(boardAtFire.value, st.pending[t].socket), ChatStopTyping(st.pending[t].userId))]
  {
    var a := st.pending[t];
    var pending1 := st.pending - {t};
    if boardAtFire.None? then Outcome(TypingState(st.typing, pending1, st.next), [])
    else
      Outcome(TypingState(Forget(st.typing, boardAtFire.value, a.userId), pending1, st.next),
              [Emission(ToOthers(boardAtFire.value, a.socket), ChatStopTyping(a.userId))])
  }

  /** A timer firing, using the board it was armed on. */
  function Expire(st: TypingState, t: TimerId): Outcome<TypingState>
    requires t in st.pending
  {
    var a := st.pending[t];
    Outcome(TypingState(Forget(st.typing, a.board, a.userId), st.pending - {t}, st.next),
            [Emission(ToOthers(a.board, a.socket), ChatStopTyping(a.userId))])
  }

  // ----- Properties -----

  /** Typing without a board changes nothing and emits nothing; typing on
      a board leaves exactly one fresh pending timer for the user there,
      the previous one cleared, and every other entry as it was. */
  lemma StartTypingEffect(st: TypingState, presence: PresenceMap, c: Conn)
    requires Wellformed(st)
    ensures var o := StartTyping(st, presence, c);
      var board := CurrentBoard(presence, c.socket);
      (board.None? ==> o == Outcome(st, []))
      && (board.Some? ==>
            var b := board.value; var u := c.userId; var t := st.next;
            o.state.typing[b][u] == t && t in o.state.pending && t !in st.pending
            && o.state.pending[t] == Armed(c.socket, u, b)
            && (b in st.typing && u in st.typing[b] ==> st.typing[b][u] !in o.state.pending)
            && (forall t2 :: (t2 in o.state.pending && o.state.pending[t2].board == b
                  && o.state.pending[t2].userId == u) ==> t2 == t)
            && (forall k :: k in st.typing && k != b ==> o.state.typing[k] == st.typing[k])
            && o.out == [Emission(ToOthers(b, c.socket), ChatTyping(TypingIndicator(u, c.username, b)))])
  {
    var o := StartTyping(st, presence, c);
    if CurrentBoard(presence, c.socket).Some? {
      StartTypingKeepsWellformed(st, presence, c);
      var t := st.next;
      forall t2 | t2 in o.state.pending && o.state.pending[t2].board == o.state.pending[t].board
        && o.state.pending[t2].userId == o.state.pending[t].userId
        ensures t2 == t
      {
        OnePendingPerUser(o.state, t2, t);
      }
    }
  }

  lemma StartTypingKeepsWellformed(st: TypingState, presence: PresenceMap, c: Conn)
    requires Wellformed(st)
    ensures Wellformed(StartTyping(st, presence, c).state)
  {
    var board := CurrentBoard(presence, c.socket);
    if board.Some? {
      var b := board.value;
      var u := c.userId;
      var r := StartTyping(st, presence, c).state;
      var t := st.next;
      var inner := if b in st.typing then st.typing[b] else map[];
      assert r.typing == st.typing[b := inner[u := t]];
      forall k, v | k in r.typing && v in r.typing[k]
        ensures r.typing[k][v] in r.pending && r.pending[r.typing[k][v]].board == k && r.pending[r.typing[k][v]].userId == v
      {
        if k != b || v != u {
          var x := st.typing[k][v];
          assert r.typing[k][v] == x && x < t;
          assert u in inner ==> x != inner[u];
        }
      }
      forall x | x in r.pending
        ensures r.pending[x].board in r.typing && r.pending[x].userId in r.typing[r.pending[x].board]
          && r.typing[r.pending[x].board][r.pending[x].userId] == x
      {
        if x != t {
          var a := st.pending[x];
          assert st.typing[a.board][a.userId] == x;
          assert a.board == b ==> a.userId != u;
        }
      }
    }
  }

  /** Stopping removes the user's entry on the board and drops the board's
      map once empty, clears the timer, and keeps the registry well
      formed; others on the board are told even when nothing was pending. */
  lemma StopTypingEffect(st: TypingState, presence: PresenceMap, c: Conn)
    requires Wellformed(st)
    ensures var o := StopTyping(st, presence, c);
      var board := CurrentBoard(presence, c.socket);
      Wellformed(o.state)
      && (board.None? ==> o == Outcome(st, []))
      && (board.Some? ==>
            var b := board.value; var u := c.userId;
            (b in o.state.typing ==> u !in o.state.typing[b] && o.state.typing[b] != map[])
            && (forall t :: t in o.state.pending ==> !(o.state.pending[t].board == b && o.state.pending[t].userId == u))
            && o.out == [Emission(ToOthers(b, c.socket), ChatStopTyping(u))])
  {
    var o := StopTyping(st, presence, c);
    var board := CurrentBoard(presence, c.socket);
    if board.Some? {
      var b := board.value;
      var u := c.userId;
      if b in st.typing && u in st.typing[b] {
        ForgetKeepsWellformed(st, st.typing[b][u]);
        assert o.state == Expire(st, st.typing[b][u]).state;
      }
    }
  }

  /** A timer firing, done right, forgets exactly its own entry and keeps
      the registry well formed. */
  lemma ForgetKeepsWellformed(st: TypingState, t: TimerId)
    requires Wellformed(st)
    requires t in st.pending
    ensures var r := Expire(st, t).state; var a := st.pending[t];
      Wellformed(r)
      && (a.board in r.typing ==> a.userId !in r.typing[a.board])
      && (forall t2 :: t2 in r.pending ==> !(r.pending[t2].board == a.board && r.pending[t2].userId == a.userId))
  {
    var r := Expire(st, t).state;
    var a := st.pending[t];
    forall x | x in r.pending
      ensures r.pending[x].board in r.typing && r.pending[x].userId in r.typing[r.pending[x].board]
        && r.typing[r.pending[x].board][r.pending[x].userId] == x
    {
      var ax := st.pending[x];
      assert st.typing[ax.board][ax.userId] == x;
      if ax.board == a.board {
        assert ax.userId != a.userId;
        assert ax.userId in st.typing[a.board] - {a.userId};
      }
    }
    forall b, u | b in r.typing && u in r.typing[b]
      ensures r.typing[b][u] in r.pending && r.pending[r.typing[b][u]].board == b && r.pending[r.typing[b][u]].userId == u
    {
      assert u in st.typing[b] && r.typing[b][u] == st.typing[b][u];
      if b == a.board {
        assert u != a.userId;
      }
    }
  }

  /** While the socket still views the board the timer was armed on, the
      code as written does the right thing. */
  lemma ExpireAsWrittenAgrees(st: TypingState, t: TimerId)
    requires t in st.pending
    ensures ExpireAsWritten(st, t, Some(st.pending[t].board)) == Expire(st, t)
  {
  }

  /** A user types on b1, then the socket's record is moved to b2 in place
      (the older `board:join`) before the timer fires: the stop notice
      goes to b2 and the b1 entry stays behind, naming a timer that has
      fired. The corrected expiry keeps the registry well formed. */
  lemma StaleEntryAfterSwitch()
    ensures var st := TypingState(map["b1" := map["u" := 0]], map[0 := Armed("s", "u", "b1")], 1);
      var o := ExpireAsWritten(st, 0, Some("b2"));
      Wellformed(st)
      && !Wellformed(o.state) && o.state.typing["b1"]["u"] == 0 && 0 !in o.state.pending
      && o.out == [Emission(ToOthers("b2", "s"), ChatStopTyping("u"))]
      && Wellformed(Expire(st, 0).state)
  {
    var st := TypingState(map["b1" := map["u" := 0]], map[0 := Armed("s", "u", "b1")], 1);
    ForgetKeepsWellformed(st, 0);
  }

  /** The same happens when the socket has left the board (the older
      `board:leave` clears the record's board): the entry is never
      removed and no stop notice is sent. */
  lemma StaleEntryAfterLeave()
    ensures var st := TypingState(map["b1" := map["u" := 0]], map[0 := Armed("s", "u", "b1")], 1);
      var o := ExpireAsWritten(st, 0, None);
      !Wellformed(o.state) && o.state.typing == st.typing && o.out == []
  {
    var st := TypingState(map["b1" := map["u" := 0]], map[0 := Armed("s", "u", "b1")], 1);
    var r := ExpireAsWritten(st, 0, None).state;
    assert "b1" in r.typing && "u" in r.typing["b1"] && r.typing["b1"]["u"] !in r.pending;
  }

  // ----- The mutable registry -----

  class TypingRegistry {
    var typing: Typing
    var pending: map<TimerId, Armed>
    var next: TimerId

    constructor ()
      ensures typing == map[] && pending == map[] && next == 0
    {
      typing := map[];
      pending := map[];
      next := 0;
    }

    function Snapshot(): TypingState
      reads this
    {
      TypingState(typing, pending, next)
    }

    /** Drop user u from board b's map, and the map once empty. */
    method Remove(b: BoardId, u: UserId)
      requires b in typing
      modifies this`typing
      ensures typing == Forget(old(typing), b, u)
    {
      var inner := typing[b] - {u};
      if |inner| == 0 {
        typing := typing - {b};
      } else {
        typing := typing[b := inner];
      }
    }

    method HandleTyping(presence: PresenceMap, c: Conn) returns (out: seq<Emission>)
      modifies this
      ensures var o := StartTyping(old(Snapshot()), presence, c); Snapshot() == o.state && out == o.out
    {
      var board := CurrentBoard(presence, c.socket);
      if board.None? {
        return [];
      }
      var b := board.value;
      var u := c.userId;
      if b in typing {
        if u in typing[b] {
          pending := pending - {typing[b][u]};
        }
      } else {
        typing := typing[b := map[]];
      }
      out := [Emission(ToOthers(b, c.socket), ChatTyping(TypingIndicator(u, c.username, b)))];
      var t := next;
      next := next + 1;
      pending := pending[t := Armed(c.socket, u, b)];
      typing := typing[b := typing[b][u := t]];
    }

    method HandleStopTyping(presence: PresenceMap, c: Conn) returns (out: seq<Emission>)
      modifies this
      ensures var o := StopTyping(old(Snapshot()), presence, c); Snapshot() == o.state && out == o.out
    {
      var board := CurrentBoard(presence, c.socket);
      if board.None? {
        return [];
      }
      var b := board.value;
      var u := c.userId;
      if b in typing && u in typing[b] {
        pending := pending - {typing[b][u]};
        Remove(b, u);
      }
      out := [Emission(ToOthers(b, c.socket), ChatStopTyping(u))];
    }

    /** The typing cleanup of the disconnect handler: with a board it is
        exactly a stop-typing, without one it does nothing. */
    method HandleDisconnect(presence: PresenceMap, c: Conn) returns (out: seq<Emission>)
      modifies this
      ensures var o := StopTyping(old(Snapshot()), presence, c); Snapshot() == o.state && out == o.out
    {
      var board := CurrentBoard(presence, c.socket);
      if board.Some? {
        var b := board.value;
        var u := c.userId;
        if b in typing && u in typing[b] {
          pending := pending - {typing[b][u]};
          Remove(b, u);
        }
        out := [Emission(ToOthers(b, c.socket), ChatStopTyping(u))];
      } else {
        out := [];
      }
    }

    /** The timer callback, as written: `boardAtFire` is the board the
        socket's record names when the timer fires. */
    method HandleExpire(t: TimerId, boardAtFire: Option<BoardId>) returns (out: seq<Emission>)
      requires t in pending
      modifies this
      ensures var o := ExpireAsWritten(old(Snapshot()), t, boardAtFire); Snapshot() == o.state && out == o.out
    {
      var a := pending[t];
      pending := pending - {t};
      if boardAtFire.None? {
        return [];
      }
      var b := boardAtFire.value;
      out := [Emission(ToOthers(b, a.socket), ChatStopTyping(a.userId))];
      if b in typing {
        Remove(b, a.userId);
      }
    }
  }
}
