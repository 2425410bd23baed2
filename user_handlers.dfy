/** The cursor relay and the heartbeat of server/src/socket/userHandlers.ts.
    Both refresh `lastSeen` on the socket's presence record in place and
    touch nothing else in the registries. */
module UserHandlers {
  import opened Common
  import opened Presence

  /** `lastSeen := now` on the socket's record, when it has one. */
  function Touch(presence: PresenceMap, s: SocketId, now: Millis): (r: PresenceMap)
    ensures r.Keys == presence.Keys
    ensures s in presence ==> r[s] == presence[s].(lastSeen := now)
    ensures forall x :: x in presence && x != s ==> r[x] == presence[x]
  {
    if s in presence then presence[s := presence[s].(lastSeen := now)] else presence
  }

  /** `user:cursor`: nothing without a board; otherwise the record is
      stamped and the position goes to the others on the board. */
  function Cursor(st: State, c: Conn, at: Common.Cursor, now: Millis): Outcome<State>
  {
    var board := CurrentBoard(st.presence, c.socket);
    if board.None? then Outcome(st, [])
    else
      Outcome(State(Touch(st.presence, c.socket, now), st.rooms),
              [Emission(ToOthers(board.value, c.socket),
                        UserCursor(UserPresence(c.userId, c.username, c.avatar, board, Some(at))))])
  }

  /** `ping`: the record, if any, is stamped, and "pong" always answers. */
  function Ping(st: State, c: Conn, now: Millis): Outcome<State>
  {
    Outcome(State(Touch(st.presence, c.socket, now), st.rooms), [Emission(ToSocket(c.socket), Pong)])
  }

  /** Only `lastSeen` may change: the same records on the same boards, the
      same rooms. */
  ghost predicate OnlyStamped(st: State, r: State)
  {
    r.rooms == st.rooms && r.presence.Keys == st.presence.Keys
    && forall x :: x in st.presence ==> r.presence[x] == st.presence[x].(lastSeen := r.presence[x].lastSeen)
  }

  /** Without a board the cursor handler does nothing; with one, it stamps
      the record and sends the cursor, with the socket's user and board,
      only to the others on that board. Neither handler moves a socket
      between boards, so both keep the registries consistent. */
  lemma CursorEffect(st: State, c: Conn, at: Common.Cursor, now: Millis)
    ensures var o := Cursor(st, c, at, now); var board := CurrentBoard(st.presence, c.socket);
      (board.None? ==> o == Outcome(st, []))
      && (board.Some? ==>
            OnlyStamped(st, o.state) && o.state.presence[c.socket].lastSeen == now
            && |o.out| == 1 && o.out[0].target == ToOthers(board.value, c.socket)
            && o.out[0].event.UserCursor? && o.out[0].event.user.userId == c.userId
            && o.out[0].event.user.boardId == board && o.out[0].event.user.cursor == Some(at))
    ensures Consistent(st) ==> Consistent(Cursor(st, c, at, now).state)
  {
  }

  lemma PingEffect(st: State, c: Conn, now: Millis)
    ensures var o := Ping(st, c, now);
      OnlyStamped(st, o.state) && o.out == [Emission(ToSocket(c.socket), Pong)]
      && (c.socket in st.presence ==> o.state.presence[c.socket].lastSeen == now)
      && (c.socket !in st.presence ==> o.state == st)
    ensures Consistent(st) ==> Consistent(Ping(st, c, now).state)
  {
  }

  method HandleCursor(reg: Registry, c: Conn, at: Common.Cursor, now: Millis) returns (out: seq<Emission>)
    modifies reg
    ensures var o := Cursor(old(reg.Snapshot()), c, at, now); reg.Snapshot() == o.state && out == o.out
  {
    var board := CurrentBoard(reg.presence, c.socket);
    if board.None? {
      return [];
    }
    reg.presence := reg.presence[c.socket := reg.presence[c.socket].(lastSeen := now)];
    out := [Emission(ToOthers(board.value, c.socket),
                     UserCursor(UserPresence(c.userId, c.username, c.avatar, board, Some(at))))];
  }

  method HandlePing(reg: Registry, c: Conn, now: Millis) returns (out: seq<Emission>)
    modifies reg
    ensures var o := Ping(old(reg.Snapshot()), c, now); reg.Snapshot() == o.state && out == o.out
  {
    if c.socket in reg.presence {
      reg.presence := reg.presence[c.socket := reg.presence[c.socket].(lastSeen := now)];
    }
    out := [Emission(ToSocket(c.socket), Pong)];
  }
}
