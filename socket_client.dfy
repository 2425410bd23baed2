/** The client's socket lifecycle (client/src/services/socket-functional.ts):
    the token check, the module-level socket state that connect,
    disconnect and reconnection update, and the reconnection backoff, both
    as written and as its schedule intends it. Socket objects are numbered
    handles; opening one is a parameter. */
module SocketClient {
  import opened Common

  /** `defaultConfig.maxReconnectAttempts` and `defaultConfig.reconnectDelay`. */
  const MaxReconnectAttempts := 5
  const BaseDelay := 1000
  /** The backoff cap of `calculateReconnectDelay`. */
  const MaxDelay := 30000

  type Handle = nat

  /** `isValidToken`: a string that is not empty. */
  predicate IsValidToken(token: Option<string>)
  {
    token.Some? && |token.value| > 0
  }

  /** `shouldReconnect`. */
  predicate ShouldReconnect(attempts: int, maxAttempts: int)
  {
    attempts < maxAttempts
  }

  function Pow2(n: nat): (r: nat)
    ensures r >= 1
  {
    if n == 0 then 1 else 2 * Pow2(n - 1)
  }

  /** `calculateReconnectDelay(attempt, base)`: base * 2^attempt, capped at
      30 seconds. */
  function ReconnectDelay(attempt: nat, base: int): (r: int)
    ensures r <= MaxDelay
    ensures r == MaxDelay || r == base * Pow2(attempt)
    ensures base * Pow2(attempt) <= MaxDelay ==> r == base * Pow2(attempt)
  {
    var d := base * Pow2(attempt);
    if d < MaxDelay then d else MaxDelay
  }

  lemma {:induction false} Pow2Grows(a: nat, b: nat)
    requires a <= b
    ensures Pow2(a) <= Pow2(b)
  {
    if a < b {
      Pow2Grows(a, b - 1);
    }
  }

  /** With a non-negative base the delay never shrinks from one attempt
      to the next; with the default base the schedule is 1, 2, 4, 8 and 16
      seconds, and every later attempt waits the cap. */
  lemma ReconnectDelaySchedule(a: nat, b: nat, base: int)
    requires a <= b && base >= 0
    ensures ReconnectDelay(a, base) <= ReconnectDelay(b, base)
    ensures ReconnectDelay(0, BaseDelay) == 1000 && ReconnectDelay(4, BaseDelay) == 16000
    ensures a >= 5 ==> ReconnectDelay(a, BaseDelay) == MaxDelay
  {
    Pow2Grows(a, b);
    assert base * Pow2(a) <= base * Pow2(b);
    if a >= 5 {
      Pow2Grows(5, a);
      assert Pow2(5) == 32;
    }
    assert Pow2(4) == 16;
  }

  /** `SocketState`: the current socket, the token it was opened with, and
      the reconnection bookkeeping. */
  class SocketState {
    var socket: Option<Handle>
    var token: Option<string>
    var reconnectAttempts: int
    var isReconnecting: bool

    /** Attempt counts are never negative. */
    predicate Valid()
      reads this
    {
      reconnectAttempts >= 0
    }

    /** `createSocketState()`. */
    constructor ()
      ensures Valid() && socket.None? && token.None? && reconnectAttempts == 0 && !isReconnecting
    {
      socket := None;
      token := None;
      reconnectAttempts := 0;
      isReconnecting := false;
    }

    /** `connectSocket(token)`: an invalid token is refused before anything
        changes; otherwise the new socket and its token replace the old and
        the reconnection bookkeeping is reset. */
    method Connect(tok: Option<string>, created: Handle) returns (r: Result<Handle>)
      modifies this
      ensures !IsValidToken(tok) ==>
        (r == Failure("Invalid token provided")
         && socket == old(socket) && token == old(token)
         && reconnectAttempts == old(reconnectAttempts) && isReconnecting == old(isReconnecting))
      ensures IsValidToken(tok) ==>
        (r == Ok(created) && socket == Some(created) && token == tok && reconnectAttempts == 0 && !isReconnecting)
    {
      if !IsValidToken(tok) {
        return Failure("Invalid token provided");
      }
      if socket.Some? {
        Disconnect();
      }
      socket := Some(created);
      token := tok;
      reconnectAttempts := 0;
      isReconnecting := false;
      r := Ok(created);
    }

    /** `disconnectSocket()`: back to the initial state. */
    method Disconnect()
      modifies this
      ensures socket.None? && token.None? && reconnectAttempts == 0 && !isReconnecting
    {
      socket := None;
      token := None;
      reconnectAttempts := 0;
      isReconnecting := false;
    }

    /** `attemptReconnection(token)`, its wait taken as one step: nothing
        happens once `maxAttempts` attempts are used up or while another
        attempt runs. Otherwise the attempt is counted, its delay is that of
        the previous count, and the connect either succeeds (the count is
        reset) or fails on the token (the count stays); either way no
        attempt is left running. The count never passes `maxAttempts`. */
    method AttemptReconnection(tok: Option<string>, maxAttempts: int, base: int, created: Handle)
      returns (delay: Option<int>)
      requires Valid()
      modifies this
      ensures Valid()
      ensures !ShouldReconnect(old(reconnectAttempts), maxAttempts) || old(isReconnecting) ==>
        delay.None? && socket == old(socket) && token == old(token)
        && reconnectAttempts == old(reconnectAttempts) && isReconnecting == old(isReconnecting)
      ensures ShouldReconnect(old(reconnectAttempts), maxAttempts) && !old(isReconnecting) ==>
        delay == Some(ReconnectDelay(old(reconnectAttempts), base))
        && !isReconnecting
        && (IsValidToken(tok) ==> socket == Some(created) && token == tok && reconnectAttempts == 0)
        && (!IsValidToken(tok) ==> socket == old(socket) && token == old(token)
                                   && reconnectAttempts == old(reconnectAttempts) + 1)
      ensures old(reconnectAttempts) <= maxAttempts ==> reconnectAttempts <= maxAttempts
    {
      if !ShouldReconnect(reconnectAttempts, maxAttempts) {
        return None;
      }
      if isReconnecting {
        return None;
      }
      isReconnecting := true;
      reconnectAttempts := reconnectAttempts + 1;
      delay := Some(ReconnectDelay(reconnectAttempts - 1, base));
      var r := Connect(tok, created);
      if r.Ok? {
        reconnectAttempts := 0;
      }
      isReconnecting := false;
    }

    /** The `"connect"` listener: a socket that reached the server resets
        the attempt count and nothing else. */
    method OnConnect()
      modifies this
      ensures Valid()
      ensures reconnectAttempts == 0 && socket == old(socket) && token == old(token)
        && isReconnecting == old(isReconnecting)
    {
      reconnectAttempts := 0;
    }

    /** `attemptReconnection` as its backoff intends it: the count survives
        the new socket's creation (which does not mean the server was
        reached) and only `OnConnect` resets it. */
    method AttemptReconnectionKeepingCount(tok: Option<string>, maxAttempts: int, base: int, created: Handle)
      returns (delay: Option<int>)
      requires Valid()
      modifies this
      ensures Valid()
      ensures !ShouldReconnect(old(reconnectAttempts), maxAttempts) || old(isReconnecting) ==>
        delay.None? && socket == old(socket) && token == old(token)
        && reconnectAttempts == old(reconnectAttempts) && isReconnecting == old(isReconnecting)
      ensures ShouldReconnect(old(reconnectAttempts), maxAttempts) && !old(isReconnecting) ==>
        delay == Some(ReconnectDelay(old(reconnectAttempts), base))
        && !isReconnecting && reconnectAttempts == old(reconnectAttempts) + 1
        && (IsValidToken(tok) ==> socket == Some(created) && token == tok)
        && (!IsValidToken(tok) ==> socket == old(socket) && token == old(token))
      ensures old(reconnectAttempts) <= maxAttempts ==> reconnectAttempts <= maxAttempts
    {
      if !ShouldReconnect(reconnectAttempts, maxAttempts) {
        return None;
      }
      if isReconnecting {
        return None;
      }
      isReconnecting := true;
      reconnectAttempts := reconnectAttempts + 1;
      var attempts := reconnectAttempts;
      delay := Some(ReconnectDelay(attempts - 1, base));
      var r := Connect(tok, created);
      reconnectAttempts := attempts;
      isReconnecting := false;
    }
  }

  /** As written: after `connectSocket(tok)`, a run of n `"connect_error"`
      events, none followed by `"connect"`, each call `attemptReconnection`.
      Every attempt waits the base delay, since the count was reset when
      the previous attempt created its socket, and the attempt limit is
      never reached. */
  method RetriesAsWritten(tok: Option<string>, n: nat) returns (delays: seq<Option<int>>)
    requires IsValidToken(tok)
    ensures |delays| == n
    ensures forall k :: 0 <= k < n ==> delays[k] == Some(BaseDelay)
  {
    var st := new SocketState();
    var _ := st.Connect(tok, 0);
    delays := [];
    var k := 0;
    while k < n
      invariant 0 <= k <= n && |delays| == k
      invariant st.Valid() && st.reconnectAttempts == 0 && !st.isReconnecting
      invariant forall j :: 0 <= j < k ==> delays[j] == Some(BaseDelay)
    {
      var d := st.AttemptReconnection(tok, MaxReconnectAttempts, BaseDelay, k + 1);
      delays := delays + [d];
      k := k + 1;
    }
  }

  /** Corrected: with the count kept until `"connect"`, the same run of n
      failures waits 1, 2, 4, 8 and 16 seconds, and every later failure is
      refused ("Max reconnection attempts reached"). */
  method RetriesKeepingCount(tok: Option<string>, n: nat) returns (delays: seq<Option<int>>)
    requires IsValidToken(tok)
    ensures |delays| == n
    ensures forall k :: 0 <= k < n && k < MaxReconnectAttempts ==>
      delays[k] == Some(ReconnectDelay(k, BaseDelay))
    ensures forall k :: MaxReconnectAttempts <= k < n ==> delays[k].None?
    ensures n >= 2 ==> delays[1] == Some(2 * BaseDelay)
  {
    var st := new SocketState();
    var _ := st.Connect(tok, 0);
    delays := [];
    var k := 0;
    while k < n
      invariant 0 <= k <= n && |delays| == k
      invariant st.Valid() && !st.isReconnecting
      invariant st.reconnectAttempts == if k < MaxReconnectAttempts then k else MaxReconnectAttempts
      invariant forall j :: 0 <= j < k && j < MaxReconnectAttempts ==>
        delays[j] == Some(ReconnectDelay(j, BaseDelay))
      invariant forall j :: MaxReconnectAttempts <= j < k ==> delays[j].None?
    {
      var d := st.AttemptReconnectionKeepingCount(tok, MaxReconnectAttempts, BaseDelay, k + 1);
      delays := delays + [d];
      k := k + 1;
    }
    assert Pow2(1) == 2;
  }
}
