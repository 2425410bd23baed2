/** Record shapes shared by the server and the client (shared/types/index.ts),
    the outbound events a handler can emit, and the string helpers the
    schemas rely on. */
module Common {

  datatype Option<T> = None | Some(value: T)

  datatype Result<T> = Ok(value: T) | Failure(message: string)

  type SocketId = string
  type UserId = string
  type BoardId = string
  type ColumnId = string
  type TaskId = string
  type MessageId = string

  /** Instants are integer milliseconds since the epoch (Date.getTime()). */
  type Millis = int

  datatype Priority = Low | Medium | High

  datatype Task = Task(
    id: TaskId,
    title: string,
    description: Option<string>,
    assigneeId: Option<UserId>,
    columnId: ColumnId,
    position: int,
    priority: Priority,
    dueDate: Option<Millis>,
    createdAt: Millis,
    updatedAt: Millis,
    createdBy: UserId)

  datatype Column = Column(id: ColumnId, title: string, position: int, boardId: BoardId)

  datatype Board = Board(
    id: BoardId,
    title: string,
    description: Option<string>,
    ownerId: UserId,
    members: seq<UserId>,
    createdAt: Millis,
    updatedAt: Millis)

  datatype MessageKind = Text | System

  datatype ChatMessage = ChatMessage(
    id: MessageId,
    boardId: BoardId,
    userId: UserId,
    username: string,
    content: string,
    timestamp: Millis,
    kind: MessageKind)

  datatype TypingIndicator = TypingIndicator(userId: UserId, username: string, boardId: BoardId)

  datatype Cursor = Cursor(x: int, y: int)

  /** The presence payload sent to clients; `boardId` is copied from the
      server-side record, which may hold no board. */
  datatype UserPresence = UserPresence(
    userId: UserId,
    username: string,
    avatar: Option<string>,
    boardId: Option<BoardId>,
    cursor: Option<Cursor>)

  /** The authenticated connection a handler runs for: its socket id and
      the user the authentication middleware attached to it. */
  datatype Conn = Conn(socket: SocketId, userId: UserId, username: string, avatar: Option<string>)

  function Lookup<K, V>(m: map<K, V>, k: K): (r: Option<V>)
    ensures r.Some? <==> k in m
    ensures r.Some? ==> r.value == m[k]
  {
    if k in m then Some(m[k]) else None
  }

  /** Who receives an emission: one socket (`socket.emit`), every socket in a
      room (`io.to(room)`), or every socket in a room except the sender
      (`socket.to(room)`). */
  datatype Target =
    | ToSocket(socket: SocketId)
    | ToRoom(room: BoardId)
    | ToOthers(room: BoardId, except: SocketId)

  datatype Event =
    | Error(message: string)
    | Notification(level: string, message: string)
    | Pong
    | BoardUpdated(board: Board)
    | TaskCreated(task: Task)
    | TaskUpdated(task: Task)
    | TaskDeleted(taskId: TaskId)
    | TaskMoved(taskId: TaskId, fromColumnId: ColumnId, toColumnId: ColumnId, position: int)
    | TaskMovedWithTask(taskId: TaskId, columnId: ColumnId, position: int, task: Task)
    | UserJoined(user: UserPresence)
    | UserJoinedId(userId: UserId)
    | UserLeft(userId: UserId)
    | UsersOnline(users: seq<UserPresence>)
    | PresenceUpdate(users: seq<UserPresence>)
    | UserCursor(user: UserPresence)
    | UserCursorAt(userId: UserId, username: string, x: int, y: int)
    | ChatMessageSent(chat: ChatMessage)
    | ChatTyping(typing: TypingIndicator)
    | ChatStopTyping(userId: UserId)
    | ChatUserTyping(username: string)
    | ChatUserStoppedTyping(username: string)

  datatype Emission = Emission(target: Target, event: Event)

  /** A step of a handler: the state it leaves and the events it emits. */
  datatype Outcome<S> = Outcome(state: S, out: seq<Emission>)

  function ErrorTo(s: SocketId, message: string): Emission
  {
    Emission(ToSocket(s), Error(message))
  }

  /** One day in milliseconds. */
  const DayMillis: int := 24 * 60 * 60 * 1000

  /** `Math.ceil(a / b)` for integers and b > 0: the least q with a <= q * b. */
  function CeilDiv(a: int, b: int): (q: int)
    requires b > 0
    ensures (q - 1) * b < a <= q * b
  {
    -((-a) / b)
  }

  function Abs(x: int): (r: nat)
    ensures r == x || r == -x
  {
    if x < 0 then -x else x
  }

  /** JavaScript truthiness of an optional string: absent and "" are falsy. */
  predicate Truthy(o: Option<string>)
  {
    o.Some? && o.value != ""
  }

  /** The characters String.prototype.trim removes: white space and line
      terminators of ECMAScript. */
  predicate IsWhitespace(c: char)
  {
    c == ' ' || c == '\t' || c == '\n' || c == '\r' || c == '\U{0B}' || c == '\U{0C}'
    || c == '\U{A0}' || c == '\U{1680}' || ('\U{2000}' <= c <= '\U{200A}')
    || c == '\U{2028}' || c == '\U{2029}' || c == '\U{202F}' || c == '\U{205F}'
    || c == '\U{3000}' || c == '\U{FEFF}'
  }

  function TrimStart(s: string): (r: string)
    ensures |r| <= |s| && r == s[|s| - |r|..]
    ensures forall i :: 0 <= i < |s| - |r| ==> IsWhitespace(s[i])
    ensures r != [] ==> !IsWhitespace(r[0])
  {
    if s != [] && IsWhitespace(s[0]) then TrimStart(s[1..]) else s
  }

  function TrimEnd(s: string): (r: string)
    ensures |r| <= |s| && r == s[..|r|]
    ensures forall i :: |r| <= i < |s| ==> IsWhitespace(s[i])
    ensures r != [] ==> !IsWhitespace(r[|r| - 1])
  {
    if s != [] && IsWhitespace(s[|s| - 1]) then TrimEnd(s[..|s| - 1]) else s
  }

  /** Every character of `s` is white space. */
  predicate AllWhitespace(s: string)
  {
    forall k :: 0 <= k < |s| ==> IsWhitespace(s[k])
  }

  /** String.prototype.trim, applied by every `trim: true` schema field: the
      result is the input with its leading and trailing white space cut off,
      so it is a slice of the input with only white space on either side,
      and it has no white space at either end. */
  function Trim(s: string): (r: string)
    ensures |r| <= |s|
    ensures exists i, j ::
              0 <= i <= j <= |s| && r == s[i..j] && AllWhitespace(s[..i]) && AllWhitespace(s[j..])
    ensures r != [] ==> !IsWhitespace(r[0]) && !IsWhitespace(r[|r| - 1])
  {
    var t := TrimStart(s);
    var r := TrimEnd(t);
    TrimSlice(s, t, r);
    assert r != [] ==> r[0] == t[0];
    r
  }

  /** Cutting white space off the front of `s` (giving `t`) and then off
      the back of `t` (giving `r`) cuts a slice out of `s`. */
  lemma TrimSlice(s: string, t: string, r: string)
    requires |t| <= |s| && t == s[|s| - |t|..]
    requires forall k :: 0 <= k < |s| - |t| ==> IsWhitespace(s[k])
    requires |r| <= |t| && r == t[..|r|]
    requires forall k :: |r| <= k < |t| ==> IsWhitespace(t[k])
    ensures exists i, j ::
              0 <= i <= j <= |s| && r == s[i..j] && AllWhitespace(s[..i]) && AllWhitespace(s[j..])
  {
    var i := |s| - |t|;
    var j := i + |r|;
    assert r == s[i..j];
    assert AllWhitespace(s[..i]) by {
      forall k | 0 <= k < i ensures IsWhitespace(s[..i][k]) {
        assert s[..i][k] == s[k];
      }
    }
    assert AllWhitespace(s[j..]) by {
      forall k | 0 <= k < |s| - j ensures IsWhitespace(s[j..][k]) {
        assert s[j..][k] == t[|r| + k];
      }
    }
  }

  /** Trimming twice is trimming once. */
  lemma TrimIdempotent(s: string)
    ensures Trim(Trim(s)) == Trim(s)
  {
    var r := Trim(s);
    assert TrimStart(r) == r;
    assert TrimEnd(r) == r;
  }
}
