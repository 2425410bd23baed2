# Real-time Kanban board: a Dafny model of its collaboration core

The system is a collaborative Kanban board split into two parts:

- **Server.** The server keeps tasks, columns, boards and chat messages in a document store. Socket handlers let the users of a board create, edit, move and delete tasks, join and leave boards, chat and share cursors. Every handler first checks who may do what. A registry records which socket views which board; a room index collects the sockets of each board.
- **Client.** The client mirrors the data in small stores, which keep tasks and columns sorted by position and messages by time. It also manages its socket connection and tags tasks as overdue or due soon. Its reconnection backoff is meant to grow exponentially up to a limit of 5 attempts, but as written the attempt count is reset whenever an attempt creates its socket, so every reconnection waits the 1-second base delay and the limit is never reached (see Findings).

This project models that core in Dafny and proves the rules it promises. The main rules are:

- Tasks are renumbered so that every column stays dense (positions `0 .. n-1`) and keeps its unique `(columnId, position)` slots.
- Each handler refuses requests in a fixed order, and a refused request changes nothing.
- The presence registry and the room index agree.
- The typing-timer registry forgets what it should.
- The client stores stay sorted, upsert instead of duplicating, and undo one another where they should.

The older handler files (`server/src/socket/taskHandlers.ts`, `boardHandlers.ts`, `chatHandlers.ts`, `userHandlers.ts`) are modelled alongside the handlers that `server/src/socket/index.ts:21` wires in (`functional-handlers.ts`). The two sets differ in their gates, in renumbering, and in join and leave bookkeeping. The model keeps both and proves how they differ. The one exception is `chat:send`: the older handler in `server/src/socket/chatHandlers.ts` takes the same steps with the same messages, so `FunctionalHandlers.HandleChatSend` models both.

How the model is built:

- **Handlers.** Every socket handler is one atomic step. It takes the store (`Storage.Store`, one map per collection) and the registries (`Presence.Registry`, `ChatHandlers.TypingRegistry`). It updates them in place and returns the events it emits, as `(target, event)` pairs: to the socket, to a room, or to a room minus the sender.
- **Pure specification functions.** Beside each imperative handler sits a pure function: `Join`, `Leave`, `Connect`, `Disconnect`, `StartTyping`, `StopTyping`, `Cursor`, `Ping`, `Reindex.Move`, `Reindex.Delete`. The method's postcondition ties the new state and the emitted events to that function. The lemmas are proved about the functions.
- **Time and ids.** Clock readings, fresh ids and new socket handles are parameters.
- **Layout.** The client stores are pure functions over values. The one exception is `deleteTask`, whose `forEach` over a copied dictionary becomes a loop.

## Model

| member | source | states |
|---|---|---|
| Common.Trim | server/src/models/Task.ts:13 | `trim: true` cuts a slice out of the string with only white space before and after it, and the slice has no white space at either end |
| Common.TrimIdempotent | server/src/models/Task.ts:13 | trimming a stored (already trimmed) value again changes nothing |
| Common.CeilDiv | client/src/lib/task-utils.ts:24 | `Math.ceil(a / b)` is the least q with a <= q * b |
| Seqs.SortBy | client/src/stores/column.ts:10 | the numeric-comparator sort returns a sorted permutation of its input |
| Seqs.AppendThenSort | client/src/stores/column.ts:15-17 | appending to a sorted list and sorting is inserting after every element with a key not larger, as a stable sort does |
| Seqs.FilterIdempotent | client/src/stores/column.ts:33 | filtering out an id twice is filtering it once |
| Seqs.Select | server/src/models/Board.ts:62-74 | a `find(filter)` query returns one value per matching document and only matching ones |
| Positions.NextPosition | server/src/models/Task.ts:99-104 | `getNextPosition` is 0 for nothing taken, otherwise one past the largest taken position |
| Positions.NextPositionFree | server/src/models/Task.ts:99-104 | the next position collides with no taken position and is not negative |
| Positions.PreSavePosition | server/src/models/Task.ts:121-134 | the hook assigns a position only to a new document without one; every other position is kept |
| Positions.NextOfRange | server/src/models/Column.ts:53-58 | on the dense positions 0 .. n-1 the next position is n |
| Reindex.Move | server/src/socket/taskHandlers.ts:224-276 | a whole move past the gates puts the task at (to, p); its frame and density are stated by the lemmas below |
| Reindex.MoveShiftsFrame | server/src/socket/taskHandlers.ts:228-265 | the position shifts of a move leave the moved task alone and change positions only |
| Reindex.MoveSlotFree | server/src/socket/taskHandlers.ts:228-276 | after the shifts no other task holds the target slot, so the final write never meets the unique index |
| Reindex.MoveFrame | server/src/socket/taskHandlers.ts:224-276 | a move changes no task outside the source and target columns and writes the moved task at (to, p) |
| Reindex.MoveKeepsUnique | server/src/models/Task.ts:84 | a move keeps the unique (columnId, position) index for any target |
| Reindex.ReorderKeepsDense | server/src/socket/taskHandlers.ts:228-251 | a same-column move to 0 <= p < n keeps the column dense and puts the task at p |
| Reindex.ReorderKeepsOrder | server/src/socket/taskHandlers.ts:233-251 | the other tasks of the column keep their relative order under a reorder |
| Reindex.MoveAcrossKeepsDense | server/src/socket/taskHandlers.ts:252-276 | a cross-column move to 0 <= p <= target size keeps both columns dense |
| Reindex.SourceStaysDense | server/src/socket/taskHandlers.ts:255-258 | closing the gap in the source column keeps it dense without the moved task |
| Reindex.TargetStaysDense | server/src/socket/taskHandlers.ts:261-264 | opening slot p in the target column and writing the task there keeps it dense |
| Reindex.TargetPositions | server/src/socket/taskHandlers.ts:261-276 | where a cross-column move puts each task of the target column |
| Reindex.DeleteKeepsDense | server/src/socket/taskHandlers.ts:169-175 | a delete followed by the gap-closing shift removes exactly the task and keeps its column dense |
| Reindex.DeleteFrame | server/src/socket/taskHandlers.ts:169-175 | delete keeps every other task record apart from the shifted positions of later siblings |
| Reindex.DeleteKeepsUnique | server/src/socket/taskHandlers.ts:169-175 | delete keeps the unique (columnId, position) index |
| Reindex.DensePositions | server/src/models/Task.ts:84 | the positions of a dense column of n tasks are exactly 0 .. n-1 |
| Reindex.NextOfDense | server/src/models/Task.ts:99-104 | on a dense column of n tasks `getNextPosition` is n |
| Reindex.AppendKeepsDense | server/src/models/Task.ts:121-134 | appending at the next position keeps a dense column dense |
| Reindex.AppendAtEnd | server/src/models/Task.ts:121-134 | appending at the next position is a free slot and adds exactly the new task |
| Reindex.ExampleMoveUp | server/src/socket/taskHandlers.ts:233-241 | [A0, B1, C2, D3] with D moved to 1 gives [A0, D1, B2, C3] |
| Reindex.ExampleMoveAcross | server/src/socket/taskHandlers.ts:252-265 | X[A0, B1], Y[C0], A moved to Y at 0 gives X[B0], Y[A0, C1] |
| Reindex.ExampleDelete | server/src/socket/taskHandlers.ts:169-175 | deleting B from [A0, B1, C2] gives [A0, C1] |
| TaskModel.NextPosition | server/src/models/Task.ts:99-104 | the next position in a column is 0 when empty, otherwise one past the position of some task and above every task of the column |
| TaskModel.PreSaveAppends | server/src/models/Task.ts:121-134 | on a dense column the hook gives a new task position n |
| TaskModel.ParsePriority | server/src/models/Task.ts:37-44 | absent means medium; exactly the strings other than the three enum values are rejected |
| TaskModel.Build | server/src/models/Task.ts:10-60 | a task is built exactly when every schema rule holds, with trimmed strings, the defaults and both timestamps |
| TaskModel.Create | server/src/models/Task.ts:32-36 | `Task.create` validates first, so it is exactly validation of the input as given: a task without a position is refused, and the position hook keeps the position of a task that passed |
| TaskModel.CreateHookFirst | server/src/models/Task.ts:120-134 | the order the hook's comment intends: a missing position becomes the column's next position, a given one is kept |
| TaskModel.AutoPositionUnreachable | server/src/models/Task.ts:121-134 | an input that only the hook could complete is refused with "Task position is required", while the intended order accepts it |
| TaskModel.CreateAppendKeepsDense | server/src/models/Task.ts:121-134 | in the intended order a task created without a position takes the free slot at the end of its column, which stays dense |
| TaskModel.IsOverdue | server/src/models/Task.ts:107-111 | never without a due date, otherwise exactly when now is past it |
| TaskModel.OverdueAgreesWithValidator | server/src/models/Task.ts:45-55 | a due date the validator accepts is not overdue then, and overdue stays overdue |
| TaskModel.DaysUntilDue | server/src/models/Task.ts:113-118 | null exactly without a due date; otherwise the days to it, rounded up |
| TaskModel.DaysUntilDueSign | server/src/models/Task.ts:113-118 | overdue tasks have at most 0 days left; the others at least 0 |
| ColumnModel.NextPosition | server/src/models/Column.ts:53-58 | the next column position on a board is 0 when it has none, otherwise above every position there |
| ColumnModel.Build | server/src/models/Column.ts:10-26 | a column is built exactly when the title (trimmed, 1 to 50), position (>= 0) and board rules hold |
| ColumnModel.Create | server/src/models/Column.ts:17-21 | saving a column validates first: exactly validation of the input as given, so a column without a position is refused |
| ColumnModel.CreateHookFirst | server/src/models/Column.ts:60-77 | the intended order: a missing position becomes the board's next position, a given one is kept |
| ColumnModel.AutoPositionUnreachable | server/src/models/Column.ts:61-77 | a column that only the hook could complete is refused with "Column position is required", while the intended order accepts it |
| ColumnModel.CreateAppendKeepsUnique | server/src/models/Column.ts:61-77 | in the intended order a column saved without a position never collides with the unique (boardId, position) index |
| ColumnModel.FindByBoard | server/src/models/Column.ts:49-51 | exactly the board's columns, sorted by position |
| BoardModel.WithOwner | server/src/models/Board.ts:53-59 | the hook adds the owner to the members when missing and changes nothing else |
| BoardModel.PreSaveIdempotent | server/src/models/Board.ts:53-59 | saving twice adds the owner once |
| BoardModel.BoardDocument.constructor | server/src/models/Board.ts:10-32 | a document with the given owner and members |
| BoardModel.BoardDocument.PreSave | server/src/models/Board.ts:53-59 | the in-place hook leaves `members` as the owner-joined list |
| BoardModel.Build | server/src/models/Board.ts:10-32 | a board is built exactly when title (1 to 100), description (at most 500) and owner rules hold, with the owner among the members and no description when none is given |
| BoardModel.FindSorted | server/src/models/Board.ts:62-74 | a query sorted newest first returns exactly the boards that satisfy its filter |
| BoardModel.FindByOwner | server/src/models/Board.ts:62-64 | exactly the user's own boards, one entry per board, newest first |
| BoardModel.FindByMember | server/src/models/Board.ts:66-68 | exactly the boards listing the user as a member, one entry per board, newest first |
| BoardModel.FindUserBoards | server/src/models/Board.ts:70-74 | exactly the boards the user owns or is a member of, one entry per board, newest first |
| BoardModel.UserBoardsAreMemberBoards | server/src/models/Board.ts:70-74 | on boards saved through the hook, the owner-or-member filter is the member filter |
| Storage.ApplyPatch | server/src/socket/taskHandlers.ts:100-104 | every field the update names overwrites the task, `createdBy` included, title and description trimmed; `updatedAt` is stamped; the id and creation time never change |
| Storage.ApplyPatchStoresTrimmed | server/src/models/Task.ts:13-19 | an update stores trimmed text, so writing the stored title or description back changes nothing but `updatedAt` |
| Storage.ApplyPatchIdempotent | server/src/socket/taskHandlers.ts:100-104 | writing the same update twice at one moment is writing it once |
| Storage.WithoutCreator | server/src/models/Task.ts:56-60 | an update with `createdBy` withheld is the same update with the creator kept |
| Storage.MovePatch | server/src/socket/taskHandlers.ts:268-276 | the move write changes column, position and `updatedAt` only |
| Storage.ApplyBoardPatch | server/src/socket/boardHandlers.ts:159-163 | the given board fields overwrite, title and description trimmed, `updatedAt` is stamped, the id and creation time stay |
| Storage.BuildMessage | server/src/models/ChatMessage.ts:10-42 | a message is stored exactly when the content (trimmed, 1 to 1000) and the type ("text" or "system") are valid |
| Storage.Store.CreateTask | server/src/socket/taskHandlers.ts:45-48 | the new task is stored exactly when the schema accepts it as given (a missing position is refused) and its slot is free; otherwise nothing changes |
| Storage.Store.UpdateTask | server/src/socket/taskHandlers.ts:100-109 | no document gives null; a write onto another task's slot fails and changes nothing; otherwise the task as `ApplyPatch` leaves it is stored |
| Storage.Store.DeleteTask | server/src/socket/taskHandlers.ts:169 | the task is removed and nothing else |
| Storage.Store.ShiftTasks | server/src/socket/taskHandlers.ts:172-175 | `updateMany` with `$inc` shifts exactly the selected tasks of the column |
| Storage.Store.UpdateBoard | server/src/socket/boardHandlers.ts:159-168 | a missing board gives null; otherwise the patched board is stored and returned |
| Storage.Store.CreateMessage | server/src/socket/chatHandlers.ts:30-37 | a valid message is appended; an invalid one leaves the log unchanged |
| Presence.SetAdd | server/src/socket/boardHandlers.ts:66 | `Set.add` appends a socket not yet in the room and keeps the members unique |
| Presence.SetDelete | server/src/socket/boardHandlers.ts:112 | `Set.delete` removes exactly that socket and keeps the order of the rest |
| Presence.SetDeleteFacts | server/src/socket/boardHandlers.ts:112 | deleting keeps uniqueness and every other member |
| Presence.Registry.constructor | server/src/socket/utils.ts:4-17 | both registries start empty |
| Presence.RoomAdd | server/src/socket/boardHandlers.ts:63-66 | joining creates the room when absent and adds the socket; no other room changes |
| Presence.RoomDelete | server/src/socket/boardHandlers.ts:40-42 | leaving the previous room removes the socket but keeps the room even when empty |
| Presence.RoomLeave | server/src/socket/boardHandlers.ts:110-116 | leaving removes the socket and drops the room once empty |
| Presence.RoomLeaveIdempotent | server/src/socket/boardHandlers.ts:110-116 | leaving twice is leaving once |
| Presence.Entry | server/src/socket/utils.ts:37-42 | the payload entry copies user, name, board, and the avatar only when truthy |
| Presence.Project | server/src/socket/utils.ts:34-42 | members without a record are skipped; one entry per remaining member, in room order |
| Presence.OnlineUsersShape | server/src/socket/utils.ts:30-43 | no room gives the empty list; otherwise one entry per member with a record, in room order |
| Presence.OnlineUsersKeepsDuplicates | server/src/socket/utils.ts:34-42 | one user with two sockets in a room is listed twice |
| Presence.CurrentBoard | server/src/socket/functional-handlers.ts:63-66 | the board a socket views: none without a record or with a falsy board id |
| Presence.OnlineUsersOfConsistent | server/src/socket/utils.ts:30-43 | on agreeing registries the list holds exactly the records that view the board |
| Presence.Registry.SocketsByUserId | server/src/socket/utils.ts:20-28 | exactly the sockets whose record belongs to the user, each once |
| Gates.BoardAccessIsUserBoard | server/src/socket/functional-handlers.ts:13-14 | `validateBoardAccess` is the owner-or-member filter of `findUserBoards` |
| Gates.OnBoardImpliesAccess | server/src/socket/taskHandlers.ts:26-42 | the older handlers' column-on-viewed-board gate plus board access implies `validateColumnAccess` |
| Gates.AccessWithoutOnBoard | server/src/socket/functional-handlers.ts:16-25 | the converse fails: a member of two boards may write to a column of the board they are not viewing |
| FunctionalHandlers.Guarded | server/src/socket/functional-handlers.ts:103-114 | a failing body yields exactly one error to the socket with the handler's message; a completed body yields its own events |
| FunctionalHandlers.FreshRecord | server/src/socket/functional-handlers.ts:465-472 | a new connection's record names its socket and its user and no board |
| FunctionalHandlers.ConnectKeepsConsistent | server/src/socket/functional-handlers.ts:461-472 | connecting a socket without a record keeps the registries agreeing and starts it on no board |
| FunctionalHandlers.DisconnectForgets | server/src/socket/functional-handlers.ts:478-496 | a disconnect leaves no trace of the socket in either registry and keeps them agreeing |
| FunctionalHandlers.ConnectThenDisconnect | server/src/socket/functional-handlers.ts:461-496 | connecting and disconnecting without a join restores the registries |
| FunctionalHandlers.JoinDenied | server/src/socket/functional-handlers.ts:121-124 | a refused join emits one "Access denied" error and changes neither registry |
| FunctionalHandlers.JoinEffect | server/src/socket/functional-handlers.ts:127-151 | the record points at the board, the socket joins the room and leaves a different previous one, nothing else changes |
| FunctionalHandlers.JoinKeepsConsistent | server/src/socket/functional-handlers.ts:127-151 | joining keeps the registries agreeing |
| FunctionalHandlers.JoiningKeepsConsistent | server/src/socket/functional-handlers.ts:139-151 | the state part of a join keeps the registries agreeing |
| FunctionalHandlers.LeaveEffect | server/src/socket/functional-handlers.ts:165-189 | after a leave the socket is on no board and not in the room; repeating it changes nothing |
| FunctionalHandlers.LeaveKeepsConsistent | server/src/socket/functional-handlers.ts:165-189 | leaving the viewed board, or leaving while on none, keeps the registries agreeing |
| FunctionalHandlers.LeaveKeepsOther | server/src/socket/functional-handlers.ts:177-183 | a room that still holds another socket survives the leave with it |
| FunctionalHandlers.LeaveOtherBoardBreaksConsistency | server/src/socket/functional-handlers.ts:169-174 | leaving a board one is not viewing clears the record's board while the socket stays in the other room |
| FunctionalHandlers.HandleConnect | server/src/socket/functional-handlers.ts:465-472 | the socket's record becomes the fresh record; rooms are untouched |
| FunctionalHandlers.HandleDisconnect | server/src/socket/functional-handlers.ts:478-496 | the registries end as the disconnect function says and the same events go out |
| FunctionalHandlers.HandleJoin | server/src/socket/functional-handlers.ts:117-163 | the registries and the events are those of the join function |
| FunctionalHandlers.HandleLeave | server/src/socket/functional-handlers.ts:165-189 | the registries and the events are those of the leave function |
| FunctionalHandlers.HandleTaskCreate | server/src/socket/functional-handlers.ts:192-219 | no board, no column access, a refused write: one error each and no change; otherwise the task is stored and sent to the viewed board |
| FunctionalHandlers.HandleTaskUpdate | server/src/socket/functional-handlers.ts:221-257 | the gates in order, then the update is written unvalidated, any field including `createdBy`, strings trimmed; a taken slot produces "Failed to update task" |
| FunctionalHandlers.HandleTaskDelete | server/src/socket/functional-handlers.ts:259-286 | past the gates exactly that task is removed and no sibling is renumbered |
| FunctionalHandlers.HandleTaskMove | server/src/socket/functional-handlers.ts:288-332 | both columns must be accessible; only the moved task is rewritten, so a taken target slot fails the move |
| FunctionalHandlers.NoRenumberLeavesGaps | server/src/socket/functional-handlers.ts:314-318 | without renumbering a move or a delete leaves a gap in a dense column |
| FunctionalHandlers.KindOrText | server/src/socket/functional-handlers.ts:349 | `type || "text"`: an absent or empty type becomes "text", any other is kept |
| FunctionalHandlers.HandleChatSend | server/src/socket/functional-handlers.ts:335-359 | no board is one error; a refused message is "Failed to send message"; a stored one goes to the whole board |
| FunctionalHandlers.Relay | server/src/socket/functional-handlers.ts:361-389 | nothing without a board; otherwise exactly one emission of the event to the others on the viewed board |
| FunctionalHandlers.ChatTyping | server/src/socket/functional-handlers.ts:361-367 | at most one emission, carrying the sender's name as typing |
| FunctionalHandlers.ChatStopTyping | server/src/socket/functional-handlers.ts:369-375 | at most one emission, carrying the sender's name as stopped typing |
| FunctionalHandlers.UserCursor | server/src/socket/functional-handlers.ts:378-389 | at most one emission, carrying the sender's id, name and coordinates |
| FunctionalHandlers.RelaysReachOthersOnly | server/src/socket/functional-handlers.ts:361-389 | the typing, stop-typing and cursor relays emit nothing without a board and otherwise one event to the others on it |
| TaskHandlers.HandleCreate | server/src/socket/taskHandlers.ts:17-74 | "Not connected to any board", "Invalid column", "Access denied", "Failed to create task" in that order with no change; otherwise the built task is stored and sent to the room |
| TaskHandlers.HandleUpdate | server/src/socket/taskHandlers.ts:77-133 | no board, no task, task off the viewed board: one error each; otherwise the update (any field including `createdBy`, strings trimmed) is stored unless its slot is taken |
| TaskHandlers.CreatorTakeover | server/src/socket/taskHandlers.ts:100-104 | as written, a member who may not delete a task can write `createdBy` to themself and then may delete it |
| TaskHandlers.GuardedUpdateKeepsDeletePermission | server/src/socket/taskHandlers.ts:158-166 | with `createdBy` withheld from updates, no update changes the creator or who may delete the task |
| TaskHandlers.HandleDelete | server/src/socket/taskHandlers.ts:136-185 | the gates and the creator-or-owner permission in order; then the store is `Reindex.Delete` of the old one and the deletion goes to the room |
| TaskHandlers.HandleMove | server/src/socket/taskHandlers.ts:188-300 | the gates in order; a move onto the task's own slot does and emits nothing; otherwise the store is `Reindex.Move` of the old one and the pre-move column is broadcast as the source |
| BoardHandlers.Joined | server/src/socket/boardHandlers.ts:72-77 | the "user:joined" payload carries the user, its raw avatar and the joined board |
| BoardHandlers.JoinRejected | server/src/socket/boardHandlers.ts:19-32 | "Board not found" and "Access denied to this board" are one error each with no change |
| BoardHandlers.JoinEffect | server/src/socket/boardHandlers.ts:34-66 | the record is pointed at the board and stamped, the socket enters the room and leaves a different previous one, other rooms stay |
| BoardHandlers.JoinKeepsConsistent | server/src/socket/boardHandlers.ts:34-66 | a join by a socket with a record keeps the registries agreeing |
| BoardHandlers.JoiningKeepsConsistent | server/src/socket/boardHandlers.ts:53-66 | the state part of a join keeps the registries agreeing |
| BoardHandlers.JoinWithoutRecordBreaksConsistency | server/src/socket/boardHandlers.ts:57-66 | without a record the socket still enters the room, unbacked by any record |
| BoardHandlers.LeaveEffect | server/src/socket/boardHandlers.ts:99-129 | the socket leaves the room; its record is cleared exactly when it viewed that board; repeating changes nothing |
| BoardHandlers.LeaveKeepsConsistent | server/src/socket/boardHandlers.ts:104-116 | a leave keeps the registries agreeing whatever board the socket viewed |
| BoardHandlers.UpdateDenial | server/src/socket/boardHandlers.ts:135-156 | "Board not found", "Permission denied", "Only board owner can update members" exactly in their cases, in order, as written |
| BoardHandlers.OwnerTakeover | server/src/socket/boardHandlers.ts:150-163 | a member can take ownership and then remove the former owner, who loses access |
| BoardHandlers.GuardedUpdateDenial | server/src/socket/boardHandlers.ts:150-156 | the corrected checks also refuse a change of owner by a non-owner and allow no update the original refuses |
| BoardHandlers.GuardedKeepsOwnership | server/src/socket/boardHandlers.ts:150-163 | under the corrected checks only the owner can change the owner or the members |
| BoardHandlers.MembersMayRename | server/src/socket/boardHandlers.ts:142-163 | a member who is not the owner may still change the title |
| BoardHandlers.HandleJoin | server/src/socket/boardHandlers.ts:16-96 | the registries and events are those of the join function |
| BoardHandlers.HandleLeave | server/src/socket/boardHandlers.ts:99-129 | the registries and events are those of the leave function |
| BoardHandlers.HandleUpdate | server/src/socket/boardHandlers.ts:132-193 | a denial is one error with no change; otherwise the patched board is stored and broadcast and the updater is notified |
| ChatHandlers.OnePendingPerUser | server/src/socket/chatHandlers.ts:69-100 | on a well-formed registry a user has at most one pending timer per board |
| ChatHandlers.Forget | server/src/socket/chatHandlers.ts:115-126 | the user's entry is removed and the board's map with it once empty; nothing else changes |
| ChatHandlers.StartTyping | server/src/socket/chatHandlers.ts:62-104 | no board: no change, no event; otherwise the fresh timer is the user's entry on the board, armed for that socket, and the others are told |
| ChatHandlers.ExpireAsWritten | server/src/socket/chatHandlers.ts:88-98 | the fired timer leaves the pending set; the entry forgotten and the notice sent are those of the board named at fire time, and nothing of either without a board |
| ChatHandlers.StartTypingEffect | server/src/socket/chatHandlers.ts:62-104 | no board: no change, no event; otherwise exactly one fresh pending timer for the user, the previous one cleared, the others told |
| ChatHandlers.StartTypingKeepsWellformed | server/src/socket/chatHandlers.ts:69-100 | typing keeps entries and pending timers in one-to-one agreement |
| ChatHandlers.StopTypingEffect | server/src/socket/chatHandlers.ts:107-133 | the user's entry and timer go, the registry stays well formed, and the others are told even when nothing was pending |
| ChatHandlers.ForgetKeepsWellformed | server/src/socket/chatHandlers.ts:88-98 | the corrected expiry forgets exactly its own entry and keeps the registry well formed |
| ChatHandlers.ExpireAsWrittenAgrees | server/src/socket/chatHandlers.ts:88-98 | while the socket still views the board the timer was armed on, the expiry as written is the corrected one |
| ChatHandlers.StaleEntryAfterSwitch | server/src/socket/chatHandlers.ts:88-98 | after a board switch the expiry as written notifies the new board and leaves a stale entry on the old one |
| ChatHandlers.StaleEntryAfterLeave | server/src/socket/chatHandlers.ts:88-98 | after a leave the expiry as written sends nothing and never removes the entry |
| ChatHandlers.TypingRegistry.constructor | server/src/socket/chatHandlers.ts:13 | no one is typing and no timer is pending |
| ChatHandlers.TypingRegistry.Remove | server/src/socket/chatHandlers.ts:120-124 | the registry's typing map becomes `Forget` of the old one |
| ChatHandlers.TypingRegistry.HandleTyping | server/src/socket/chatHandlers.ts:62-104 | the registry and the events are those of `StartTyping` |
| ChatHandlers.TypingRegistry.HandleStopTyping | server/src/socket/chatHandlers.ts:107-133 | the registry and the events are those of `StopTyping` |
| ChatHandlers.TypingRegistry.HandleDisconnect | server/src/socket/chatHandlers.ts:136-156 | the disconnect cleanup is exactly a stop-typing with a board and nothing without one |
| ChatHandlers.TypingRegistry.HandleExpire | server/src/socket/chatHandlers.ts:88-98 | the timer callback as written, keyed on the board the record names when it fires |
| UserHandlers.Touch | server/src/socket/userHandlers.ts:23 | `lastSeen` of the socket's record is stamped; nothing else changes |
| UserHandlers.CursorEffect | server/src/socket/userHandlers.ts:15-36 | no board: nothing; otherwise only `lastSeen` changes and the cursor goes only to the others on the board |
| UserHandlers.PingEffect | server/src/socket/userHandlers.ts:39-50 | only `lastSeen` changes and "pong" always answers the socket |
| UserHandlers.HandleCursor | server/src/socket/userHandlers.ts:15-36 | the registry and events are those of `Cursor` |
| UserHandlers.HandlePing | server/src/socket/userHandlers.ts:39-50 | the registry and events are those of `Ping` |
| ClientTaskStore.SetTasks | client/src/stores/task.ts:9-16 | the column holds the given tasks sorted by position; no other column changes |
| ClientTaskStore.AddTask | client/src/stores/task.ts:18-32 | the task's column gains exactly the task and stays sorted; other columns stay |
| ClientTaskStore.AddTaskInserts | client/src/stores/task.ts:18-32 | on a sorted column this is a stable insertion |
| ClientTaskStore.UpdateTask | client/src/stores/task.ts:34-48 | in the task's column same-id tasks are replaced in place, the rest kept; an absent id changes nothing |
| ClientTaskStore.UpdateDoesNotMove | client/src/stores/task.ts:34-48 | an update that changes the column leaves the old copy in the old column and adds nothing to the new one |
| ClientTaskStore.DeleteTask | client/src/stores/task.ts:50-63 | every column loses exactly the tasks with that id and keeps the rest in order |
| ClientTaskStore.FindById | client/src/stores/task.ts:71-74 | `find` returns a task exactly when the column has the id, and then the first task with that id |
| ClientTaskStore.MoveTask | client/src/stores/task.ts:74-79 | a task absent from the source column leaves the state unchanged |
| ClientTaskStore.MoveTaskEffect | client/src/stores/task.ts:65-94 | the moved copy is in the sorted target; across columns the source is filtered of the id in order and the target gains exactly the copy; within one column it holds the filtered tasks plus the copy; only the two columns change; the task count is preserved |
| ClientColumnStore.SetColumns | client/src/stores/column.ts:9-11 | the given columns, sorted by position |
| ClientColumnStore.AddColumn | client/src/stores/column.ts:13-19 | the list gains exactly the column and stays sorted |
| ClientColumnStore.ReplaceById | client/src/stores/column.ts:24-26 | each column with the id becomes the new one in its place; the others stay where they are |
| ClientColumnStore.UpdateColumn | client/src/stores/column.ts:21-29 | a sorted permutation of the in-place replacement: same-id columns become the new one, others stay |
| ClientColumnStore.UpdateAbsentKeepsContent | client/src/stores/column.ts:21-29 | an update of an absent id only re-sorts |
| ClientColumnStore.DeleteColumn | client/src/stores/column.ts:31-35 | deleting never lengthens the list |
| ClientColumnStore.DeleteColumnEffect | client/src/stores/column.ts:31-35 | exactly the others remain, twice is once, and a sorted list stays sorted |
| ClientBoardStore.SetCurrentBoard | client/src/stores/board.ts:10-12 | only the open board changes |
| ClientBoardStore.SetBoards | client/src/stores/board.ts:14-16 | only the list changes |
| ClientBoardStore.AddBoard | client/src/stores/board.ts:18-22 | the board goes last, the rest and the open board stay |
| ClientBoardStore.UpdateBoard | client/src/stores/board.ts:24-34 | same-id boards are replaced in place; the open board follows exactly when its id matches |
| ClientBoardStore.DeleteBoard | client/src/stores/board.ts:36-42 | the open board is closed exactly when it has that id |
| ClientBoardStore.DeleteBoardEffect | client/src/stores/board.ts:36-42 | no board with that id remains listed or open; every other stays listed, and the list is the old one with boards left out, the rest in their order |
| ClientBoardStore.DeleteUndoesAdd | client/src/stores/board.ts:18-42 | deleting a just-added board with a new id restores the state |
| ClientPresenceStore.FirstIndex | client/src/stores/presence.ts:15-17 | `findIndex` is -1 exactly when the user is absent, otherwise the first entry |
| ClientPresenceStore.SetOnlineUsers | client/src/stores/presence.ts:8-10 | the list becomes the given one; cursors stay |
| ClientPresenceStore.AddUser | client/src/stores/presence.ts:12-29 | the user ends listed, the list grows by at most one, cursors stay |
| ClientPresenceStore.AddUserUpserts | client/src/stores/presence.ts:12-29 | the user's first entry is replaced at its index, or the entry is appended for a new user; others stay, and one entry per user is kept |
| ClientPresenceStore.RemoveUser | client/src/stores/presence.ts:31-38 | the user's cursor is dropped and the other cursors stay |
| ClientPresenceStore.RemoveUserEffect | client/src/stores/presence.ts:31-38 | exactly the other users' entries remain |
| ClientPresenceStore.RemoveUndoesAdd | client/src/stores/presence.ts:12-38 | removing a user just added is removing them from the list before |
| ClientPresenceStore.UpdateUserCursor | client/src/stores/presence.ts:40-47 | the user's cursor is set; other cursors and the list stay |
| ClientChatStore.AddMessage | client/src/stores/chat.ts:10-17 | the list gains exactly the message and stays in time order |
| ClientChatStore.AddMessageInserts | client/src/stores/chat.ts:10-17 | on an ordered list a message goes after every message not later than it |
| ClientChatStore.SetMessages | client/src/stores/chat.ts:19-26 | the given messages, in time order |
| ClientChatStore.AddTypingUser | client/src/stores/chat.ts:28-38 | the indicator goes last and the list grows by at most one |
| ClientChatStore.AddTypingUserEffect | client/src/stores/chat.ts:28-38 | the user ends with exactly one indicator, others stay, one per user is kept |
| ClientChatStore.RemoveTypingUser | client/src/stores/chat.ts:40-44 | messages stay and the list does not grow |
| ClientChatStore.RemoveUndoesAddTyping | client/src/stores/chat.ts:28-44 | removing after adding equals removing before; exactly the others remain |
| SocketClient.ReconnectDelay | client/src/services/socket-functional.ts:52-53 | min(base * 2^attempt, 30000), never above 30000 |
| SocketClient.ReconnectDelaySchedule | client/src/services/socket-functional.ts:31-36 | the delay never shrinks; with the default base: 1 s, ..., 16 s, then the 30 s cap |
| SocketClient.SocketState.constructor | client/src/services/socket-functional.ts:39-44 | no socket, no token, 0 attempts, not reconnecting |
| SocketClient.SocketState.Connect | client/src/services/socket-functional.ts:71-96 | an invalid token is refused before any change; otherwise socket and token are set and the attempts reset |
| SocketClient.SocketState.Disconnect | client/src/services/socket-functional.ts:98-103 | back to the initial state |
| SocketClient.SocketState.AttemptReconnection | client/src/services/socket-functional.ts:114-149 | nothing at the limit or while reconnecting; otherwise one counted attempt with the previous count's delay, the count reset to 0 once the new socket is created, never left running, never past the limit |
| SocketClient.SocketState.OnConnect | client/src/services/socket-functional.ts:155-158 | a socket that reached the server resets the attempt count and changes nothing else |
| SocketClient.SocketState.AttemptReconnectionKeepingCount | client/src/services/socket-functional.ts:114-149 | corrected: the same gates and delay, with the count kept after the new socket is created, so it only grows until `OnConnect` |
| SocketClient.RetriesAsWritten | client/src/services/socket-functional.ts:71-175 | as written, n failed connections in a row each wait the base delay of 1 s, and none is refused by the limit |
| SocketClient.RetriesKeepingCount | client/src/services/socket-functional.ts:114-175 | corrected, n failed connections in a row wait 1, 2, 4, 8 and 16 s, and every later one is refused by the limit |
| TaskUtils.DateStatusOf | client/src/lib/task-utils.ts:16-31 | overdue exactly when past, due soon exactly when under a day ahead, never both, day count without sign |
| TaskUtils.DateStatusAgreesWithServer | client/src/lib/task-utils.ts:23-29 | the client's overdue flag is the server's `isOverdue` and its day count is the server's count without sign |
| TaskUtils.StatusText | client/src/lib/task-utils.ts:36-42 | "Overdue", "Due Soon", "On Track" exactly in their cases, overdue first |
| TaskUtils.StatusClasses | client/src/lib/task-utils.ts:60-66 | red, orange, grey exactly in the same cases |
| TaskUtils.TextAndClassesAgree | client/src/lib/task-utils.ts:36-66 | the text and the classes always agree; no due date is "On Track" |
| TaskUtils.PriorityConfigFor | client/src/lib/task-utils.ts:47-55 | each priority of the `Task["priority"]` type gets its own table entry with its label; only medium gets the medium entry |
| TaskUtils.PriorityConfigLabels | client/src/lib/task-utils.ts:48-52 | different priorities get different labels and colours |

## Left out

- Socket.io transport is not modelled: rooms inside socket.io, delivery, acknowledgements and transport reconnection. Emissions are returned as `(target, event)` lists.
- A `socket.to(undefined)` emission is modelled as no emission. This is the stop notice of a typing timer firing after a leave.
- Concurrency is not modelled. Each handler is one atomic step, so the interleavings of its awaits with other connections are out of scope.
- Failures of awaited calls are not modelled. The only failures modelled are store refusals: schema rules and the unique index. On other failures, `catch` blocks would emit "Failed to ..." errors.
- The MongoDB per-document unique check during `updateMany` is not modelled. A shift is applied as a whole, and the unique (columnId, position) index is enforced on single-document writes only.
- Query ordering of ties is not modelled. `find` and `sort` results come back in no particular order among equal keys.
- Authentication is left out: JWT, bcrypt and the socket middleware. The connection's user is a parameter.
- Request validation with Joi is left out. Its rules live in the Joi library.
- Wall-clock timers are not modelled. The 3-second typing expiry is an explicit event carrying its timer id.
- Floating point is not modelled. Dates are integer milliseconds, and `Math.ceil` of a division is exact integer division.
- Invalid date strings (NaN) are out of scope.
- Most of the client socket service is left out: event subscription, the category emitters and `cleanup`. Only its state machine and backoff are modelled.
- Only the attempt-counter state of the `"connect"`, `"disconnect"` and `"connect_error"` listeners is modelled: `"connect"` through `OnConnect`, the other two through `AttemptReconnection`. When the events arrive is up to the caller.
- SocketClient.SocketState.Connect: disconnecting the previously connected socket is modelled only through its effect on the state, which is then overwritten whole.
- FunctionalHandlers.Join: assumes the socket has a presence record (the connection handler always registers one first). `{...userInfo!, boardId}` without a record would store a partial record.
- FunctionalHandlers.Join: as the code does, a previous room that the join empties is kept as an empty room rather than dropped; this is modelled, not corrected.
- Storage.ApplyPatch: an update cannot clear an optional field to null; `None` in a patch means the field is absent from the update.
- TaskModel.ParsePriority: a JSON `null` priority is not modelled. `None` means the field is absent, which gives the default "medium"; Mongoose would store `null` as given, since the default applies only to `undefined` and the enum validator skips `null` (`server/src/models/Task.ts:37-44`).
- Presence.Registry.SocketsByUserId: the order of the returned sockets is not stated. The source returns them in the insertion order of the `userPresence` Map (`server/src/socket/utils.ts:20-28`); the model promises only which sockets are returned, each once.
- TaskHandlers.HandleDelete: its "Failed to delete task" branch is not produced, because the in-memory delete and shift cannot fail.
- ChatMessage query helpers are left out: the sorted and limited queries and the system-message constructor of `server/src/models/ChatMessage.ts`.
- The client notification store, networking, caching, the React hooks and components, and configuration are not part of this model.
- In-place sorting of the argument array (`tasks.sort(...)` reorders the caller's array) is not modelled; the stores are modelled on values.
- Mongoose runs schema validation as its first pre-save hook, before the position hooks of `server/src/models/Task.ts:121-134` and `server/src/models/Column.ts:61-77`. `TaskModel.Create` and `ColumnModel.Create` follow that order, and the handlers use them; the intended order is `CreateHookFirst` (see Findings).
- Storage.Store: the unique (columnId, position) index of `server/src/models/Task.ts:84` is assumed to exist. The same keys are also declared without `unique` at `server/src/models/Task.ts:76` and created without it at `server/src/services/database.ts:117-120`. Both declarations get one default index name with different options, so the unique index is likely never built. Without it, the refusals of a taken slot in `CreateTask`, `UpdateTask` and the handlers using them would not happen. The same holds for the (boardId, position) index of `server/src/models/Column.ts:42-46`.
- String lengths are counted in Unicode scalar values (`|s|`), while Mongoose's `minlength` and `maxlength` count UTF-16 code units. A title of 150 emoji is 300 code units: the schema refuses it and `TaskModel.Build` accepts it. This affects `TaskModel.Build`, `ColumnModel.Build`, `BoardModel.Build` and `Storage.BuildMessage`.
- Updates are not validated, as `findByIdAndUpdate` runs no validators without `runValidators`; only the `trim` setters apply. Casting errors of update values (a position that is not a number) are not modelled.
- TaskUtils.PriorityConfigFor: the parameter is the `Task["priority"]` type. Names outside it reach the `|| configs.medium` fallback, or Object.prototype members such as `"toString"`, and are not modelled.

## Findings

| source | as written | input that shows it | evidently intended | confidence | as-written member | corrected member |
|---|---|---|---|---|---|---|
| client/src/services/socket-functional.ts:143 | `attemptReconnection` resets the attempt count to 0 right after `connectSocket` (which resets it too, at :86-92) creates the socket, before the connection has succeeded; a failure comes later through `"connect_error"` (:169-175) | connect, then two `"connect_error"` events in a row: both attempts wait 1000 ms, and any number of failures never reaches "Max reconnection attempts reached" | the count is reset only on `"connect"` (:155-158), so the delay grows 1, 2, 4, 8, 16 s and the sixth failure is refused | high, not executed | SocketClient.RetriesAsWritten | SocketClient.RetriesKeepingCount |
| server/src/socket/boardHandlers.ts:150-163 | only `members` is reserved to the owner; any member may write `ownerId` | board owned by o with members [o, m]; m sends `{ownerId: m}`, then `{members: [m]}`; o has lost access | changing the owner is reserved to the owner, like the members | medium, not executed | BoardHandlers.OwnerTakeover | BoardHandlers.GuardedKeepsOwnership |
| server/src/models/Task.ts:121-134 | schema validation, the first pre-save hook, refuses a missing position before the hook could fill it in | `Task.create` of a task with title, column and creator and no position: "Task position is required" | the hook assigns the next position of the column, as its comment says | medium, not executed | TaskModel.AutoPositionUnreachable | TaskModel.CreateAppendKeepsDense |
| server/src/models/Column.ts:61-77 | the same for columns: validation refuses a missing position before the hook | saving a column with title and board and no position: "Column position is required" | the hook assigns the next position on the board | medium, not executed | ColumnModel.AutoPositionUnreachable | ColumnModel.CreateAppendKeepsUnique |
| server/src/socket/taskHandlers.ts:100-104 | the update is written unfiltered, and `createdBy` is an ordinary schema field, so a member can make themself the creator | task created by a on a board owned by o with members [o, a, m]; m sends `task:update {createdBy: m}`, then `task:delete` passes the creator check | an update cannot change who created a task | medium, not executed | TaskHandlers.CreatorTakeover | TaskHandlers.GuardedUpdateKeepsDeletePermission |
| server/src/socket/chatHandlers.ts:88-98 | the typing timer reads `userInfo.boardId` when it fires, and the older join and leave rewrite that field in place | user types on b1, joins b2 (or leaves b1) within 3 s; the timer notifies b2 (or nobody) and the b1 entry stays, naming a fired timer | the timer cleans up the board it was armed on | high, not executed | ChatHandlers.StaleEntryAfterSwitch | ChatHandlers.ForgetKeepsWellformed |
