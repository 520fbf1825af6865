# Verified model of the CherryRecorder chat core

This project models the chat core of the CherryRecorder server and proves properties of it:

* the server's tables (connected sessions, nickname index, rooms) and the three session fields that
  belong to them, as objects whose handlers update them in place and as a state machine over values;
* the outgoing queues of TCP and WebSocket sessions and their asynchronous write pumps;
* the delivery of global broadcasts and room messages across the server's strand, one strand for each
  session, and write completions that arrive at any time;
* the splitting of received bytes into command lines;
* the message history: appends under short and interrupted writes, whole and bounded reads, file naming.

A strand is a first-in-first-out list of handlers, a handler is one atomic step, write completions and
the expiry of sessions are steps of the environment, and a run is any sequence of possible steps. The
theorems about runs hold for every interleaving.

## How the parts fit

| file | contents |
|---|---|
| `Registry.dfy` | the tables as a value: every handler of `ChatServer` as a function, runs, what callers take care of |
| `Rooms.dfy`, `Nicknames.dfy` | invariants of every run of the tables, the exact conditions of the steps that can break them, lazy expiry, departures |
| `Notices.dfy` | the tasks a join, leave or disconnect appends to each strand, and who hears what |
| `ChatServer.dfy` | `Session`, `ChatRoom` and `ChatServer` as objects, each handler proved to do what the function in `Registry` says |
| `WritePumps.dfy` | the two write pumps as values, and their runs |
| `Sessions.dfy` | `ChatSession` and `WebSocketSession` as objects, proved against the pumps and the line splitting |
| `Delivery.dfy`, `DeliveryOrder.dfy`, `DeliveryRuns.dfy` | the interleaving of all strands, built on the pumps and the tables of `Registry`; order, losslessness, stop |
| `DeliveryServes.dfy` | what is asked for happens: posted tasks are run once and in order, broadcasts arrive, stops are carried out |
| `DeliveryTables.dfy` | the invariants of the tables in every interleaving, and a checked request that breaks one |
| `Lines.dfy`, `Framing.dfy` | `getline` and command lines |
| `SafeNames.dfy`, `MessageHistory.dfy` | file naming, the append and read loops, the history law |
| `Seqs.dfy`, `Wrappers.dfy` | regrouping of concatenations, `Option` |

## Where a natural statement needs a condition

Each has its exact condition, and a run or an input for which it fails.

* A session that joins a full room is refused by the room but still gets it as its current room, and the
  join reports success: `Rooms.JoiningExactly`, `Rooms.FullRoomSplitsMembership`.
* Leaving a room clears the current room even when the session was in another one: `Rooms.LeavingExactly`,
  `Rooms.ForeignLeaveForgetsRoom`. The WebSocket command does not check that, and `leave_room_async` checks it
  only before it dispatches, so that a join handled in between has the same effect:
  `DeliveryTables.CheckedLeaveForgetsRoom`. The guards of the table theorems are about the moment a handler
  runs, as `DeliveryTables.OneRoomInEveryWorld` and its neighbours spell out.
* Clearing the tables leaves the sessions their current rooms: `Rooms.ClearingExactly`,
  `Rooms.ClearForgetsMembers`.
* The comment on `try_register_nickname_impl` says that an old entry is removed if it belongs to the
  session; the code takes the entry from the index without checking that there is one. The model has that
  case as an outcome of its own (`EndLookup`). A session that was dropped after a failed write goes on
  reading, and its next `/nick` gets there: `Nicknames.LookupMissesExactly`, `Nicknames.DroppedSessionMisses`.
* A session may register its own remote id, under which the index should hold nobody:
  `Nicknames.StepKeepsExactly`, `Departures.OwnRemoteIdStays`.
* A session that was dropped, as after a failed write, can still register, so that not only connected
  sessions own names: `Nicknames.RegisteringExactly`, `Nicknames.DroppedSessionRegisters`. The names stay with
  their owners all the same: `Nicknames.NamesOwnedInRuns`.
* A disconnect looks at one room and one name. It leaves a trace of a session that is in another room or holds
  another name, or its own remote id: `Departures.NoTraceExactly`, `Departures.ForeignLeaveLeavesTrace`,
  `Departures.OwnRemoteIdStays`. What it does to others: `Departures.OthersUntouchedExactly`.
* A disconnect unregisters a name without looking who holds it by then, so that a session dropped twice, for
  a failed write and for a failed read, can take it from a new holder: `Nicknames.DisconnectingExactly`,
  `Nicknames.SecondDisconnectTakesName`.
* A session that is listed again under a nickname does not get the name back: `Nicknames.ListingExactly`,
  `Nicknames.RejoinsUnderLostName`. This is a use of the public `join` only; both kinds of session call it once.
* The index with weak entries answers as a map of live owners does, unless a registration misses:
  `Nicknames.LazyExpiryInvisible`, `Nicknames.DroppedSessionMisses`.
* Purging the index for a user list can turn a later registration into such a missed lookup:
  `Nicknames.PurgeVisibleExactly`, `Nicknames.PurgeSpoilsRegistration`.
* The nickname index does not stay empty after a stop: `Departures.IndexEmptyExactly`,
  `Departures.NicknamesReturnAfterClear`.
* The comment on `on_read` says that only complete lines are processed, but the loop also takes an
  unfinished line at the end of the buffer. Which cuts of the byte stream go unnoticed:
  `Framing.CutExactly` for one cut, `Framing.AllCutsExactly` for any number, `Framing.CutWordShows`.
* A user name with an underscore or a character that is replaced by one, an empty name, and the name
  `unknown` share files with other names: `SafeNames.OwnsItsFileExactly`, `SafeNames.UnderscoreSharesFile`.
* A log entry that contains a newline reads back as several: `History.ReadsBackExactlyPlainEntries`,
  `History.NewlineSplitsEntry`.

One statement is never true: that `/quit` sends its farewell, as the comment there has it. The farewell is
handed to `deliver` first, but the handler that would queue it runs when the session is already stopped:
`DeliveryRuns.FarewellNeverSent`.

## Model

| member | source | states |
|---|---|---|
| DeliveryRuns.CommonBroadcastOrder | src/ChatServer.cpp:243-297 | in every run the broadcasts written to a session are some of those of others that were sent to it, each at most once and in the order in which `broadcast_impl` ran; any two sessions agree on the order of two broadcasts, whatever is dropped, fails or stops |
| DeliveryRuns.LosslessDelivery | src/ChatServer.cpp:251-271 | for a session of the server to which nothing was lost and that never left it, written + queued + posted are on the global channel exactly the broadcasts of others since it joined, once each and in order; all of them are written when nothing is pending |
| DeliveryRuns.LosslessSinceJoin | src/ChatServer.cpp:251-271 | for one that may have left and joined again: the same from its last join on, and nothing that was not sent to it |
| DeliveryRuns.PerSenderRoomOrder | src/ChatServer.cpp:303-325 | for lines handled while the recipient was a participant of the room in the server's tables: they are on their way to it in the order they were handled and at most once each, whatever is lost; both are there when it is intact and the loops reached it; and none goes to the sender |
| DeliveryRuns.LineReachesAll | src/ChatRoom.cpp:75-80 | the loop over the participants reaches exactly those of the room at its start but the sender, at whatever moments it posts |
| DeliveryRuns.FarewellNeverSent | src/ChatSession.cpp:335-338 | after `/quit` only what was written or outstanding before is ever written, so never the farewell it posts |
| DeliveryRuns.StoppedOnlySpends | src/ChatSession.cpp:103-104 | in every run a stopped TCP session gets out no more than what was outstanding |
| DeliveryRuns.StopIsAbsorbing | src/ChatServer.cpp:127-139 | after the clearing handler no session is listed and no room exists in any later world, and exactly those present at the clear were told to stop, once each |
| DeliveryServes.PostedIsServed | src/ChatServer.cpp:184-296 | a task posted to the server's strand is run by exactly one step once the strand is empty again, as the task it was when posted |
| DeliveryServes.ServedInOrder | src/ChatServer.cpp:184-296 | tasks are run in the order they were posted |
| DeliveryServes.BroadcastIsRun | src/ChatServer.cpp:285-296 | in every run a broadcast asked for takes its place in the order of broadcasts once the strand of the running server is empty, and then posts one more delivery, last on the strand, to every session listed at that moment but the sender, and nothing to others |
| DeliveryServes.BroadcastsRunInOrder | src/ChatServer.cpp:285-296 | two calls, of one sender or of two, take different places, in the order of the calls |
| DeliveryServes.BroadcastArrives | src/ChatServer.cpp:243-296 | a broadcast asked for is on its way to every other session that was listed at the call and stayed, if that lost nothing, when the strand is empty; and written there when nothing is pending there |
| DeliveryServes.JoinIsRun | src/ChatServer.cpp:180-197 | a join asked for lists the session, and broadcasts its arrival if it is named by then |
| DeliveryServes.LeaveIsRun | src/ChatServer.cpp:206-235 | a leave asked for takes the session off the list and out of its current room, and broadcasts its departure if it was listed and had a nickname at the call |
| DeliveryServes.RequestIsRun | src/ChatServer.cpp:379-402 | a registration, or a join or leave of a room, that passed its check is carried out on the tables as they are when it is run |
| DeliveryServes.LeavingActsAtOnce | src/ChatServer.cpp:691-729 | a leave called off the strand takes the session out of the room and clears its current room at once |
| DeliveryServes.StopIsRequested | src/ChatServer.cpp:110-124 | a call of `stop` raises the flag, and the first one gets the clearing posted |
| DeliveryServes.StoppedServerIsSilent | src/ChatServer.cpp:182-316 | from the moment the flag is up no broadcast is run and no line to a room is begun, whatever was posted before; a join, a broadcast, a line, a registration and a change of rooms asked for then change nothing at all |
| DeliveryServes.StopIsCarriedOut | src/ChatServer.cpp:124-139 | in every run the clearing, once posted, is run before the strand is empty again: then no session is listed and no room exists, and exactly the sessions listed at that moment got one task to stop, last on their strands |
| DeliveryServes.ToldSessionsStop | src/ChatServer.cpp:131-136 | a TCP session that was told to stop by it has stopped when its strand is empty |
| DeliveryServes.StopSessionStops | src/ChatSession.cpp:103-112 | `stop_session` and `/quit` stop a TCP session at once and for good |
| DeliveryServes.BrokenSessionStops | src/ChatSession.cpp:525-541 | a connection that breaks stops its session by the time the strand is empty |
| DeliveryServes.GivenIsDelivered | src/ChatSession.cpp:149-173 | until a session loses something, the answers and notices given to it are all on their way, each once and in the order given; all are written when nothing is pending and nothing was lost |
| DeliveryServes.LossExactly | src/ChatSession.cpp:149-173 | a session loses a message exactly when one comes off its strand while it is stopped or has 100 queued, when it is stopped with more queued than is being written, and when a write of a TCP session fails; and it stays one of the sessions the delivery theorems speak of exactly until it is stopped, drops a message or a write fails |
| DeliveryServes.NothingStuck | src/ChatServer.cpp:180-297 | in every world of every run each call of a session can be made, and every waiting task, loop and outstanding write can go on |
| DeliveryRuns.TablesRun | src/ChatServer.cpp:414-729 | in every run of the delivery machine the tables go through a run of `Registry`, so what is proved of those holds in every interleaving |
| DeliveryRuns.RoomsOfEveryWorld | src/ChatServer.cpp:569-720 | in particular a line sent to a room has at most 100 recipients |
| DeliveryRuns.ServerNeverStuck | src/ChatServer.cpp:187 | the next task of the server's strand can always run |
| DeliveryTables.OneRoomInEveryWorld | src/ChatServer.cpp:569-729 | in every interleaving in which leaves are of the room that is current when they are handled, participants have the room as their current one |
| DeliveryTables.NicknamesInEveryWorld | src/ChatServer.cpp:414-476 | likewise the names are with their owners when sessions mind them at the time of the handlers |
| DeliveryTables.NamesOwnedExactly | src/ChatServer.cpp:414-476 | in every interleaving the names are with their owners in all worlds so far exactly when all actions so far keep them |
| DeliveryTables.DisconnectInEveryWorld | src/ChatServer.cpp:206-235 | and the handler of the disconnect of a connected session under its nickname leaves no trace of it and everything of others alone |
| DeliveryTables.CheckedLeaveForgetsRoom | src/ChatServer.cpp:731-754 | a run in which a leave passes the check before its dispatch and forgets another room when it is handled |
| DeliveryRuns.RunInv | src/ChatServer.cpp:180-297 | the invariant of the whole delivery machine in every state of every run: order and losslessness on every channel, recipients of every broadcast, at most one clear |
| DeliveryRuns.StepInv | src/ChatServer.cpp:180-297 | every action of the server, of a session's strand or of the network keeps that invariant |
| DeliveryRuns.BroadcastInv | src/ChatServer.cpp:243-271 | `broadcast_impl` keeps it: one delivery for each listed session but the sender, last on its channel |
| DeliveryRuns.ClearInv | src/ChatServer.cpp:127-139 | the clearing handler keeps it |
| DeliveryOrder.RunFirstOk | src/ChatSession.cpp:149-173 | running the oldest handler of a session's strand, a posted delivery, a push or a stop, never reorders a channel and loses nothing unless the session is marked lossy |
| DeliveryOrder.CompleteOk | src/ChatSession.cpp:496-541 | neither does a completed write, successful or not, for both kinds of session |
| DeliveryOrder.StopOk | src/ChatSession.cpp:103-104 | nor a stop, after which only the outstanding write can still get out |
| DeliveryOrder.PostProj | src/ChatServer.cpp:259-267 | a message posted to a strand becomes the last of its channel and leaves every other channel as it was |
| TcpPump.RunInv | src/ChatSession.cpp:149-173 | in every run at most one write is outstanding, it carries the front of the queue, the flag tells, an unstopped session always writes when it has something queued; without stop or error offers = written + queued in order |
| TcpPump.InFlightStaysFront | src/ChatSession.cpp:463-487 | from start to completion the buffer of a write stays the unmodified front of the queue |
| TcpPump.SilentAfterStop | src/ChatSession.cpp:149-155 | once stopped, only the outstanding write can still get out, whatever is offered |
| TcpPump.DrainsExactly | src/ChatSession.cpp:496-541 | without new messages n queued messages take exactly n successful completions; before the last there is always a write outstanding |
| TcpPump.FailureDropsQueue | src/ChatSession.cpp:519-541 | a failed write of a running session empties its queue, and the pump is as good as new |
| WsPump.RunInv | src/WebSocketSession.cpp:272-333 | the queue never exceeds 100, accepted = written followed by queued, offered = written + queued + dropped in count, and before any error the pump is idle exactly when the queue is empty |
| WsPump.DroppedExactly | src/WebSocketSession.cpp:275-289 | in every run an offered message is dropped exactly when 100 are queued, and is the last in the queue otherwise |
| WsPump.SilentAfterError | src/WebSocketSession.cpp:315-333 | after the first write error no write is outstanding and nothing more is written, ever |
| Sessions.ChatSession.DeliverTask | src/ChatSession.cpp:149-173 | takes the oldest posted message, queues it with its line end and starts a write exactly as the pump says, or drops it when stopped; keeps the session sound |
| Sessions.ChatSession.DoWriteStrand | src/ChatSession.cpp:463-487 | starts at most one write, of the front |
| Sessions.ChatSession.OnWrite | src/ChatSession.cpp:496-541 | the new queue, flag and outstanding write for each way a write can end, and whether a stop is requested |
| Sessions.ChatSession.StopSession | src/ChatSession.cpp:103-112 | acts on its first call only |
| Sessions.ChatSession.CloseTask | src/ChatSession.cpp:108-140 | the server is told to drop the session at most once in the session's life |
| Sessions.ChatSession.ProcessCommand | src/ChatSession.cpp:196-365 | a stopped session ignores the line; `/quit` posts its farewell and then stops it; any other line posts its answers in order and leaves queue and stop flag alone |
| Sessions.ChatSession.OnRead | src/ChatSession.cpp:404-455 | the loop empties the buffer, acts on exactly the lines of `Framing.HandledLinesAreThoseSent` up to the first `/quit` and posts the answers to them in order; a failed read stops the session; the queue is left alone |
| Sessions.AnsweredInTurn | src/ChatSession.cpp:335-365 | the lines are answered one after the other, each for its own place and text: `/quit` with the farewell, any other with its answers |
| Sessions.WebSocketSession.DeliverTask | src/WebSocketSession.cpp:272-289 | drops the message at 100 queued ones, otherwise queues it and starts an idle pump |
| Sessions.WebSocketSession.DoWrite | src/WebSocketSession.cpp:295-307 | starts at most one write, of the front |
| Sessions.WebSocketSession.OnWrite | src/WebSocketSession.cpp:315-333 | success pops and continues; an error pops nothing, starts nothing and makes the server drop the session |
| Framing.HandledLinesAreThoseSent | src/ChatSession.cpp:413-427 | of lines ended by "\n" or "\r\n" in any mixture and an unfinished one, exactly the texts that are not empty are handled, character for character and in order |
| Framing.EveryTextIsSentLines | src/ChatSession.cpp:413-427 | every buffer is such lines and such a rest, so that the last row says what is handled of any buffer |
| Framing.QuitsExactly | src/ChatSession.cpp:199-201 | a line quits exactly when it is `/quit`, with nothing but space before it, and a space or nothing behind it |
| Framing.UpToQuitExactly | src/ChatSession.cpp:196-197 | the lines acted on are the first so many of those handled: up to and with the first that quits, or all |
| Framing.ChunkIndependent | src/ChatSession.cpp:404-435 | if every filled buffer but the last ends a line, the session acts on the lines of the whole stream up to `/quit`, however it was cut |
| Framing.CutExactly | src/ChatSession.cpp:413-427 | a cut into two buffers handles the same lines exactly when it falls at a line end, before one, or before the CR of one that follows text without CR |
| Framing.AllCutsExactly | src/ChatSession.cpp:404-435 | a stream cut into any number of non-empty buffers is handled as the uncut one exactly when every cut between neighbours is of that kind |
| Framing.InvisibleCuts | src/ChatSession.cpp:404-435 | and then the session acts on the same lines up to `/quit` |
| Framing.CutWeighs | src/ChatSession.cpp:413-427 | a cut changes nothing, or takes away characters, or makes more lines of the same characters |
| Framing.CutWordShows | src/ChatSession.cpp:413-427 | a read that ends within a word makes two lines of it |
| Rooms.RoomTableHealth | src/ChatServer.cpp:569-720 | in every run, whoever leaves whatever room, every room is non-empty and holds at most 100 |
| Rooms.WhoIsWhereAfterJoining | src/ChatServer.cpp:578-624 | who is in which room after a join, session by session: in the new room unless 100 were in it, out of another current one, which goes when nobody is left; nobody else moves |
| Rooms.WhoIsWhereAfterLeaving | src/ChatServer.cpp:691-729 | the same for a leave of any room |
| Rooms.WhoIsWhereAfterDisconnecting | src/ChatServer.cpp:206-235 | the same for a disconnect, with the list of sessions and the nicknames |
| Rooms.RoomNamesAreValid | src/ChatServer.cpp:661-690 | in every run a room has a name of 1 to 30 characters without space |
| Rooms.OneRoomPerSession | src/ChatServer.cpp:578-624 | when sessions leave only their current room, a participant has that room as its current one and rooms are disjoint, full rooms or not |
| Rooms.LeavingExactly | src/ChatServer.cpp:691-724 | one leave keeps that exactly when it does nothing, is of the current room, or the session is not in its current room |
| Rooms.MembershipConservation | src/ChatServer.cpp:569-729 | if also nobody new joins a full room and the tables are cleared only when nobody has a current room: membership = current room, the rooms are the non-empty current rooms, and participant counts add up to the sessions with a current room |
| Rooms.JoiningExactly | src/ChatServer.cpp:618-623 | one join keeps that exactly when it does nothing, the session is in, or there is space |
| Rooms.ClearingExactly | src/ChatServer.cpp:127-145 | clearing the tables keeps membership exactly when no session has a current room |
| Rooms.ClearForgetsMembers | src/ChatServer.cpp:127-145 | a run in which it does not |
| Rooms.FullRoomSplitsMembership | src/ChatRoom.cpp:32-35 | a run in which a hundred sessions enter a room and the next join reports success but breaks membership |
| Rooms.ForeignLeaveForgetsRoom | src/WebSocketSession.cpp:242 | a run after which leaving another room, as the WebSocket command allows, breaks it too |
| Rooms.TotalCountsEverybody | src/ChatRoom.cpp:31-58 | the participant counts of disjoint rooms add up to the number of participants |
| Nicknames.NamesOwnedInRuns | src/ChatServer.cpp:414-476 | in every run whose sessions join under their default name, are disconnected once under their nickname while the server runs, and leave the own remote id alone: every key is its owner's chosen nickname and every connected session with a chosen one owns its key, whatever dropped sessions do |
| Nicknames.NamesOwnedExactly | src/ChatServer.cpp:414-494 | without any guard: that holds in all states up to any one exactly when every step so far lists a session under its default or an owned name, takes no connected session's name, and registers no own remote id |
| Nicknames.StepKeepsExactly | src/ChatServer.cpp:180-494 | the same of every single step |
| Nicknames.MindingKeepsNames | src/ChatServer.cpp:206-221 | the guards imply those conditions |
| Nicknames.NamesOwnedMeaning | src/ChatServer.cpp:206-221 | then a connected session owns exactly the key of its chosen nickname, a default-named one none, no session two, and chosen nicknames of connected sessions are distinct |
| Nicknames.NicknamesAreInverse | src/ChatServer.cpp:414-476 | when besides only connected sessions register, nobody else owns a key: keys and chosen nicknames of connected sessions are inverse to each other |
| Nicknames.WhoGetsAName | src/ChatServer.cpp:414-476 | a registration is refused exactly for an expired session and for a name another live session holds; misses exactly when the chosen, different old nickname is not in the index; and otherwise gives the session the name |
| Nicknames.WhoKeepsAName | src/ChatServer.cpp:435-470 | it touches no key but the old and the new name, and gives up the old one exactly when it is chosen and no other live session holds it |
| Nicknames.IndexedNamesAreValid | src/ChatServer.cpp:379-402 | in every run a name in the index has 1 to 20 characters, no space, and is not one of the server's own |
| Nicknames.LookupMissesExactly | src/ChatServer.cpp:414-476 | then a registration misses its old nickname exactly when it is by a dropped, live session, for an available name, and the old nickname is chosen, different and gone; and it is refused exactly when the session is expired or another live one holds the name |
| Nicknames.LookupMissesInRuns | src/ChatServer.cpp:455-457 | the same at every state of every run whose steps keep the names; a connected session gets every available name |
| Nicknames.DroppedSessionMisses | src/WebSocketSession.cpp:320-326 | a run after which a dropped session's registration misses |
| Nicknames.DroppedSessionRegisters | src/WebSocketSession.cpp:320-326 | a run after which a dropped session takes a name, which then belongs to nobody connected |
| Nicknames.LookupNeverMisses | src/ChatServer.cpp:455-457 | so the unchecked lookup of a connected session finds its entry, and its registration succeeds exactly for available names |
| Nicknames.RegisteringExactly | src/ChatServer.cpp:414-476 | one registration keeps keys to connected sessions exactly when it is refused, or would miss, or is by a connected session and not of its own remote id; all told beforehand |
| Nicknames.DisconnectingExactly | src/ChatServer.cpp:206-221 | one disconnect, called under whatever name, keeps them so exactly when it does nothing, or takes nobody else's name and a connected session with a nickname still goes by that name |
| Nicknames.SecondDisconnectTakesName | src/WebSocketSession.cpp:320-326 | a run after which the second disconnect of a session takes its former name from the new holder |
| Nicknames.ListingExactly | src/ChatServer.cpp:180-187 | listing a session keeps them so exactly when it does nothing new or the session has its default name |
| Nicknames.RejoinsUnderLostName | src/ChatServer.cpp:180-187 | a run after which listing a named session breaks it |
| Nicknames.LazyExpiryInvisible | src/ChatServer.cpp:435-470 | over any uses and expirations the index with weak entries answers register, find and list exactly as a plain map of live owners if and only if no registration in them misses its old nickname |
| Nicknames.LazyUseRefines | src/ChatServer.cpp:481-557 | each use commutes with forgetting expired entries |
| Nicknames.AnswersAgreeExactly | src/ChatServer.cpp:435-470 | one use is answered alike exactly when it does not miss |
| Nicknames.MissesExactly | src/ChatServer.cpp:454-457 | when a registration misses, in any index, told beforehand |
| Nicknames.PurgeVisibleExactly | src/ChatServer.cpp:549-557 | purging changes a later registration exactly where only an expired entry of its old nickname was left |
| Nicknames.PurgeSpoilsRegistration | src/ChatServer.cpp:549-557 | a run after which a registration succeeds, but misses after one user list |
| Departures.NoTraceExactly | src/ChatServer.cpp:206-235 | a disconnect leaves no trace exactly when the session is in no room but its current one and holds no name but that of the call, its remote id aside |
| Departures.OthersUntouchedExactly | src/ChatServer.cpp:206-235 | it leaves everything of other sessions alone exactly when none of them holds that name |
| Departures.DisconnectLeavesNoTrace | src/ChatServer.cpp:206-235 | so with participants in their current room and names with their owners, the disconnect of a connected session leaves no trace of it and everything of other sessions as before |
| Departures.GoneForGood | src/ChatServer.cpp:206-235 | in every run that has kept names and left own rooms so far; and it stays so until the session itself joins, registers or enters a room, whatever others do |
| Departures.OwnRemoteIdStays | src/ChatServer.cpp:219 | a run in which a session that registered its own remote id leaves its key behind |
| Departures.ForeignLeaveLeavesTrace | src/WebSocketSession.cpp:242 | a run in which a session leaves a room it is not in, disconnects and stays a participant |
| Departures.ClearedForGood | src/ChatServer.cpp:110-145 | once cleared, the lists of sessions and rooms stay empty whatever is still on its way |
| Departures.IndexEmptyExactly | src/ChatServer.cpp:400-402 | after the clear the nickname index is empty in every state up to any later one exactly when no live session without another chosen name gets a registration through in between |
| Departures.NicknamesReturnAfterClear | src/ChatServer.cpp:400-402 | a run in which a registration on its way fills the index after the clear |
| Notices.WhoHearsOfAJoin | src/ChatServer.cpp:580-656 | exactly what every session hears of a move, in order: the mover its admission or refusal and the server's answer, those it leaves and those it comes to their notices, nobody else anything |
| Notices.WhoHearsOfALeave | src/ChatServer.cpp:691-724 | exactly what every session hears of a leave: the session its answer, the others in the room one notice of the server and, if it was in the room, one of the room, nobody else anything |
| Notices.WhoHearsOfADisconnect | src/ChatServer.cpp:206-235 | the same for a disconnect: the notices of leaving the current room, and then, exactly when the server runs, the session was listed and its name is a nickname, one delivery of the news to each session still listed |
| ChatServers.ChatRoom.Broadcast | src/ChatRoom.cpp:66-81 | every participant but the sender gets the message once, last on its strand: as it is from the system, else behind sender and room |
| ChatServers.ChatRoom.Join | src/ChatRoom.cpp:31-42 | a full room changes nothing and answers the session only; otherwise the session is in, has the room as its current one, and all participants hear of it |
| ChatServers.ChatRoom.Leave | src/ChatRoom.cpp:49-58 | removes the session, clears its current room and tells the others exactly when it was a participant |
| ChatServers.ChatServer.Join | src/ChatServer.cpp:180-197 | lists the session unless stopped and announces a named one to all listed others, and to nobody else |
| ChatServers.ChatServer.BroadcastImpl | src/ChatServer.cpp:243-271 | posts exactly one delivery to every listed session but the sender and changes no table |
| ChatServers.ChatServer.BroadcastToRoom | src/ChatServer.cpp:303-331 | posts the message, with sender and room unless it is a notice, to exactly the participants but the sender; reports whether there is such a room |
| ChatServers.ChatServer.TryRegisterNickname | src/ChatServer.cpp:379-402 | an invalid name or a stopped server changes nothing; otherwise index and nickname change together as `Registry.Register` says |
| ChatServers.ChatServer.TryRegisterNicknameImpl | src/ChatServer.cpp:414-476 | the new index and the outcome are those of `Registry.RegisterImpl` |
| ChatServers.ChatServer.UnregisterNickname | src/ChatServer.cpp:481-494 | removes the key whoever holds it |
| ChatServers.ChatServer.FindSessionByNickname | src/ChatServer.cpp:504-527 | the live owner of the name, or null; null when stopped |
| ChatServers.ChatServer.GetUserList | src/ChatServer.cpp:537-564 | the live names in strictly ascending order, leaving exactly their entries; nothing when stopped |
| ChatServers.ChatServer.ListAndPurge | src/ChatServer.cpp:544-557 | the loop that erases while iterating |
| ChatServers.ChatServer.JoinRoom | src/ChatServer.cpp:569-659 | the new rooms and current room are those of `Registry.JoinRoom`, and when nobody is in two rooms every strand grows by exactly the notices of the move, written out; success unless stopped, full or not |
| ChatServers.ChatServer.LeaveForAnother | src/ChatServer.cpp:580-596 | joining another room takes the session out of the current one, which disappears when empty, and tells those who stay |
| ChatServers.ChatServer.EnterRoom | src/ChatServer.cpp:598-623 | finds or creates the room, which becomes the current one in any case, and tells its participants or the refused session |
| ChatServers.ChatServer.LeaveRoom | src/ChatServer.cpp:691-729 | the new rooms and current room are those of `Registry.LeaveRoom`, and every strand grows by exactly the notices of the leave, written out; success exactly for existing rooms |
| ChatServers.ChatServer.LeaveAllRoomsImpl | src/ChatServer.cpp:756-765 | leaves the current room, if any |
| ChatServers.ChatServer.Leave | src/ChatServer.cpp:206-235 | with the nickname at the time of the call: the new tables are those of `Registry.Leave`; every strand grows by exactly the notices of the room left, and by the news of the departure, last and once, exactly when the server runs, the session was listed under a nickname and the strand's session still is |
| ChatServers.ChatServer.RequestStop | src/ChatServer.cpp:110-115 | raises the flag; only the first call goes on |
| ChatServers.ChatServer.ClearAll | src/ChatServer.cpp:127-145 | empties the three tables and tells each listed session to stop, once |
| History.MessageHistory.AppendHistoryLine | src/MessageHistory.cpp:233-269 | however writes are cut or interrupted: when no call made fails or takes nothing, and open, sync and close succeed, it returns normally with old content + line + newline; content falls short after an open only by a last call that failed or took nothing, every earlier one having been interrupted or having taken something; no other file changes |
| History.MessageHistory.WriteAll | src/MessageHistory.cpp:246-257 | the loop keeps what the kernel takes, in order, goes on after interrupts, ends early only at a call that fails or takes nothing, and terminates when interrupts end |
| History.MessageHistory.ReadLastLines | src/MessageHistory.cpp:272-300 | limit 0 returns all lines, limit k the last min(k, n) through a buffer whose peak is exactly min(n, k + 1) |
| History.TailOf | src/MessageHistory.cpp:288-299 | the deque loop: what the buffer holds at the end, and the most it ever held |
| History.Deque.PushBack | src/MessageHistory.cpp:293 | one more element at the back; the peak follows the size |
| History.MessageHistory.LogPrivateMessage | src/MessageHistory.cpp:82-104 | appends to the file of the pair, named in either order, and touches no other |
| History.MessageHistory.LoadPrivateHistory | src/MessageHistory.cpp:145-168 | reads the file that logging for the same two users writes, in either order |
| History.HistoryLaw | src/MessageHistory.cpp:233-300 | after successful appends to an empty file, reading all returns each entry split at its newlines, in order |
| History.PiecesRejoin | src/MessageHistory.cpp:280-286 | the pieces of an entry hold no newline and joined by newlines are the entry |
| History.ReadsBackExactlyPlainEntries | src/MessageHistory.cpp:272-286 | that is the logged entries exactly when none contains a newline |
| History.NewlineSplitsEntry | src/MessageHistory.cpp:246-286 | every entry of two plain parts with a newline between them reads back as these two |
| History.TailIsLastEntries | docs/ADR-message-history-durability-and-bounds.md:17-21 | and a bounded read returns the last min(limit, n) entries |
| History.CompleteLinesSurvive | src/MessageHistory.cpp:246-267 | whatever is appended, in full or in part, the lines that were complete read back unchanged and in place |
| History.CutEntryMergesWithNext | src/MessageHistory.cpp:254-257 | a cut entry and the next one read back as one line, after all earlier ones |
| SafeNames.SafePathComponent | src/MessageHistory.cpp:211-223 | the loop keeps letters, digits, hyphens and underscores, puts an underscore for anything else, and makes `unknown` of nothing |
| SafeNames.LessExactly | src/MessageHistory.cpp:92-96 | one name is before another exactly when they first differ in a smaller character or it is a proper prefix |
| SafeNames.SanitisedIsSafe | src/MessageHistory.cpp:211-223 | sanitising is idempotent, safe and never empty |
| SafeNames.PrivatePathSymmetric | src/MessageHistory.cpp:92-96 | the private file does not depend on the order of the two users |
| SafeNames.PlainNamesInPath | src/MessageHistory.cpp:91-97 | the private file of two plain names is named after both as they are, the smaller one first |
| SafeNames.OwnsItsFileExactly | src/MessageHistory.cpp:151-156 | a pair of users shares its file with no other pair exactly when both names are non-empty, of letters, digits and hyphens only, and not `unknown` |
| SafeNames.UnderscoreSharesFile | src/MessageHistory.cpp:91-96 | two different pairs of users with the same private file |
| SafeNames.Least | src/ChatServer.cpp:549 | the byte order of names has a least element in every non-empty set, so that ordered iteration is defined |

## Left out

- ChatServers.ChatServer.TryRegisterNickname: joins the registration on the server's strand and the later handler that sets the session's nickname into one step; a disconnect between the two is not modelled
- Nicknames.NamesOwnedInRuns: takes registration and rename as one step and assumes one disconnect for each session while the server runs; `NamesOwnedExactly` says for every run, without these guards, when the names stay with their owners
- Delivery is a state machine over values: it uses the pump and table functions that the objects in `Sessions` and `ChatServers` are proved against, but is not one object graph with them; sessions do not expire in it, and the notices of room changes and the answers to commands are its `CallDeliver` steps
- the wording of notices: `Notices` abbreviates it and carries no member list
- a delivered broadcast is identified by its position in the order of broadcasts, a room message by sender and line number; their texts are not carried along
- the server's own session object holds the fields the server uses, `ChatSession` and `WebSocketSession` the queue and reading; in C++ these are one object
- the global and room variants of logging and loading: they differ from the private ones only in the path
- Sessions.ChatSession.ProcessCommand: takes the answers to other commands as a parameter and leaves out their effects, which are those of the server's handlers
- `/nick`, `/join`, `/leave`, `/users` and `/help` as parsed from a line: validation and wording; their effects are the server handlers above
- private messages: their lookup result is posted without a strand, so no order is promised
- `join_room_async` and `leave_room_async` check their arguments before the dispatch; in `Delivery` they are `PassesChecks`, in `Registry` the conditions `ValidRoom` and `LeavesOwnRoom` on the steps
- data races on fields read outside their strand: handlers are atomic here
- sockets, acceptors, TLS, signals and the event loop: only strands and completions remain
- HTTP routes, the places client, configuration, accounts and file transfer: flat code around libraries or placeholders
- the Windows variant of the append, time stamps and log output
