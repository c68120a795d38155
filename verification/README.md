# chtiwt: a verified model of its chat rooms, quotas and live sessions

chtiwt serves live channels. Viewers of a channel share one chat room, which is a single
goroutine; a manager makes rooms and reaps the idle ones; a token bucket limits how often a user
may post. Publishers push a stream over RTMP; each becomes a session in an in-memory registry and
a row in the `stream_sessions` table; ffmpeg's stderr is kept in a ring buffer. This project models
those five parts and proves what they keep over every run, crash and interleaving.

`dafny verify dfyconfig.toml` checks everything.

## How the model is laid out

| file | what it holds |
|---|---|
| `Collections.dfy` | optional values, and what several modules need about sequences, sets and maps |
| `Clients.dfy` | clients, their bounded queues, the two counters and their recount from scratch |
| `RoomSpec.dfy` | the room's loop as a step function; `None` is a Go panic |
| `RoomSafety.dfy` | exactly when a run panics |
| `RoomDelivery.dfy` | gap-free delivery, the history window, and exact counters |
| `RoomMessages.dfy` | delivery in terms of the messages posted in the run and the place of each join |
| `RoomPresence.dfy` | joined/left accounting and alternation |
| `RoomCount.dfy` | the cached viewer count: never too low, and exactly when it is too high |
| `RoomTold.dfy` | what each viewer was last told about the number of viewers |
| `RoomReference.dfy` | a room without counters, which the real one refines |
| `RoomAnnouncements.dfy` | what every step broadcasts, word for word |
| `RoomEvictions.dfy` | whom the room gives up: exactly the clients with 32 unread messages |
| `RoomOverflow.dfy`, `RoomPanics.dfy` | the two unguarded cases, followed to their end and told by the run alone |
| `Room.dfy` | the room as a class that updates its maps, its history array and its clients in place |
| `RoomLife.dfy` | that class together with the run it is on |
| `WebSocket.dfy` | the connection handlers: join and leave channels, and which leaves are hazardous |
| `Scenarios.dfy` | runs of the whole chat in which the unguarded cases happen to well-behaved clients |
| `RateLimit.dfy` | the token bucket and the per-user map, as functions and as classes |
| `ManagerProtocol.dfy`, `Manager.dfy` | the room manager: its atomic steps, and the class that takes them |
| `StreamTable.dfy`, `StreamProtocol.dfy`, `StreamServer.dfy` | the session table, the publish/teardown/crash protocol, and the classes that take its steps |
| `RingBuffer.dfy` | the wrap-around byte array |

Objects that the program updates in place are classes here. Each of their methods is proved
against a function of the old state (`RoomSpec.Step`, `StreamProtocol.Next`, `ManagerProtocol.Next`,
`RateLimit.After`, `RingBuffers.Remembered`), and the theorems are about all runs of those
functions. What the scheduler, the clock, the database or a peer decides is a parameter of the step:
the number of messages a writer has received before the next attempt on its queue (`Pace`), clock
readings, row ids, whether an update arrives. Lock regions, once-guarded calls, SQL statements and
channel receives are atomic steps; everything in between may interleave.

Panics, delivery and message order are proved for every run in which nobody joins twice
(`RoomSafety.JoinOnceRun`), which the handlers guarantee. The theorems about the counters speak of
*lawful* runs (`RoomDelivery.Lawful`): every join brings a new client, and a leave is handled only for
a client that was accepted. The room does not enforce this. `WebSocket.DisciplineExact` says exactly
which interleavings of the handlers keep to it, `WebSocket.CrashedExactly` when the process crashes,
and `RoomOverflow.EarlyLeaveMiscounts` when the counters stay right all the same.

## Where the code and its comments disagree

The model follows the code.

- A newcomer's queue takes 32 messages and the history holds 50 (`internal/chat/hub.go:12-18`). A
  joiner whose queue overflows has its queue closed without being marked closed
  (`internal/chat/hub.go:157-160`). The leave that `internal/chat/ws.go:102-108` calls harmless then
  closes a closed channel, which panics.
- Join and leave travel on different channels (`internal/chat/hub.go:56-57`). If a leave is received
  first, the later join sends on a closed channel.
- Evictions neither publish nor broadcast the new count (`internal/chat/hub.go:132-136`), so "whenever
  the count changes" (`internal/chat/hub.go:73-74`) is too strong. `Scenarios.StaleCountReachable` is a
  run with a stale count, `RoomCount.CountExact` says exactly when it is right, and
  `RoomTold.LastToldBounds` what the viewers were told.
- A client with neither a user name nor a cookie is not counted at all (`internal/chat/hub.go:165`),
  where `internal/chat/ws.go:39-41` says that it counts as unique (`RoomCount.KeylessUncounted`).
- The timer of a room is not always cancelled by a join (`internal/chat/manager.go:51-53`). A room that
  was asked for and has not reported itself idle since is reaped all the same by a callback that was
  due already, by a timer left by an earlier room of that name, or by one that the late report of such
  a room armed (`ManagerProtocol.WantedTaken`; each of the three happens).
- "Every exit path routes through tearDown" (`internal/stream/session.go:20-23`) does not cover
  publishes that fail before registration (`internal/stream/ingest.go:83-85,89-91,108-113,124-129`):
  their rows stay open until the next boot.

## Model

| member | source | states |
|---|---|---|
| RoomSafety.StepExact | internal/chat/hub.go:141-229 | From a reachable state, a step panics exactly when it closes the queue of a rejected client or sends to a client whose queue was closed before its join; otherwise the invariant holds again. |
| RoomSafety.RunPanicsExactly | internal/chat/hub.go:101-107 | A run in which nobody joins twice panics if and only if one of those two cases occurs in it, repeated leaves and evictions included. |
| RoomPanics.PanicsByCause | internal/chat/hub.go:101-107 | Told by the events alone: it panics at its last event if and only if the room was not stopped and that event is a join whose client's leave was taken before, or a leave whose client's backlog, the last 50 messages posted before its join, did not fit. |
| RoomPanics.KnownMarks | internal/chat/hub.go:157-160 | A client that joined has a closed queue without being marked closed exactly when its backlog overflowed; evictions, leaves and stop mark it. |
| RoomSafety.AnnouncedIsCounted | internal/chat/hub.go:163-175 | After any registration a user name and the viewer key made from it have the same count. |
| RoomSafety.JoinOpen | internal/chat/hub.go:161-193 | So a registered joiner never reaches the unguarded reconnect send with its queue closed, even when its own announcement evicts it: the join does not panic. |
| RoomSafety.JoinExact | internal/chat/hub.go:143-193 | A join panics exactly on a queue that is closed already, and otherwise leaves a safe room that knows the client. |
| RoomSafety.LeaveExact | internal/chat/hub.go:195-210 | A leave panics exactly when the queue is closed and the client is not marked closed. |
| RoomSafety.StopTakesAll | internal/chat/hub.go:223-227 | Stop finds every registered client open, so it closes each of their queues once and panics on none. |
| RoomDelivery.StepKept | internal/chat/hub.go:141-229 | Any step that does not panic, early leaves included, keeps the history window and faithful delivery, as long as nobody joins twice. |
| RoomDelivery.RunKept | internal/chat/hub.go:75-230 | So does every run. |
| RoomDelivery.StepGood | internal/chat/hub.go:141-229 | Every lawful step succeeds and also keeps the counters exact. |
| RoomDelivery.LawfulRunGood | internal/chat/hub.go:75-230 | So does every lawful run. |
| RoomDelivery.NewcomerLawful | internal/chat/ws.go:73-85 | After any lawful run of a room that was not stopped, a new client's join is lawful and succeeds. |
| RoomMessages.GapFree | internal/chat/hub.go:127-161 | In every run in which nobody joins twice: the chat messages queued to a registered client are exactly the messages posted in the run, in order, from 50 before its join until now; for one evicted, departed or rejected they are a prefix of that. |
| RoomMessages.RunPosts | internal/chat/hub.go:212-221 | The chat messages broadcast are those of the run's posts before stop, in order. |
| RoomMessages.JoinPlace | internal/chat/hub.go:143-161 | A client's delivery starts at the place of its join in the run. |
| RoomDelivery.SameOrder | internal/chat/hub.go:127-139 | In the same runs two registered clients got the same broadcasts in the same order since the later of their joins. |
| RoomDelivery.CountersExact | internal/chat/hub.go:109-123 | Each counter has a key exactly while a registered client holds it, with the number of holders, also after evictions inside a broadcast. |
| RoomDelivery.AppendedIsTail | internal/chat/hub.go:89-94 | Sliding the history by one keeps it the last 50 messages ever sent. |
| RoomDelivery.StopClears | internal/chat/hub.go:223-227 | After stop nobody is registered, both counters are empty, and every queue that was registered is closed. |
| RoomReference.RoomRefinesRecount | internal/chat/hub.go:75-230 | In every lawful run the room with counters sends the same messages, evicts the same clients and publishes the same counts as a room that only keeps its clients and recounts them. |
| RoomReference.FirstIsNew | internal/chat/hub.go:163-175 | Incrementing a counter to one is the same as nobody having held the key before. |
| RoomReference.LastIsGone | internal/chat/hub.go:109-123 | A key missing from a counter is the same as nobody holding it any more. |
| RoomPresence.PresenceAccounting | internal/chat/hub.go:117-139 | For every user and lawful run: the messages "<user> joined" are as many as the messages "<user> left", plus silent departures, plus one if the user is connected. |
| RoomAnnouncements.JoinSays | internal/chat/hub.go:161-193 | An accepted join broadcasts "<name> joined" exactly if nobody registered had the name, then the new count exactly if no other connection of that viewer is registered, and nothing else; a rejected one broadcasts nothing. |
| RoomAnnouncements.LeaveSays | internal/chat/hub.go:195-207 | A leave broadcasts "<name> left" exactly if nobody else has the name, then the new count exactly if no other connection of that viewer is registered, and nothing else; a repeated leave broadcasts nothing. |
| RoomAnnouncements.SilentDepartures | internal/chat/hub.go:132-136 | A message broadcasts itself and stop nothing; the silent departures are the users whose last connection they take. |
| RoomPresence.AnnouncementsAlternate | internal/chat/hub.go:172-203 | A message "<user> left" always has a message "<user> joined" before it with no other "<user> left" in between, and the last word about a connected user is that it joined. |
| RoomEvictions.EvictedExactly | internal/chat/hub.go:127-139 | A broadcast is queued for exactly the clients with fewer than 32 unread messages; the others are closed, marked so, and no longer registered. |
| RoomEvictions.ReaderStays | internal/chat/hub.go:127-139 | A registered client whose writer keeps up stays registered, whatever the others do, until its own leave or stop. |
| RoomEvictions.KeenWriterAccepted | internal/chat/hub.go:144-160 | A newcomer whose writer keeps up with the backlog is accepted, however long the backlog is. |
| RoomEvictions.ReceiveExactly | internal/chat/ws.go:93-100 | A writer takes what waits, in order and up to what it asks for, and changes nothing else. |
| RoomCount.StepCount | internal/chat/hub.go:109-136 | A step leaves the cached count right exactly when it was right or the step publishes, and the last broadcast of the step, or its stop, removes no viewer's last connection. |
| RoomCount.CountExact | internal/chat/manager.go:102-112 | In every lawful run the counted viewers are the distinct users plus the distinct cookies of guests among the registered; the cached count is never below that number, and equals it if and only if every step that ended with the removal of a viewer's last connection was followed by one that publishes. |
| RoomCount.KeylessUncounted | internal/chat/ws.go:37-51 | Counting every connection without a name or cookie would give the same number if and only if there is none. |
| RoomTold.LastToldBounds | internal/chat/hub.go:184-207 | In every lawful run the count that a registered client was last told lies between the distinct viewers and the cached count; if one was broadcast since its join it is the cached count, and right exactly when every lost viewer was published. |
| Scenarios.StaleCountReachable | internal/chat/hub.go:132-136 | A logged-in viewer with a stuck connection goes on posting; one of its own messages evicts it, and the cached count stays at one with nobody there. |
| RoomOverflow.AcceptedAtAnyPace | internal/chat/hub.go:144-160 | A newcomer is accepted whatever its writer does if and only if the history is no longer than its queue. |
| RoomOverflow.LeaveOfRejectedPanics | internal/chat/hub.go:157-160 | A client rejected at its join stays so in every continuation, and its leave panics at any later time before stop. |
| RoomOverflow.RejectedJoinerCrashesRoom | internal/chat/ws.go:102-108 | In any room whose history is longer than a queue, a new client whose writer has not run yet is rejected, and its leave panics. |
| RoomOverflow.EarlyLeaveDoomsJoin | internal/chat/hub.go:56-57 | A leave handled before its join does not panic, but makes that join panic. |
| RoomOverflow.EarlyLeaveMiscounts | internal/chat/hub.go:195-207 | When the step of an early leave is over, the counters are right if and only if nobody then registered shares the viewer key. |
| RoomOverflow.EarlyLeaveRepaired | internal/chat/hub.go:195-207 | That is the case if and only if nobody shared the key before, or one client did and one of the leave's own broadcasts finds its queue full. |
| Rooms.OrderImmaterial | internal/chat/hub.go:127-139 | Visiting the clients of a broadcast in any order, with evictions on the way, comes to the same room. |
| Rooms.DispatchInOrder | internal/chat/hub.go:127-139 | So the broadcast loop, in any order, is the broadcast step of the specification. |
| Rooms.RemovedOneMore | internal/chat/hub.go:223-226 | Removing clients one after another, in any order, is removing them together. |
| Rooms.Room.AppendHistory | internal/chat/hub.go:89-94 | The in-place shift of the array drops the oldest message and adds the new one. |
| Rooms.Room.RemoveClient | internal/chat/hub.go:101-125 | Removal marks and closes the client once, takes it off both counters, and reports last presence and last viewer key; a second call changes nothing. |
| Rooms.Room.DispatchAll | internal/chat/hub.go:127-139 | The loop over the client set, whatever its order, does the broadcast step or panics as it does. |
| Rooms.Room.Join | internal/chat/hub.go:143-193 | The join case does the join step or panics as it does. |
| Rooms.Room.Leave | internal/chat/hub.go:195-210 | The leave case does the leave step or panics as it does, and calls onEmpty exactly when nobody is left. |
| Rooms.Room.Send | internal/chat/hub.go:212-221 | The send case puts the message in the history and broadcasts it. |
| Rooms.Room.Stop | internal/chat/hub.go:223-227 | The stop case removes every client, whatever the order. |
| RoomLife.Actor.Join | internal/chat/hub.go:143-193 | On a lawful run the room's objects take the join without a panic, hold what the longer run leads to, and broadcast the joined message and the count in the literal cases. |
| RoomLife.Actor.Leave | internal/chat/hub.go:195-210 | The same for a leave and the left message. |
| RoomLife.Actor.Send | internal/chat/hub.go:212-221 | The same for a message. |
| RoomLife.Actor.Stop | internal/chat/hub.go:223-227 | The same for stop. |
| Clients.DropTally | internal/chat/hub.go:109-123 | Decrementing a counter for those who go, deleting at zero, is recounting those who stay. |
| Clients.BumpTally | internal/chat/hub.go:163-175 | Incrementing it for a newcomer is recounting with the newcomer. |
| Clients.DropOneMore | internal/chat/hub.go:109-123 | Decrementing one by one, in any order, is decrementing for all together. |
| Clients.KeyIsViewer | internal/chat/ws.go:42-51 | Two connections with a name or a cookie have the same viewer key if and only if they are of the same user, or of guests with the same cookie. |
| Clients.KeysCount | internal/chat/ws.go:42-51 | There are as many viewer keys as distinct users and distinct cookies of guests. |
| Clients.Client.TrySend | internal/chat/hub.go:128-131 | A send succeeds exactly when fewer than 32 messages wait, and then appends to the queue. |
| WebSocket.DisciplineExact | internal/chat/ws.go:80-125 | However handlers and room interleave, the room's run is lawful if and only if no leave is taken while its join waits or after its client was rejected. |
| WebSocket.CrashNeedsHazard | internal/chat/ws.go:102-108 | The process crashes only after such a leave. |
| WebSocket.CrashExact | internal/chat/hub.go:142-195 | A step crashes it exactly when it closes a closed queue or takes the join of a client whose queue is closed. |
| WebSocket.ActClean | internal/chat/ws.go:80-125 | Every other step keeps waiting clients unknown to the room and the run lawful. |
| WebSocket.EarlyLeaveCrashesAtJoin | internal/chat/ws.go:115-123 | Once the leave of a waiting client was taken, the process crashes when its join is taken, however much happens in between. |
| Scenarios.EarlyLeaveReachable | internal/chat/ws.go:80-90 | One client whose connection breaks early is enough. |
| WebSocket.CrashedExactly | internal/chat/ws.go:80-125 | Over all behaviours: the process has crashed if and only if the last step took the leave of a rejected client, or the join of a client whose own leave was taken while it waited. |
| WebSocket.PostedIsSent | internal/chat/ws.go:145-153 | The room's messages are the handlers' posts, each with the sender's name and text, in the order in which the room took them. |
| Scenarios.RejectionReachable | internal/chat/ws.go:80-108 | A user who posts 33 or more messages and reads them all, a newcomer that is rejected, and its leave are enough for the other case. |
| RateLimit.LevelBounded | internal/chat/ratelimit.go:27-38 | The level stays between empty and full, and the bucket's clock is the latest reading, over every history, backward readings included. |
| RateLimit.WindowBound | internal/chat/ratelimit.go:27-38 | Requests i..j of any history admit at most burst + rate × time, time being the highest reading so far. |
| RateLimit.SteadyWindowBound | internal/chat/ratelimit.go:27-38 | With a clock that never goes back that is burst + rate × (t_j − t_i). |
| RateLimit.Paid | internal/chat/ratelimit.go:27-38 | Every admission is paid for by tokens in hand or earned since. |
| RateLimit.GreedyOptimal | internal/chat/ratelimit.go:27-38 | The limiter keeps the quota, and after every request no choice of admissions that keeps it has admitted more; the quota is stated by counts and clock readings alone. |
| RateLimit.AdmitsExactly | internal/chat/ratelimit.go:28-36 | A request is admitted exactly when the tokens left and those earned since make a whole one. |
| RateLimit.RestRefills | internal/chat/ratelimit.go:28-36 | After any history, once the clock has passed the latest reading by the time that n tokens take, the next n requests are all admitted, if the bucket holds n. |
| RateLimit.NextAdmitted | internal/chat/ratelimit.go:33-37 | With n tokens in hand the next n requests are admitted, whenever they come. |
| RateLimit.LatestIsHighest | internal/chat/ratelimit.go:28-31 | The bucket's clock is the highest reading seen. |
| RateLimit.UsersIndependent | internal/chat/ratelimit.go:64-73 | In any interleaving a user gets the decisions of a lone limiter made at the user's first call and fed only that user's calls. |
| RateLimit.UserWindowBound | internal/chat/manager.go:98-100 | So the window bound covers all tabs and channels of a user together. |
| RateLimit.UserOptimal | internal/chat/ratelimit.go:64-73 | And nobody who keeps the quota of a bucket that is full at the user's first call would have admitted more of the user's calls. |
| RateLimit.Limiter.Allow | internal/chat/ratelimit.go:27-38 | One call admits exactly when the tokens left and those earned since make a whole one, and leaves the bucket after it. |
| RateLimit.LimiterMap.Allow | internal/chat/ratelimit.go:64-73 | The map holds one bucket per user, shared by nobody, and each call adds the decision of the call history. |
| RateLimit.ServiceLimits | internal/chat/service.go:15-25 | Positive options are kept and others fall back to 5 and 1; every bucket of the service starts well formed and admits at once. |
| ManagerProtocol.OneLife | internal/chat/manager.go:32-96 | Every room ever made is registered under exactly its own name, or waits to be closed, or was closed once; never two of these. |
| ManagerProtocol.CloseOnce | internal/chat/manager.go:76-95 | No close of a stop channel hits a closed one, under any mix of stale callbacks, reaps and shutdown. |
| ManagerProtocol.ShutdownFinal | internal/chat/manager.go:80-96 | After shutdown nothing is registered and no room is ever made again; every room made was closed exactly once as soon as nobody has a close left to make, and only then. |
| ManagerProtocol.ShutdownDisarms | internal/chat/manager.go:84-90 | Shutdown leaves no timer armed for a room that was registered. |
| ManagerProtocol.AskDisarms | internal/chat/manager.go:38-44 | Asking for a room leaves no timer armed that was made for it. |
| ManagerProtocol.WantedExactly | internal/chat/manager.go:38-65 | In every run a registered room was asked for and has not reported itself idle since if and only if its entry has no timer, or the room's own report is not among those that made it and the timers it replaced. |
| ManagerProtocol.ReapTakesWanted | internal/chat/manager.go:67-77 | So a callback takes such a room away exactly under that condition on the entry, which the code does not look at. |
| ManagerProtocol.WantedTaken | internal/chat/manager.go:51-77 | When it does, the callback was due already as the room was given, or its timer was made for an earlier room of that name, or by the late report of one. |
| ManagerProtocol.CallbackOnce | internal/chat/manager.go:64 | A timer's callback runs once. |
| ManagerProtocol.ReapTakesOwn | internal/chat/manager.go:64-77 | It takes the room its timer was made for exactly when that room is still registered, and otherwise a successor of the same name. |
| ManagerProtocol.WantedRoomReaped | internal/chat/manager.go:51-53 | The first happens: somebody comes back as the timer expires. |
| ManagerProtocol.SuccessorReaped | internal/chat/manager.go:61-77 | The second happens: a room that reports itself idle twice leaves a timer for the next one. |
| ManagerProtocol.LateReportReaps | internal/chat/manager.go:45-65 | The third happens: a reaped room handles a repeated leave before stop, and its report arms the next room's timer. |
| RoomManager.Manager.GetOrCreate | internal/chat/manager.go:32-49 | Returns nil exactly after shutdown; otherwise the one room registered under the name, open, with its timer stopped and forgotten; a new room starts its life empty. |
| RoomManager.Manager.ScheduleReap | internal/chat/manager.go:54-65 | Whichever room reports, the room registered under its name gets a new armed timer in place of the old; for a name that is not registered nothing changes. |
| RoomManager.Manager.Reap | internal/chat/manager.go:67-77 | Takes out whatever is registered under the name and closes it, once. |
| RoomManager.Manager.ShutdownAll | internal/chat/manager.go:80-96 | Stops the entries' timers and closes each registered room once, in any order; with no other claim under way every room ever made is closed exactly once. |
| RoomManager.Manager.ViewerCount | internal/chat/manager.go:104-112 | Zero for a name that is not registered; for a registered room on a lawful run never fewer than its distinct viewers, and as many exactly when no lost viewer is still unpublished. |
| StreamProtocol.RunKeepsInv | internal/stream/ingest.go:62-178 | Registry, phases and rows agree in every reachable state, through any interleaving, crashes and boots. |
| StreamProtocol.RegisteredExactlyWhileLive | internal/stream/registry.go:19-33 | A name maps to a session exactly while that session is between its successful add and its own remove, so no channel has two. |
| StreamProtocol.RemovesOwnSession | internal/stream/session.go:95-98 | Removing by name always removes the caller's own entry. |
| StreamProtocol.RegisteredRowOpen | internal/stream/session.go:100-113 | The row of a registered session is open. |
| StreamProtocol.LoserHarmless | internal/stream/ingest.go:145-158 | A publisher that loses the race closes its own row only. |
| StreamProtocol.RowsWriteOnce | internal/store/queries/stream_sessions.sql.go:38-66 | ended_at and end_reason are set together, at most once, and never overwritten, through any crashes and boots; rows never change otherwise. |
| StreamProtocol.EndReasonTruthful | internal/stream/session.go:55-113 | A row closed by its session's own update says crashed if and only if the teardown that won the once was the watchdog's after an ffmpeg error, orphan_swept if and only if it was shutdown's, and normal otherwise; any other closed row of a registered session was swept by a boot after a crash or a failed update. |
| StreamProtocol.RowContents | internal/store/queries/stream_sessions.sql.go:14-36 | In every later state a row holds the channel and the start time that it was made with. |
| StreamProtocol.EndedAtTruthful | internal/store/queries/stream_sessions.sql.go:38-66 | A closed row bears the time of the one update or sweep that found it open and closed it. |
| StreamProtocol.OpenRowAccounting | internal/stream/ingest.go:79-158 | After boot the open rows are exactly the disjoint union of publishes in progress, sessions before their row update, aborted publishes and failed updates. |
| StreamProtocol.RecoverClosesAll | internal/stream/service.go:60-63 | The next sweep leaves none open. |
| StreamProtocol.AbortedRowStaysOpen | internal/stream/ingest.go:108-113 | The row of a publish that failed before registration stays open until a boot sweeps it. |
| StreamServer.LiveRegistry.Add | internal/stream/registry.go:19-27 | Adds exactly when the name is free, and says so. |
| StreamServer.LiveRegistry.Snapshot | internal/stream/registry.go:42-50 | Lists every registered session once, in any order. |
| StreamServer.Service.OnPublish | internal/stream/ingest.go:62-178 | Fails with exactly the error of the first thing that goes wrong, a lost reply and a live channel included. The one new row has the publisher's channel and start time, and is closed only for a lost race. On success one new session with the channel's name and title is registered; on failure the registry is as before. |
| StreamServer.Service.TearDownSession | internal/stream/session.go:55-125 | The first caller unregisters its own session and closes its row now, as crashed for a watchdog with an error, orphan_swept for shutdown and normal otherwise; every caller returns with the teardown complete, and one that finds it complete changes nothing. |
| StreamServer.Service.Watch | internal/stream/ingest.go:160-170 | If the watchdog is first, the row says crashed for an ffmpeg error and normal without one. |
| StreamServer.Service.FinishTearDown | internal/stream/session.go:95-113 | From wherever the goroutine inside the once stands, its remaining steps are taken once each, with its reason. |
| StreamServer.Service.OnClose | internal/stream/ingest.go:229-236 | Tears down a registered session once, as normal if it is first, and does nothing for a publish that was never registered. |
| StreamServer.Service.RecoverOnBoot | internal/stream/service.go:60-79 | Succeeds exactly when sweep and directory do; a sweep that arrives closes each open row now as orphan_swept and touches no other. |
| StreamServer.Service.ShutdownLive | internal/stream/service.go:127-131 | With no publish registering meanwhile, leaves no channel live; each row it could update says orphan_swept, or the reason of the caller whose teardown was under way and was waited for. |
| StreamProtocol.ShutdownLeaves | internal/stream/service.go:127-131 | Over all interleavings: once what the snapshot found is torn down, whatever is registered was added after it, so no channel is live if and only if every publish added meanwhile was removed too. |
| StreamProtocol.LatePublish | internal/stream/ingest.go:145-178 | Teardowns do not keep a prepared publish from registering. |
| StreamServer.Service.ListLive | internal/stream/service.go:82-89 | One entry per registered channel, with its session's title and start time, no other, none twice. |
| StreamTable.StreamSessions.Create | internal/store/queries/stream_sessions.sql.go:14-36 | Adds one open row with the given channel and start time. |
| StreamTable.StreamSessions.End | internal/store/queries/stream_sessions.sql.go:38-54 | The guarded update sets time and reason of a row that is still open, and changes nothing else. |
| StreamTable.StreamSessions.MarkOpenOrphaned | internal/store/queries/stream_sessions.sql.go:56-66 | Closes every open row and touches no other. |
| RingBuffers.RememberedIsTail | internal/stream/ringbuf.go:19-44 | Remembering write by write is the last capacity bytes of the concatenation of all writes. |
| RingBuffers.ChunkingIndependent | internal/stream/ffmpeg.go:103-106 | Two ways of splitting the same bytes into writes leave the same contents. |
| RingBuffers.PlaceFlat | internal/stream/ringbuf.go:30-31 | A write that fits before the end leaves the chronological contents right, whether or not the buffer was full. |
| RingBuffers.PlaceWrapped | internal/stream/ringbuf.go:32-37 | So does one that wraps around. |
| RingBuffers.RingBuffer.Write | internal/stream/ringbuf.go:19-44 | After a write of any length the buffer holds the last capacity bytes of everything written. |
| RingBuffers.RingBuffer.Drain | internal/stream/ffmpeg.go:95-107 | Draining writes each line followed by its newline, in order. |
| RingBuffers.RingBuffer.Snapshot | internal/stream/ringbuf.go:47-59 | Returns exactly those bytes, in order, in a new array. |

## Left out

- The WebSocket upgrade, JSON, socket writes, RTMP and FLV decoding, the ffmpeg process and pipes: foreign calls. Only "the writer receives", "ffmpeg is done, with or without an error" and "this step failed" remain, as free choices.
- Message times and ids: `At` stamps are dropped and UUIDs are ids given to the step.
- Floating-point rounding in the limiter: exact reals. Clock readings are parameters.
- The int32 store of the viewer count: unbounded integers.
- HLS directories: teardown unregisters before it deletes the directory, so a live channel may be without one; nothing is claimed about them.
- Waiting inside `sync.Once`: a second caller's wait is the first one's remaining steps, taken before it returns.
- That a reaped room is empty: it need not be, see `ManagerProtocol.WantedRoomReaped`.
- `readLoop`'s filters: only logged-in clients post, and nothing empty; JSON, trimming and the length limit are not modelled.
- Select fairness, goroutine scheduling and deadlines: safety over all interleavings is proved instead of progress.
- A client's `leave` may be repeated any number of times here, where the handlers send it at most twice; a full `leave` channel drops it, as in the code.
- The send channel's buffer: a message is received when the room takes it.
- Concurrency inside one method of `StreamServer.Service` or `RoomManager.Manager`: each method runs its atomic steps in a row; the interleavings are those of `StreamProtocol` and `ManagerProtocol`, over which the theorems range.
- StreamServer.Service.OnPublish: does not tell a failed key lookup from an unknown key.
- Deleting rows by removing a channel, which cascades in the database schema: rows are never deleted here.
- Accounts, sessions, stream-key hashing, validation, configuration, templates, routes and `main`: library wrappers or plumbing. That recovery runs before the listener starts is taken from `cmd/chtiwt/main.go`.
