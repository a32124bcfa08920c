# chat-rs: a verified model

chat-rs is a terminal chat: a server holds rooms, each behind a password, and clients exchange
end-to-end sealed messages through it. This project models the server's rooms as concurrent machines,
the client that consumes their stream, the limiters and bounds that protect the server, and the
formats both sides read and write, and proves what they promise over every input and every run.

## How it is laid out

| file | content |
|---|---|
| `Proto.dfy` | frames, messages, size constants |
| `Postcard.dfy` | the wire format, written and read |
| `WireForms.dfy`, `ServerForms.dfy` | exactly which bytes are accepted as client and as server frames |
| `WelcomeBound.dfy` | how large frames get |
| `SlidingWindow.dfy`, `RateLimiter.dfy` | sliding-window limiting against the rule "count the full log" |
| `Stores.dfy` | history, sessions, connections and outboxes as classes, each method against its function |
| `RoomMachine.dfy` | the room: tasks and sweeper, one lock section or one `try_send` per step |
| `RoomLogs.dfy` | what the logs of a run mean |
| `RoomInvariant.dfy`, `RoomSteps.dfy` | the invariant, and its preservation by every step |
| `RoomTheorems.dfy` | delivery, joins, history, frame sizes, progress, in every reachable state |
| `RoomRules.dfy`, `RoomSweep.dfy` | who gets a message or a clear through; which sessions go |
| `Server.dfy` | the room's operations as imperative code; each is a schedule of the machine |
| `Locks.dfy`, `ConnGuard.dfy` | lock order; the connection counter |
| `ClientUi.dfy`, `Client.dfy` | the client's state; how it merges history and stream, and what it sends |
| `HonestClient.dfy` | an honest client in the room |
| `Screens.dfy`, `PaneRows.dfy` | what stands on a client's screen; what stands in the rows of its pane, with cap and expiry |
| `EndToEnd.dfy` | room and client together |
| `RoomLimits.dfy` | runs that show what the room does not promise |
| `Secrets.dfy` | what is typed as a secret stays out of every history |
| `Prologue.dfy`, `Texts.dfy`, `Utf8.dfy` | handshake prologue; trimming; texts as bytes |
| `RoomsConfig.dfy`, `RoomsErrors.dfy` | the rooms configuration; which error it gets |

`RoomMachine` is the heart. A state holds the three stores of a room and one task per connection,
each with a program counter between two lock sections, an outbox and some logs. A schedule is any
sequence of enabled steps of any tasks; `Reachable` means reachable by some schedule. Every theorem
about `Reachable` states holds for any number of tasks that come and go in any interleaving.

## Where code and documentation disagree

The model follows the code.

- `/s` alone is documented as doing nothing (`src/client/ui.rs:402-403`). The line is trimmed before
  the prefix is looked for, so it goes out as an ordinary message, and the check for an empty body
  never fires (`Client.BareSecretIsOrdinary`, `Client.SecretAlwaysSent`).
- The table of variables in the README of chat-rs asks room passwords for at least 8 characters
  (`README.md:41`); the parser asks for 12 bytes (`src/server/rooms.rs:18-20`).
- The prologue's length byte is said to prevent an ambiguity. The salt and the version after the name
  have a fixed size, so there is none, even where the byte wraps (`Prologue.PrologueInjective`).
- The scrolled-back view is said to stay anchored. At the cap it moves on by one message
  (`ClientUi.AnchoredExactlyBelowCap`).

## Model

| member | source | states |
|---|---|---|
| `RoomTheorems.FifoWithoutGaps` | src/server/mod.rs:544-564 | in every interleaving, what entered X's outbox from A is a contiguous, in-order, duplicate-free stretch of A's broadcasts, starting where X registered and, while X is connected, reaching A's last announced one |
| `RoomTheorems.CountersIncreaseEverywhere` | src/server/mod.rs:485-507 | counters strictly increase per sender in the history and in every outbox, although counter, push and send lie in different lock sections |
| `RoomTheorems.CountersBehindSession` | src/server/stores.rs:103-111 | none of those counters is ahead of its sender's session while the session exists |
| `RoomTheorems.JoinMissesNothing` | src/server/mod.rs:382-399 | a message being or having been broadcast is in a connected X's outbox, or X has yet to be tried with it, or has refused it and is about to be disconnected, or it is in X's Welcome, or was ephemeral and earlier than X, or had been wiped or displaced before X looked |
| `RoomTheorems.UnsentIsAbsent` | src/server/mod.rs:549-555 | a message X has not been tried with, or has refused, is not in its outbox |
| `RoomTheorems.HistoryRefinesLog` | src/server/stores.rs:31-44 | the ring is the last 15 of the durable messages recorded since the last wipe; each entry was issued by its sender and is within the bounds; the log is complete per sender |
| `RoomTheorems.EveryFrameFits` | src/crypto/noise.rs:102-107 | every Welcome and every queued broadcast of every reachable state fits a Noise message and the frame cap, and is one of the frames that read back |
| `RoomTheorems.ConnectionsHaveSessions` | src/server/mod.rs:62-66 | whenever the sessions lock is free every connection has a session |
| `RoomTheorems.WaitersWaitForRunners` | src/server/mod.rs:458-532 | a task that cannot step waits for the sessions lock, and its holder can step |
| `RoomTheorems.OutboxIncreasing` | src/server/mod.rs:550-555 | counters increase per sender along everything ever put into one outbox |
| `RoomTheorems.RecordedIncreasing` | src/server/mod.rs:503-506 | counters increase per sender along the history log |
| `RoomTheorems.JoinSawOrGone` | src/server/mod.rs:382-399 | a durable message announced before X registered is in the history X was given, or was gone by then |
| `RoomTheorems.RecordedMember` | src/server/mod.rs:473-506 | whatever any replay of the log's beginning holds was accepted, bounded and not ephemeral |
| `RoomRules.MessageRateHolds` | src/server/stores.rs:116-133 | no session gets more than 30 messages through in any closed 10 s interval, over every run |
| `RoomRules.ClearsApart` | src/server/stores.rs:138-150 | accepted clears of one session lie at least 30 s apart, over every run |
| `RoomRules.AdmissionRule` | src/server/mod.rs:485-493 | a message is admitted exactly when the session exists, its counter is positive and above all the session got through, and the full log has room in the window |
| `RoomRules.ClearRule` | src/server/mod.rs:510-516 | a clear is admitted exactly when the session exists and its last accepted clear is at least 30 s ago |
| `RoomRules.ClearOutcome` | src/server/mod.rs:510-516 | in every reachable state: a clear goes on to wipe the history exactly when the session exists and the log of its accepted clears is empty or ends at least 30 s ago; otherwise the connection leaves and sessions, history and every other task stay as they are |
| `RoomRules.MessageOutcome` | src/server/mod.rs:485-502 | in every reachable state: a message goes on, to the history unless it is ephemeral, exactly when its session exists, its counter is new and the full log has room; otherwise the connection leaves; a stale counter changes no session, a new one is remembered even when the window then refuses the message |
| `RoomRules.TouchOutcome` | src/server/mod.rs:464-484 | a frame renews the time stamp of its session and nothing else; handshake frames, foreign identities or names and ciphertexts over the limit make the connection leave |
| `RoomRules.OfferOutcome` | src/server/mod.rs:549-555 | a frame offered to a receiver is taken exactly when the receiver is there and fewer than 64 frames wait; then it waits last, otherwise the receiver is marked to be dropped |
| `RoomRules.NamedAlways` | src/server/mod.rs:382-387 | in every schedule a session and its connection bear the name registered with |
| `RoomRules.ServiceEndsExactly` | src/server/mod.rs:394-455 | in every reachable state a step ends a connection's service exactly if its Welcome or a frame could not be sent, its stream ended, or a frame of it was refused, with every refusal spelled out |
| `RoomRules.OverForGood` | src/server/mod.rs:403-419 | in every schedule a connection whose service is over is sent nothing further, and nothing further is broadcast for it |
| `RoomRules.RememberedAlways` | src/server/stores.rs:103-111 | until a task leaves, its session's counter is exactly the highest it let through |
| `RoomSweep.SweptUnlessTouched` | src/server/mod.rs:224-241 | a swept session is idle beyond the timeout exactly when it was not active since the list was made (one direction always, both when the sweep follows within the timeout) |
| `RoomSweep.ListedExactly` | src/server/stores.rs:156-163 | wherever in a schedule the sweeper looks, it lists exactly the sessions whose registration or last frame is longer ago than the timeout |
| `RoomSweep.LeftoversExactly` | src/server/mod.rs:394-417 | after any schedule, a task that is over has a session exactly if its Welcome failed and no sweep had it in its list, and a connection exactly if moreover no broadcast evicted it |
| `RoomSweep.ServedExactly` | src/server/mod.rs:382-417 | a task being served has a session exactly until it is swept, and a connection exactly until it is swept or evicted |
| `RoomLimits.SweepHitsActive` | src/server/mod.rs:226-239 | a run in which the sweeper is about to remove a session active this very instant |
| `RoomLimits.FailedWelcomeStays` | src/server/mod.rs:394-399 | a run whose failed Welcome leaves session and connection in place |
| `RoomLimits.EphemeralLostToJoin` | src/client/mod.rs:163-170 | a run in which an ephemeral message is delivered and never shown, because the Welcome held a later counter |
| `RoomLimits.DurableLostToClear` | src/client/mod.rs:163-180 | a run in which a message that is not ephemeral, sent and delivered after a clear, is wiped by that clear as part of the Welcome and then dropped as a replay |
| `RoomLimits.ClearPartsViews` | src/server/mod.rs:517-528 | a run after which the history holds a message and both clients' screens are empty |
| `RoomSteps.ReachableOk` | src/server/mod.rs:348-532 | the invariant holds in every reachable state |
| `RoomSteps.StepKept` | src/server/mod.rs:348-532 | every step of every task and of the sweeper keeps the invariant |
| `RoomSteps.SendPairs` | src/server/mod.rs:550-555 | one `try_send` keeps every pair of sender and receiver without a gap: the frame taken is the next one owed, or the receiver is marked dead |
| `RoomSteps.ConnectKept` | src/server/mod.rs:382-387 | inserting the connection, while the sessions lock is held, keeps the invariant |
| `RoomSteps.RecordKept` | src/server/mod.rs:503-520 | a push to the history or a wipe of it keeps the invariant |
| `RoomSteps.EvictKept` | src/server/mod.rs:556-563 | dropping the dead keeps the invariant, so no receiver still connected has a gap |
| `RoomInvariant.MessageAcceptedKept` | src/server/mod.rs:485-502 | admitting a message keeps the invariant: logs, quota, counter and identity stay in step |
| `RoomInvariant.QuietKept` | src/server/mod.rs:412-417 | a step that leaves the logs alone and only shrinks the connections keeps the invariant |
| `RoomLogs.ReplayIsLast` | src/server/stores.rs:31-44 | pushing and wiping one by one yields the last 15 pushes since the last wipe |
| `RoomLogs.InHistoryUnlessDisplaced` | src/server/stores.rs:31-36 | a recorded message is in the history exactly when no wipe and fewer than 15 pushes came after it |
| `RoomLogs.FromIncreasing` | src/server/mod.rs:485-493 | if every sender's part of a log increases, any two messages of one sender in it do |
| `RoomLogs.HistoryEntries` | src/server/stores.rs:31-44 | the history is the end of the log |
| `Server.RoomState.Join` | src/server/mod.rs:382-393 | session and connection inserted with an empty outbox; the history handed back |
| `Server.RoomState.Leave` | src/server/mod.rs:412-417 | session and connection removed, nothing else |
| `Server.RoomState.Sweep` | src/server/mod.rs:224-241 | exactly the sessions idle beyond the timeout are removed, with their connections |
| `Server.RoomState.SendToAll` | src/server/mod.rs:549-555 | each target's outbox gets the frame if it takes it; exactly the others are listed |
| `Server.RoomState.Broadcast` | src/server/mod.rs:544-564 | every outbox that takes the frame has it at its end, the others are disconnected, no other is touched |
| `Server.RoomState.HandleClientFrame` | src/server/mod.rs:458-532 | what handling a client frame leaves behind, and whether the connection goes on; `Server.FrameOutcome` and `Server.RefusalKeeps` say it field by field |
| `Server.FrameOutcome` | src/server/mod.rs:458-532 | the connection goes on exactly for a well addressed message within the limit, with a new counter and fewer than 30 of the kept time stamps inside the window, or a clear past the cooldown, of a session that exists; then every outbox that takes the frame has it last and the others are dropped, and the history has the message last unless it is ephemeral, or is empty after a clear; else history and outboxes are as they were, and no other session is ever touched |
| `Server.RefusalKeeps` | src/server/mod.rs:458-532 | a refused frame changes of its session the time of the last frame, and else only a new counter and the pruned window of a message over the rate |
| `Server.BroadcastIsSchedule` | src/server/mod.rs:544-564 | a broadcast nobody interrupts is a schedule of the machine with the same outcome |
| `Server.HandlingIsSchedule` | src/server/mod.rs:458-532 | handling a client frame in one go is a schedule of the machine: same stores, same verdict |
| `Server.ReachableInOrder` | src/server/mod.rs:434-455 | every reachable state meets what these schedules start from |
| `Server.LeadsReachable` | src/server/mod.rs:348-532 | a schedule from a reachable state ends in one, so the theorems hold after each of these operations |
| `Server.JoinIsSchedule` | src/server/mod.rs:382-393 | so is joining |
| `Server.LeaveIsSchedule` | src/server/mod.rs:412-417 | so is cleaning up |
| `Server.HangupIsSchedule` | src/server/mod.rs:412-417 | and after a refusal or the end of its stream a connection cleans up: out of both stores, its outbox closed |
| `Server.SweepIsSchedule` | src/server/mod.rs:224-241 | so is one round of the sweeper |
| `Stores.MessageStore.Push` | src/server/stores.rs:31-36 | the ring drops its oldest entry when full |
| `Stores.UserSessionStore.TryAdvanceCounter` | src/server/stores.rs:103-111 | true exactly for a strictly larger counter of an existing session, which is then remembered |
| `Stores.UserSessionStore.TryConsumeMessageQuota` | src/server/stores.rs:116-133 | prunes, refuses when still full, records otherwise; `SlidingWindow.AdmitRefines` says what that decides |
| `Stores.UserSessionStore.TryConsumeClear` | src/server/stores.rs:138-150 | refuses within the cooldown and keeps the old time stamp then |
| `Stores.UserSessionStore.Stale` | src/server/stores.rs:156-163 | lists exactly the sessions idle beyond the timeout, each once |
| `Stores.Outbox.TrySend` | src/server/mod.rs:550-554 | never waits: a full or closed outbox refuses and stays as it is |
| `Server.RoomState.Finish` | src/server/mod.rs:394-419 | the end of a connection closes its outbox, which stays in the map exactly if it was not removed before |
| `Server.FinishIsSchedule` | src/server/mod.rs:394-419 | the end of a connection is a step of the machine with the same outcome |
| `Stores.ConnectionManager.Snapshot` | src/server/managers.rs:29-34 | every connection once with its own outbox |
| `SlidingWindow.PopExpired` | src/server/stores.rs:121-127 | drops exactly the expired front of the queue |
| `SlidingWindow.AdmitRefines` | src/server/ratelimit.rs:37-47 | the pruned queue accepts exactly when the full log holds fewer than the maximum in the window, and keeps tracking the log |
| `SlidingWindow.SpacedBoundsEveryWindow` | src/server/ratelimit.rs:27-28 | a log kept by that rule has at most the maximum in any closed interval of the window's length |
| `SlidingWindow.CountIsStretch` | src/server/ratelimit.rs:37-47 | an interval picks one contiguous stretch of a sorted log |
| `RateLimit.RateLimiter.Check` | src/server/ratelimit.rs:31-48 | one attempt changes only its address's queue |
| `RateLimit.RateLimiter.Cleanup` | src/server/ratelimit.rs:52-66 | every queue pruned, empty ones dropped |
| `RateLimit.LimiterRefinesRule` | src/server/ratelimit.rs:31-66 | over any monotone run of checks and cleanups the decisions are those of the rule over the full logs |
| `RateLimit.CleanupChangesNoDecision` | src/server/ratelimit.rs:50-66 | leaving out all cleanups leaves every decision the same |
| `RateLimit.AcceptedIsRuleLog` | src/server/ratelimit.rs:31-66 | what the limiter accepts from an address over any run is the rule's full log |
| `RateLimit.NoWindowOverfull` | src/server/ratelimit.rs:27-28 | the limiter accepts no more than the maximum from an address in any closed interval of the window's length |
| `RateLimit.CleanupKeepsActive` | src/server/ratelimit.rs:50-66 | a cleanup keeps exactly the addresses with an accept inside the window |
| `ConnGuard.CapHolds` | src/server/mod.rs:106-123 | for any number of threads the counter is guards plus attempts under way, guards never exceed the cap, no subtraction underflows |
| `ConnGuard.OvershootIsPending` | src/server/mod.rs:108-111 | the counter exceeds the cap by at most the attempts awaiting rollback, and snaps back |
| `ConnGuard.RefusedExactlyWhenFull` | src/server/mod.rs:112-117 | whatever others do between its addition and its test, an attempt is refused exactly when guards and attempts under way had reached the cap at its addition |
| `Locks.ScriptOrdered` | src/server/mod.rs:62-66 | every sequence of the code's lock sections respects sessions, messages, connections |
| `Locks.NoCyclicWait` | src/server/mod.rs:62-66 | no reachable state of any number of tasks has a cyclic wait of any length |
| `Locks.WaitersHaveRunners` | src/server/mod.rs:226-239 | behind every waiting task some lock holder can step |
| `Locks.StuckMeansDone` | src/server/mod.rs:62-66 | nothing can step exactly when every task is done and holds nothing |
| `EndToEnd.NoMessageTwice` | src/client/mod.rs:79-85 | no (sender, counter) pair is ever pushed to a client's pane twice, over every schedule, overlap of Welcome and queue included |
| `EndToEnd.ClientNeverRepeats` | src/client/mod.rs:79-85 | the same of the client as it runs, at any moment: the history it seeds and the messages its state accepts, with any frames, keys, ticks and resizes |
| `EndToEnd.DeliveredIsShown` | src/client/mod.rs:163-180 | at any moment of the delivery a sent message is on the client's screen exactly when no clear came after it and it either passed the Welcome's counters, or was in the Welcome and no clear came at all; what fails the counters without being in the Welcome was ephemeral, or wiped or displaced before the connection looked |
| `EndToEnd.PaneShows` | src/client/mod.rs:112-154 | a message of the stream is on a running client's rows exactly if it passed the Welcome's counters and its row lasts, or did not pass them and the row of the Welcome's copy lasts; and only if it is on the screen. What lasts is said of the message itself: no clear, no HISTORY_CAP younger rows, and no tick 30 s after its arrival if it is ephemeral and opened |
| `EndToEnd.PaneShowsHistory` | src/client/mod.rs:79-85 | a message of the Welcome is on the rows exactly if its own row lasts in that sense: the stream never brings it back |
| `EndToEnd.MissingExactlyAfterClear` | src/server/mod.rs:517-528 | a message of the server's history that a client was given or sent is missing from its screen exactly when a clear stands after it in the client's stream, the Welcome counting as before all frames |
| `EndToEnd.ClearsCameBefore` | src/server/mod.rs:517-520 | every clear a client was sent wiped the history before any message now in it was pushed |
| `EndToEnd.HistoryReaches` | src/server/mod.rs:382-399 | every message of the history was given or sent to a connected client, or its sender is about to announce it or to try the client, or the client has refused it and is about to be disconnected |
| `Screens.ScreenExactly` | src/client/mod.rs:157-180 | along any orderly stream, what the fold over Welcome, messages and clears leaves on screen |
| `PaneRows.RowsAreThePane` | src/client/mod.rs:112-154 | rows tagged with the messages they show are the client's pane, whatever happens to it |
| `PaneRows.StandsExactly` | src/client/ui.rs:112-165 | a row lasts through any events exactly if no clear comes, no tick finds it expired and at no moment HISTORY_CAP younger rows stand; then those are the rows below it |
| `PaneRows.StandsMeans` | src/client/ui.rs:112-165 | the same condition, read off all events and all moments at once |
| `PaneRows.LastsIsStands` | src/client/ui.rs:471-492 | for a message displayed at some moment that condition comes down to the message's own ephemeral flag and whether it opened: an ordinary one is lost only to a clear or to HISTORY_CAP younger rows |
| `PaneRows.TickTakes` | src/client/ui.rs:143-165 | a tick takes a message's row exactly if the message is ephemeral, opened, and was displayed 30 s ago or longer |
| `PaneRows.FewLeaveStanding` | src/client/ui.rs:112-116 | a row that was neither wiped nor expired stands while fewer than HISTORY_CAP rows came below it |
| `PaneRows.ManyPushOut` | src/client/ui.rs:112-116 | HISTORY_CAP rows below it, none of them wiped or expired, have pushed a row out |
| `PaneRows.ScreenHolds` | src/client/mod.rs:157-180 | the screen holds what the history had or the client accepted and no clear has wiped: the rows without cap and expiry |
| `PaneRows.RowsShowScreen` | src/client/mod.rs:157-180 | through any life of a client, from any history that fits its pane and for any stream: its rows show a message exactly if the row of a history entry with it, or of an arrival of it that was accepted, lasts; and then the message is on the screen |
| `EndToEnd.HistoryOrderly` | src/server/mod.rs:390-393 | the history a connection was given has both sender fields equal and increasing counters |
| `EndToEnd.OvertakenWasRecorded` | src/server/mod.rs:503-507 | a durable message overtaken in X's Welcome was recorded before X looked |
| `Client.LiveShownExactly` | src/client/mod.rs:163-172 | a live message adds one entry, which displays it exactly when its counter exceeds every earlier history or live counter of its sender: its text under the sender's name and time stamp, ephemeral from now exactly if the message is; an unopened one and a replay leave a notice, whatever the server sends |
| `Client.LiveSees` | src/client/ui.rs:102-110 | the remembered counter of a sender is the highest in history and stream, whatever happens in between |
| `Client.LiveNeverRepeats` | src/client/mod.rs:163-172 | the stream never repeats a pair that the history did not |
| `Client.PaneRepeatsOnlyHistory` | src/client/mod.rs:79-85 | the pane repeats no pair exactly when the history did not |
| `Client.AcceptedIsPaneLog` | src/client/mod.rs:157-172 | seeding, then accepting message by message, pushes exactly the pane's log |
| `Client.SeedHistory` | src/client/mod.rs:79-85 | the seeding loop accepts every counter and pushes every message |
| `Client.SeedShows` | src/client/mod.rs:79-85 | a seeded history is on the pane entry by entry, each as its message is displayed |
| `Client.HandleServerFrame` | src/client/mod.rs:157-187 | the new state and outcome of each server frame; `Client.FrameEffect` says it field by field |
| `Client.FrameEffect` | src/client/mod.rs:157-187 | a newer message is displayed and its counter remembered, another leaves the replay notice; a clear leaves its own notice alone; an error and a handshake frame change nothing and end the client with their own errors |
| `Client.HandleKey` | src/client/ui.rs:378-469 | the new state and action of each key; `Client.LineEffect` and `Client.KeyEffect` say it field by field |
| `Client.LineEffect` | src/client/ui.rs:391-432 | what an entered line sends: a clear, the end, nothing for a blank one, else one message under the client's identity, next counter and wall clock, sealed from the body, ephemeral exactly for `/s ` and `/secret `; a failed seal consumes the counter and leaves a notice |
| `Client.KeyEffect` | src/client/ui.rs:433-467 | every other key: by how much each scrolls, what it does to the input, and that it sends nothing |
| `Client.ViewAlwaysOk` | src/client/ui.rs:195-200 | over any life of a client the scrollback is at most 500, the scroll within it, the window in bounds with min(h, len) rows |
| `Client.SentAscending` | src/client/ui.rs:416-417 | sent counters start at 1 and strictly increase until the largest value is assigned |
| `Client.CounterRepeatsExactlyAtMax` | src/client/ui.rs:416-417 | the next counter is above the one just sent exactly below the largest value |
| `Client.AscendingAccepted` | src/server/stores.rs:103-111 | a fresh session accepts a sequence of counters exactly when it ascends from at least 1 |
| `HonestClient.AscendingNeverRefused` | src/server/mod.rs:485-490 | in every schedule of the room, if the counters a session offered ascend, the one up for admission is above the session's |
| `HonestClient.HonestNeverRefused` | src/client/ui.rs:416-431 | over a FIFO link, in every schedule of the room, an honest client's message never fails the counter check before saturation |
| `HonestClient.SaturationIsFar` | src/client/ui.rs:416-417 | saturation is 2^64 - 2 events away at least |
| `Client.SecretAlwaysSent` | src/client/ui.rs:404-412 | a line beginning with `/s ` or `/secret ` is sent as ephemeral whenever it can be sealed: the check for an empty body never fires |
| `Client.BareSecretIsOrdinary` | src/client/ui.rs:402-415 | `/s` and `/secret` alone are sent as an ordinary message with that text |
| `Secrets.BroadcastsWereReceived` | src/server/mod.rs:495-508 | in every schedule, whatever is broadcast for a connection was received from it, frame for frame |
| `Secrets.KeptWasTypedOpenly` | src/server/mod.rs:500-506 | in every schedule, any message of a client in the history or in anyone's Welcome was typed by it as a line that is not a secret |
| `Secrets.SecretIsNeverKept` | src/client/ui.rs:402-424 | what was typed as a secret is in no history and no Welcome of any schedule |
| `ClientUi.UiState.TryAcceptCounter` | src/client/ui.rs:102-110 | accepts exactly a counter above the sender's highest, and remembers it |
| `ClientUi.UiState.PushMessage` | src/client/ui.rs:112-125 | the oldest goes at the cap; a scrolled-back view is bumped only below it |
| `ClientUi.UiState.TickExpireEphemerals` | src/client/ui.rs:143-165 | drop, clamp if anything was dropped, mask again |
| `ClientUi.UiState.RevealEphemerals` | src/client/ui.rs:169-176 | every ephemeral message revealed for 3 s, no other touched |
| `ClientUi.RevealEffect` | src/client/ui.rs:169-176 | each ephemeral message is revealed until 3 s from now, and nothing else is touched |
| `ClientUi.RevealedForItsTime` | src/client/ui.rs:143-176 | at a later tick a message still alive is revealed exactly before those 3 s are over |
| `ClientUi.UiState.Render` | src/client/ui.rs:259-272 | remembers the height, clamps, and returns the rows of the window; `ClientUi.RenderShows` says which |
| `ClientUi.ChangesKeepView` | src/client/ui.rs:112-165 | push, clear, tick and reveal keep the cap and the scroll bound |
| `ClientUi.RowsFill` | src/client/ui.rs:259-272 | within the bounds the window has exactly min(h, len) rows |
| `ClientUi.VisibleRows` | src/client/ui.rs:263-272 | the rows shown are counted from the bottom, with exactly `scroll` newer messages below them |
| `ClientUi.RenderShows` | src/client/ui.rs:259-272 | a render at any height: how far it clamps, how many rows it shows, and which |
| `ClientUi.EndsShown` | src/client/ui.rs:187-193 | Home shows the oldest message first, End the newest last |
| `ClientUi.ScrollsByOne` | src/client/ui.rs:178-185 | one step back brings in the next older message at the top and drops the lowest row; one step forth undoes it |
| `ClientUi.PushAnchorsView` | src/client/ui.rs:118-124 | a push below the cap leaves the scrolled-back rows identical; at the cap the window moves on by one |
| `ClientUi.AnchoredExactlyBelowCap` | src/client/ui.rs:118-124 | with distinct messages the rows stay exactly below the cap |
| `ClientUi.PinnedSeesNewest` | src/client/ui.rs:112-125 | a view at the bottom stays there and shows the pushed message last |
| `ClientUi.TickKeepsExactlyTheLiving` | src/client/ui.rs:143-165 | after a tick exactly the living messages remain, as many, in order, none revealed beyond its time |
| `ClientUi.CountdownExact` | src/client/ui.rs:346-349 | the countdown is the remaining time rounded up to seconds, between 1 and 30 while the message lives and 0 exactly when it does not |
| `ClientUi.TickCountdowns` | src/client/ui.rs:143-165 | right after a tick every surviving ephemeral message shows 1 to 30 |
| `Postcard.ClientFrameRoundTrip` | src/proto.rs:27-42 | encoding then decoding any client frame returns it and the untouched rest |
| `Postcard.ServerFrameRoundTrip` | src/proto.rs:44-62 | the same for any server frame, histories of any length included |
| `Postcard.MessagesRoundTrip` | src/proto.rs:50-53 | a sequence of messages reads back as itself |
| `Postcard.ServerFramesPrefixFree` | src/proto.rs:44-62 | one encoding begins another exactly when the frames are equal |
| `Postcard.ClientFramesPrefixFree` | src/proto.rs:27-42 | the same for client frames |
| `Postcard.AadDeterminesAd` | src/crypto/room.rs:15 | equal associated-data bytes mean equal metadata |
| `WireForms.AcceptedExactly` | src/server/mod.rs:449-450 | bytes decode to a client frame and a rest exactly when they are, field by field, the frame's bytes followed by the rest: strings UTF-8, flags 0 or 1, varints padded by empty groups within their types' lengths |
| `ServerForms.ServerAcceptedExactly` | src/client/mod.rs:144-145 | the same of the server frames a client decodes, histories and error numbers included |
| `WireForms.UnpaddedFrame` | src/proto.rs:27-42 | the encoding is the form without padding |
| `ServerForms.UnpaddedServer` | src/proto.rs:44-62 | the same of server frames |
| `Postcard.BoundedFits` | src/server/mod.rs:473-484 | what passed the server's checks is a message that reads back: its names are ASCII, hence UTF-8 |
| `WelcomeBound.EntrySize` | src/proto.rs:70-95 | the exact size of a history entry from its parts |
| `WelcomeBound.WelcomeFits` | src/proto.rs:19-25 | a full history within the bounds makes a Welcome of at most 63320 bytes sealed, which fits |
| `WelcomeBound.HistoryLengthIsTight` | src/proto.rs:12 | a Welcome of largest entries fits exactly for up to 15 of them |
| `WelcomeBound.LargestEntryExists` | src/proto.rs:15-25 | such an entry exists |
| `WelcomeBound.BroadcastFits` | src/proto.rs:54-58 | broadcast frames fit as well |
| `Prologue.BuildPrologue` | src/crypto/noise.rs:22-33 | appends the parts one by one; `Prologue.PrologueLayout` says where each ends up |
| `Prologue.PrologueLayout` | src/crypto/noise.rs:22-33 | the name's length modulo 256, the name, the salt, the version with its more significant byte first |
| `Prologue.PrologueInjective` | src/crypto/noise.rs:14-33 | equal prologues exactly for equal room, salt and version, at every name length |
| `RoomsConfig.Parse` | src/server/rooms.rs:28-54 | the loop computes the parse of the lines; `RoomsConfig.ParseExactly` and `RoomsErrors.ErrorExactly` say what that is |
| `RoomsConfig.ValidateName` | src/server/rooms.rs:56-67 | the name is accepted or gets one of its two errors; `RoomsErrors.NameErrors` says which |
| `RoomsConfig.ParseSound` | src/server/rooms.rs:28-54 | a successful parse is non-empty, with distinct valid names and passwords of at least 12 bytes |
| `RoomsConfig.PrintParse` | src/server/rooms.rs:3-13 | printing valid distinct rooms among blank and comment lines, with any padding, parses back to them in order |
| `RoomsConfig.ParseExactly` | src/server/rooms.rs:28-54 | a text parses to given rooms exactly when it reads like a printed document of them |
| `RoomsErrors.ErrorExactly` | src/server/rooms.rs:28-54 | for each error: a text gets it exactly when it is the fault of the first faulty line (no `=`, the name's length, then its characters, the password's length, a name read before), or there is no entry at all |
| `RoomsErrors.NameErrors` | src/server/rooms.rs:56-67 | a bad length is reported before a bad character |
| `Utf8.EncodedText` | src/server/rooms.rs:42 | a text encoded as UTF-8 is well formed and has the counted length |
| `Texts.TrimPadded` | src/server/rooms.rs:32 | trimming removes exactly blank padding around a text without outer white space |
| `Texts.TrimSplits` | src/server/rooms.rs:39-40 | every text is its trim between blank paddings |

## Left out

- Argon2, BLAKE2s, XChaCha20-Poly1305 and the Noise handshake: libraries. Opening a message is a
  parameter of the client; sealing is a function given with each key press; Noise is a FIFO channel.
- Sockets, tokio, timeouts, signals, the length-delimited codec: plumbing. What remains of them is FIFO
  delivery, the 64-slot outbox with its full and closed outcomes, and the frame cap.
- The handshake before registration, with its fake hello for unknown rooms: of it only the checks on the
  username in the first frame are kept, as the condition for registering.
- The priority among the branches of the pump's `select!`: any enabled step may come next, which includes every
  order the code allows. Hanging up stands for shutdown, a closed outbox, a closed socket and any
  frame that does not open or decode.
- The texts of protocol errors in `handle_client_frame`: each leads to the same end, the task leaves.
- UUID randomness: a new connection's id is one no task has had.
- Clocks: an instant is a nanosecond count given to each step, never smaller than the one before it.
- Texts: strings on the wire are their bytes, checked to be UTF-8 on reading. The configuration text and the
  input line are Unicode characters; a password's length is counted in UTF-8 bytes. The lossy conversion of
  opened plaintext is part of the opening parameter.
- Strings that are not UTF-8 and lengths of 2^64 or more: the round trips are about frames as the program can hold
  them on a 64-bit machine (`ClientFrameFits`, `ServerFrameFits`).
- `RoomMachine`: the connection map is a set of ids, since each id's sending end leads to its own task's
  outbox; `Server.RoomState` keeps the outboxes as objects. Lock sections are atomic steps there, and
  `Locks` treats single acquisitions and releases.
- `Server.RoomState`: its methods run from start to end without interleaving, the machine has the interleavings; the outbox a
  broadcast cloned out of the map stays usable after removal, in the machine through its list of targets.
- Several rooms: they share nothing but the connection limiter and the connection counter.
- The limiter's poisoned-mutex branch, which denies.
- `ConnGuard.CapHolds`: fewer than 2^64 - 1 attempts are assumed to be under way at once, as for any
  counter of that width.
- `ClientUi.UiState.ScrollBack`: the saturation of the scroll at the width of `usize` is not modelled; the clamp that
  follows hides it.
- `RoomSweep.SweptUnlessTouched`: the equivalence is stated for a sweep within the timeout of its listing; for a later
  one only the direction that always holds is.
- The order of messages of different senders: not promised by the code.
- Drawing, colours, time formats, the terminal guard, keys other than those `handle_key` acts on, command line, environment,
  tracing, core dumps and zeroization: no property to prove.
