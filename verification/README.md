# A verified model of actix_send

`actix_send` runs actors on async runtimes: several contexts share one message queue, addresses send to them,
streams are fed through them, a macro generates the message dispatch, and a companion crate splits a websocket into
a decoding and an encoding stream. This project models the parts of it that keep state across many small steps and
proves what those parts are relied on for. `dafny verify dfyconfig.toml` checks everything.

Where the program updates an object in place there is a class. The methods of the chat server, the streams and the
macros' working copy are proved equal, on every state, to functions on plain values, and what the program promises is
then proved about those functions, over every run. The retry loop of the counter is proved equal to a function of the
words it meets, and the steps that contexts take on the counter in any run are proved to go the same way.

| module | what it models |
|---|---|
| `ChatRegistry`, `ChatServer`, `ChatRuns`, `ChatMoves` | the chat room server, whose failed sends disconnect members while other members are being told about disconnects |
| `Lifecycle`, `LifecycleRuns`, `LifecycleMessages`, `ActiveWord`, `ActiveWordRuns` | actor contexts, the packed counter with its marker bit, restarts, acknowledged closes |
| `Handlers`, `FutureHandle`, `Intervals` | cancellation handles against shutdown, one cancellable task, the shared interval futures |
| `Mailbox`, `Streams`, `SkipStreams`, `ActorStreams` | the two streams that turn items into messages and replies into results |
| `WsTypes`, `WsDecode`, `WsDecodeStream` | bytes to messages, with the heartbeat timer (RFC 6455, sections 5, 5.5.2 and 5.5.3) |
| `WsEncode`, `WsEncodeStream` | messages to bytes, from a local queue and a channel, with the waker handshake |
| `MacroAst`, `MacroGen`, `MacroMeaning` | the generated dispatch code as a small AST with an evaluator, and both macros that generate it |
| `Ranges`, `Wrappers` | helpers |

How the world outside enters the model:

- **Hash iteration order** is a loop that takes any remaining element, so a postcondition that names no order holds
  for all of them. `gone` is the set of websocket senders whose peer no longer exists; it is fixed during one call
  on the chat server and may be any other set in the next.
- **Concurrency** is a step system: every load, compare-and-swap, receive, hook call and lock section is one step,
  and steps interleave in any order. Steps are sequentially consistent; a weak compare-and-swap may fail for no
  reason. Shutdown may start at any time and any number of times. In `ActiveWord` the loop itself runs against
  `turns`, what the others leave in the word at each attempt; `ActiveWordRuns` reads them off a run.
- **Polling** is under the control of the caller: the source of an actor stream is an arbitrary function from the
  number of the poll to its outcome, `meanwhile` is what all others do between a send and the look at its reply, and
  the payload of a websocket is an arbitrary script of chunks, errors and Pendings.
- **Time** is a number passed to a poll; `fired` says whether the sleep was found ready, which it may be late.
- **The websocket codec** is a parameter. The decoder is a function of its state and the buffer; it uses up at least
  one byte for a frame, never more than there are, leaves the buffer alone when it has no frame, and decodes the same
  frame when more bytes follow. The encoder appends bytes, or refuses a message and changes nothing.
- **Handler bodies** in the macro model are arbitrary functions on the actor and the message.

Some things are not as one might expect from the names and comments, and the model follows the code:

- A handle pushed late can survive a shutdown: `push_handler` looks at the marker before it takes the lock.
  `Handlers` says exactly when that happens and gives the run.
- Interval keys come from a counter that wraps before its limit is checked. `Intervals` proves that the keys are
  distinct exactly as long as there were no more registrations than the counter has values, that a removed key runs
  again exactly if it was issued and inserted again, and gives a run in which it is.
- The decoding stream goes on after an error of the payload and after a text that is not UTF-8. `WsDecode` says what
  its reader sees with such errors in between.
- The encoding stream is told of the end when the decoding half is dropped, not when the last handle on the local
  queue is. `WsEncode` says exactly when the end is noticed and gives a run in which a clone goes last, silently.

## Model

| member | source | states |
|---|---|---|
| ChatServer.ChatServer.constructor | actix_send_websocket/examples/websocket-chat2/src/server.rs:23-34 | a new server has no session and one empty room, Main |
| ChatServer.ChatServer.SendMessage | actix_send_websocket/examples/websocket-chat2/src/server.rs:38-56 | in every state and iteration order it terminates, removes from both maps exactly the least set that holds the failed receivers and spreads to the dead of shared rooms, and sends everybody the text at most once, then one notice per removal seen |
| ChatServer.ChatServer.TrySend | actix_send_websocket/examples/websocket-chat2/src/server.rs:40-50 | the collected ids are exactly the receivers whose send failed; every live receiver other than the skipped one got the text once |
| ChatServer.ChatServer.DisconnectAll | actix_send_websocket/examples/websocket-chat2/src/server.rs:52-55 | disconnecting the failed ids one by one, some of which an earlier one has already taken along, ends in the state and inboxes that depend on their set only |
| ChatServer.ChatServer.DisconnectNext | actix_send_websocket/examples/websocket-chat2/src/server.rs:54 | one more failed id leads from the outcome for the ids so far to the outcome for one more |
| ChatServer.ChatServer.Connect | actix_send_websocket/examples/websocket-chat2/src/server.rs:58-68 | Main is told first, with its whole cascade; then the id is a session with its sender, and in Main; `ChatMoves` says what that leaves alone |
| ChatServer.ChatServer.Disconnect | actix_send_websocket/examples/websocket-chat2/src/server.rs:70-77 | removes the id and everybody the notices of its leave find dead, from both maps; an unknown id changes nothing |
| ChatServer.ChatServer.Forget | actix_send_websocket/examples/websocket-chat2/src/server.rs:74 | the sessions shrink, which is why the recursion ends |
| ChatServer.ChatServer.JoinRoom | actix_send_websocket/examples/websocket-chat2/src/server.rs:83-88 | the room exists afterwards and holds the id besides its members |
| ChatServer.ChatServer.Join | actix_send_websocket/examples/websocket-chat2/src/server.rs:90-96 | leave every room, enter the new one, tell it; state and inboxes are those of the three cascades in this order |
| ChatServer.ChatServer.ExitRooms | actix_send_websocket/examples/websocket-chat2/src/server.rs:99-113 | the id is in no room, and each room it was in has been told, with the cascades that followed, in any order of the rooms |
| ChatServer.ChatServer.TellAll | actix_send_websocket/examples/websocket-chat2/src/server.rs:110-112 | telling rooms one after the other ends in a state and inboxes that depend on their set only |
| ChatServer.ChatServer.SendNext | actix_send_websocket/examples/websocket-chat2/src/server.rs:112 | one more room told leads from the outcome for the rooms so far to the outcome for one more |
| ChatServer.ChatServer.RemoveFromRooms | actix_send_websocket/examples/websocket-chat2/src/server.rs:100-109 | the id is taken out of every room, and the names are those of the rooms it was in, each once |
| ChatRegistry.LeastInStages | actix_send_websocket/examples/websocket-chat2/src/server.rs:52-55 | removing in two stages, the second cascade on what the first left, removes the same sessions as one cascade from both sets of failures |
| ChatRegistry.NoticesInStages | actix_send_websocket/examples/websocket-chat2/src/server.rs:99-113 | and the notices of the stages add up to the notices of the whole |
| ChatRegistry.LeastIsDead | actix_send_websocket/examples/websocket-chat2/src/server.rs:43-54 | a cascade takes along only dead sessions other than id 0 |
| ChatRegistry.TellNext | actix_send_websocket/examples/websocket-chat2/src/server.rs:110-112 | sending the notice to one more room, in the state the earlier rooms left, is telling the larger set of rooms, for the state and for every inbox |
| ChatRegistry.DisconnectMeansExit | actix_send_websocket/examples/websocket-chat2/src/server.rs:70-77 | forgetting a session and leaving its rooms, with the cascade, is removing the least spreading set that holds it |
| ChatRegistry.DropOne | actix_send_websocket/examples/websocket-chat2/src/server.rs:52-55 | a disconnect after others composes with them, also when the id is gone already |
| ChatRuns.SendSparesTheLiving | actix_send_websocket/examples/websocket-chat2/src/server.rs:38-113 | in any state whatever, sending removes no live session |
| ChatRuns.SendRemovesExactlyTheDead | actix_send_websocket/examples/websocket-chat2/src/server.rs:38-113 | with one room per id: nothing is removed if nobody but the skipped id is dead in the room, else exactly the room's dead, all but id 0 when the skipped id is 0 |
| ChatRuns.SendLeavesOtherRooms | actix_send_websocket/examples/websocket-chat2/src/server.rs:38-113 | no other room changes |
| ChatRuns.SendDelivers | actix_send_websocket/examples/websocket-chat2/src/server.rs:38-56 | each live member of the room is sent the text first, once, never if skipped, and then one notice per removed session; id 0 gets no notice; nobody else is sent anything |
| ChatRuns.DisconnectRemovesExactly | actix_send_websocket/examples/websocket-chat2/src/server.rs:70-113 | a disconnect removes the session and the dead of its room, id 0 excepted, and sends every live member one notice per removal |
| ChatRuns.ExitLeavesOneHomeless | actix_send_websocket/examples/websocket-chat2/src/server.rs:90-113 | between leaving and entering, everybody but the joining id is in exactly one room, and it in none, though cascades run meanwhile |
| ChatRuns.ExitMeans | actix_send_websocket/examples/websocket-chat2/src/server.rs:99-113 | leaving removes exactly the other dead of the one room left, all but id 0, and sends each of its live members one notice for the leave and one per removal |
| ChatRuns.JoinMoves | actix_send_websocket/examples/websocket-chat2/src/server.rs:90-96 | a live session that joins is still connected and in the new room only |
| ChatRuns.JoinMeans | actix_send_websocket/examples/websocket-chat2/src/server.rs:90-113 | the final state of a join, joiner alive or dead: the id is moved, then exactly the dead of the old room and the dead met in the new one are evicted, and a dead joiner exactly if it meets another dead member and is not id 0 |
| ChatRuns.JoinTells | actix_send_websocket/examples/websocket-chat2/src/server.rs:90-113 | what everybody is sent by a join, joiner alive or dead: the live members of the old room one notice for the leave and one per session found dead there, then those of the new room the text and one notice per session found dead there, the joiner only the latter, id 0 no notice |
| ChatRuns.ConnectEnters | actix_send_websocket/examples/websocket-chat2/src/server.rs:58-68 | a fresh id ends up in Main only, and the other sessions are those the first notice did not find dead |
| ChatRuns.NextKeepsPartition | actix_send_websocket/examples/websocket-chat2/src/server.rs:38-113 | an operation keeps the rooms a partition of the sessions if and only if a connecting id is in no room but Main and a joining id is connected |
| ChatRuns.RunsKeepPartition | actix_send_websocket/examples/websocket-chat2/src/server.rs:23-113 | over every run of fresh connects, joins of connected ids, sends and disconnects, each with its own dead senders, the rooms partition the sessions |
| ChatMoves.NextMoves | actix_send_websocket/examples/websocket-chat2/src/server.rs:38-113 | the whole effect of every well-behaved call, in terms of the state before: exactly the dead that it reveals are removed, exactly the one who connects or joins is moved, and everybody else stays connected and where they were |
| ChatMoves.SendersAreKept | actix_send_websocket/examples/websocket-chat2/src/server.rs:64 | in any state whatever, a call leaves every remaining session its own sender; only a connecting id gets the new one |
| ChatMoves.SendersAreTheirOwn | actix_send_websocket/examples/websocket-chat2/src/server.rs:38-113 | in every run whatever, the sender of a session is the one with which that id connected last |
| ChatMoves.ConnectTells | actix_send_websocket/examples/websocket-chat2/src/server.rs:58-62 | a connect sends each live member of Main but id 0 the text and one notice per member found dead, and nobody else anything |
| Lifecycle.CounterStep | src/actor.rs:190-220 | every step of every context keeps the word equal to twice the counted contexts while unmarked, and no decrement, stale or not, goes below zero |
| Lifecycle.MarkedWordIsFrozen | src/actor.rs:204-206 | after the marker no step changes the word |
| Lifecycle.ShutdownKeepsCount | src/actor.rs:231-233 | shutdown marks the word and keeps the count, and a second one changes nothing |
| Lifecycle.OnlyWaitingWaits | src/context.rs:173-211 | a context can take a step unless it has stopped or waits for a message that may still come |
| LifecycleRuns.StopStep | src/context.rs:203-209 | a decrement fails only under the marker, and a context goes on to stop only under the marker, without `restart_on_err`, or after it acknowledged a close |
| LifecycleRuns.EveryRun | src/context.rs:173-211 | all of it together holds in every reachable state |
| LifecycleRuns.WordCountsContexts | src/actor.rs:190-220 | in every run the unmarked word is twice the number of contexts past a successful increment and before their decrement, it stays within the number of contexts, a context is uncounted in its loop only under the marker, and no enabled step underflows |
| LifecycleRuns.HooksInOrder | src/context.rs:173-211 | a context in its loop has called `on_start` generation + 1 times; it handles messages only after an `on_start` with nothing but messages between; `on_stop` is called by exactly the stopped ones, once, as the last action; nothing follows an acknowledged close but the way out; it restarts only if configured; and with restarts configured and the word unmarked, only a context that acknowledged a close ever stops |
| LifecycleRuns.HandlesAfterStart | src/context.rs:175-201 | every handled message follows an `on_start` with only messages between them |
| LifecycleRuns.StopIsLast | src/context.rs:209 | nothing follows `on_stop` |
| LifecycleRuns.NothingAfterAck | src/context.rs:71-76 | after an acknowledged close a context handles no message and starts no new life |
| LifecycleRuns.RestartsOnlyIfAsked | src/context.rs:204-207 | the generation moves only with `restart_on_err` |
| LifecycleRuns.EachMessageTakenOnce | src/context.rs:178-201 | the messages taken by all contexts followed by those still queued are the messages pushed, in order |
| LifecycleMessages.HandledIsWhatWasTaken | src/context.rs:178-201 | in every run the messages a context handled are, in order, the work among those it took, which are its share of the shared queue and the front of its own queue; what it is handling it took last; and what it acknowledged last was a close |
| LifecycleMessages.LeavesNothingBehind | src/context.rs:178-201 | a context that left its loop without an acknowledged close left behind only closed queues with every message pushed taken |
| LifecycleMessages.ClosedTakesNothing | src/context.rs:191 | a closed queue stays closed and takes no message |
| LifecycleMessages.StepsTakeEffect | src/actor.rs:231-233 | in every run a queue is closed exactly if it was closed before or a step closed it, and once a shutdown happened the word is marked |
| LifecycleRuns.AcksAreDistinct | src/context.rs:71-76 | no two acknowledged closes carry the same id, so there are at most as many as contexts, and an acknowledging context keeps its generation for good |
| LifecycleRuns.ActiveIsRestOfAcks | src/actor.rs:222-225 | unmarked, with the queue open and every context settled, `current_active` is the number of contexts minus the acknowledged closes |
| LifecycleRuns.MarkedNeverRevives | src/context.rs:203-207 | under the marker only a decrement that went through before it can still lead to a restart |
| LifecycleRuns.AtMostOneMoreRestart | src/context.rs:203-207 | from the marker on, the word stays and each context restarts at most once more |
| LifecycleMessages.ShutdownFreezes | src/actor.rs:231-233 | from a shutdown in any state on, the word is marked, the count stays what it was at that moment, and each context restarts at most once more |
| LifecycleMessages.MarkedLoopsEnd | src/actor.rs:203-206 | under the marker nobody spins: every step brings a context nearer to its end, but for its messages and the one restart that may be due |
| ActiveWord.ActiveWord.ModifyActive | src/actor.rs:198-220 | the loop ends where the attempts on the words it met lead: it has added its change exactly once, or reports a marker it really saw and wrote nothing, or is still trying; and it stops at the first attempt that settles it |
| ActiveWord.ActiveWord.IncActive | src/actor.rs:190-192 | one unit more than the unmarked word of its last swap, or nothing under the marker |
| ActiveWord.ActiveWord.DecActive | src/actor.rs:194-196 | one unit less than the unmarked word of its last swap, or nothing under the marker |
| ActiveWordRuns.StepsAreTheLoop | src/actor.rs:198-220 | in every run, whatever the others do in between, the load and swaps of one increment or decrement of a context go the way of the loop on the words they meet, and it ends counted, or decremented, exactly if the loop swaps |
| ActiveWordRuns.OwnStep | src/actor.rs:203-219 | one step of a context is one turn of its loop, and a swap that succeeds leaves in the word what the loop would |
| ActiveWord.ActiveWord.CurrentActive | src/actor.rs:222-225 | the count above the marker bit, marked or not |
| ActiveWord.ActiveWord.MarkShutdown | src/actor.rs:231-233 | the marker is set and the count is kept |
| Handlers.Preserved | src/actor.rs:167-172 | each check, lock section and cancellation of any number of pushes and shutdowns keeps the bookkeeping of who locked when |
| Handlers.CancelledExactlyIfLockedFirst | src/actor.rs:167-172 | after a completed shutdown, a listed handle was cancelled by it if and only if its push had the lock first, and was missed if and only if its push checked before the first marker and locked after that shutdown |
| Handlers.LateChecksAddNothing | src/actor.rs:167-172 | a push that checks after the marker adds no handle |
| Handlers.ListedExactlyIfCheckedFirst | src/actor.rs:167-172 | of a push that is done all handles are listed or none: all exactly if it looked before any shutdown set the marker |
| Handlers.AHandleEscapes | src/actor.rs:231-242 | a concrete run in which a completed shutdown leaves a listed handle uncancelled |
| FutureHandle.Cell.Poll | src/util/future_handle.rs:66-76 | ready exactly when cancelled, otherwise the waker of this poll is stored; a set flag leaves no waker |
| FutureHandle.Cell.Cancel | src/util/future_handle.rs:104-113 | the flag is set, and the stored waker is taken out for waking |
| FutureHandle.Preserved | src/util/future_handle.rs:66-113 | every interleaved step of the task and of any number of cancels keeps the invariant |
| FutureHandle.NoCancelIsLost | src/util/future_handle.rs:104-113 | once any clone has cancelled, no waker is left in the cell, and a task that is waiting has been woken for its last poll or will be by a cancel holding its waker |
| FutureHandle.NextPollSeesCancel | src/util/future_handle.rs:66-76 | the next poll of a cancelled waiting task ends its wait |
| FutureHandle.DelayedMessageHandedOnce | src/context.rs:99-125 | a delayed message is handed to an open queue at most once: once if the timer won or delayed messages are wanted at shutdown, never if cancelled without that; and cancelled it is only after a cancel |
| FutureHandle.ElapsedTimerWins | src/context.rs:114-118 | in every run the timer has won exactly if some poll found it elapsed, whatever cancels come in |
| FutureHandle.HandedIfElapsedOrWanted | src/context.rs:114-121 | with the queue open in the end, the message has been handed over exactly if some poll found the timer elapsed or delayed messages are wanted at shutdown |
| FutureHandle.ClosedTakesNothing | src/context.rs:120 | a closed queue takes no message |
| FutureHandle.NobodyIsStuck | src/util/future_handle.rs:66-113 | the task can go on until it has finished, and every cancel until it has returned |
| Intervals.OneFutureAtATime | src/context.rs:129-134 | two interval futures never run at the same time |
| Intervals.KeysAreDistinctUntilTheCounterWraps | src/interval.rs:52-60 | the keys of all registrations, of however many contexts, are distinct if and only if there have been at most as many as the counter has values |
| Intervals.RunsWhatWasRegistered | src/context.rs:129-141 | in every run, what a Run executes is the future last inserted under its key, and no Remove of that key was processed since |
| Intervals.RunDecides | src/context.rs:129-134 | a Run that gets the lock executes exactly if its key has been inserted and not removed since, and then what was inserted |
| Intervals.RemovedStaysRemoved | src/context.rs:135-137 | while the counter has not wrapped, once Remove(k) was processed no Run(k), stale or new, ever starts a future again, and none is being run |
| Intervals.RunsAgainOnlyIfReissued | src/interval.rs:52-64 | in every run, wrapped or not: after a processed Remove(k), a Run(k) that gets the lock executes if and only if k has been inserted again and not removed since |
| Intervals.ARemovedKeyRunsAgain | src/interval.rs:52-60 | a concrete run, with a counter of two values, in which a removed key runs again |
| Intervals.EveryRun | src/interval.rs:46-64 | the lock has one holder, the executing context, the n-th registration gets the n-th counter value, and the map holds what its history says, in every run |
| Intervals.EachMessageDealtWithOnce | src/context.rs:127-171 | in every run each message is taken in its turn and settled once as what it is: a registration by inserting its own future or by the panic, a Run by executing or missing its own key, a Remove by removing its own key |
| Intervals.LostExactlyAtTheLimit | src/interval.rs:55 | a registration is lost to the panic exactly if the last value of the counter was issued, and inserted keys are below it |
| Intervals.NobodyIsStuck | src/context.rs:129-141 | a busy context can go on unless it panicked or waits for a lock whose holder can go on and give it back |
| Mailbox.TrySendLater | src/stream.rs:68-76 | a send uses a channel nobody had, which carries its item and no other, and puts one message behind those queued; a closed queue drops the sender; nothing else changes |
| Mailbox.DoAllLater | src/context.rs:82-97 | whatever other senders and contexts do, a settled channel stays as it is and keeps its item, and an unsettled message is still queued or being served |
| Streams.PollPreserves | src/stream.rs:62-104 | every poll keeps the requests equal to the items polled, each with a channel of its own, at most one unanswered |
| Streams.PollMeans | src/stream.rs:62-104 | in every reachable state a poll reports the end if and only if no reply is awaited and the source ends, is Pending if and only if the source is not ready or the awaited channel is still empty, and gives the refusal at once on a closed queue; the source is polled exactly if no reply is awaited |
| Streams.RunReports | src/stream.rs:62-104 | the results in the history are exactly those the polls returned, in order |
| Streams.OneOwnResultPerItem | src/stream.rs:62-104 | in every schedule of polls, replies and other senders the polls return exactly one result per item, in source order, each being that item's own mapped reply, its lost channel or its refusal, with at most one request outstanding, and that one queued or being served until it is settled |
| Streams.EndMeansAllAnswered | src/stream.rs:89-90 | the end is reported only when every item has had its result returned |
| SkipStreams.SkipIsPlainPoll | src/stream.rs:148-195 | one poll of the skipping stream returns what one poll of the plain stream returns over the source without its Nones, and both stay in step |
| SkipStreams.SkipIsPlainRun | src/stream.rs:148-195 | the same over whole runs: same requests, same world, and the same outcome of every poll |
| SkipStreams.SkipMeans | src/stream.rs:148-195 | in every run a poll of the skipping stream reports the end if and only if no reply is awaited and the first thing behind the Nones is the end, and is Pending if and only if that is a source not ready or the awaited channel is still empty |
| SkipStreams.OneOwnResultPerRealItem | src/stream.rs:148-195 | so there is exactly one own result for each item that is there, in order |
| ActorStreams.ActorStream.PollNext | src/stream.rs:62-104 | the method does on its fields what `Streams.PollNext` does, of which `Streams.PollMeans` says when it is the end, Pending or a result |
| ActorStreams.ActorSkipStream.PollNext | src/stream.rs:148-195 | its skip loop ends on every source with a non-None ahead, and the method does what `SkipNext` does, of which `SkipStreams.SkipMeans` says when it is the end, Pending or a result |
| WsDecode.LeadsExtends | actix_send_websocket/src/lib.rs:381-411 | what was decoded from a buffer is decoded the same with more bytes behind |
| WsDecode.LeadsSplitsDecodeAll | actix_send_websocket/src/lib.rs:381-411 | decoding item by item is a front part of decoding the whole string |
| WsDecode.PollDecodes | actix_send_websocket/src/lib.rs:378-440 | until the codec finds a violation, after every poll, errors of payload and texts included, the items lead from all bytes received to the buffer and the codec at hand, and no byte is lost |
| WsDecode.ChunkingDoesNotMatter | actix_send_websocket/src/lib.rs:378-440 | for every run, every split into chunks, every pattern of Pendings and every payload error, what the polls return before the first codec violation, messages and unreadable texts, is a prefix of decoding the whole concatenation |
| WsDecode.EndMeansAllDecoded | actix_send_websocket/src/lib.rs:378-440 | and equal to it when the source ends without a codec violation and without a heartbeat close, whatever other errors came before |
| WsDecode.RunReports | actix_send_websocket/src/lib.rs:378-440 | the items in the history are exactly the messages and unreadable texts that the polls returned, in order, and a violation is on record exactly if one was reported |
| WsDecode.PollMeans | actix_send_websocket/src/lib.rs:378-440 | a poll reads chunks until they complete a frame or break the protocol or there are no more for now, and reports exactly that: the message of the same kind and content as the frame, the unreadable text, the violation, the error or the end of the payload, or the tick or close of a due timer |
| WsDecode.HeartbeatKeepsTime | actix_send_websocket/src/lib.rs:420-433 | however late the polls are, ticks are exactly one interval apart, the first one interval after the start; the peer counts as heard exactly when its last Ping or Pong was decoded; a close comes at a tick at least `timeout` and less than `timeout + interval` after that; and the queue has one ping a tick if configured |
| WsDecode.ClosingPollIsTimely | actix_send_websocket/src/lib.rs:428-431 | at the poll that closes, the closing tick is the next one after the ticks passed, the last Ping, Pong or start is as long ago as promised, and the close frame is queued behind the pings |
| WsDecodeStream.HeartBeat.constructor | actix_send_websocket/src/lib.rs:514-521 | the peer's first deadline is `timeout` from now |
| WsDecodeStream.HeartBeat.Set | actix_send_websocket/src/lib.rs:527-535 | alive exactly when the timer's own deadline is before the peer's; only then is the timer set, from its own deadline and not from the time of the poll |
| WsDecodeStream.DecodeStream.constructor | actix_send_websocket/src/lib.rs:231-252 | an opened stream whose timer is due one interval after the start, if there is one |
| WsDecodeStream.DecodeStream.PollNext | actix_send_websocket/src/lib.rs:378-440 | the loop terminates and does on its fields what `WsDecode.Poll` does, of which `WsDecode.PollMeans` says what it reports |
| WsDecodeStream.DecodeStream.OnFrame | actix_send_websocket/src/lib.rs:383-407 | a decoded frame becomes its message; Ping and Pong move the deadline; bad text is an error, with its bytes used up |
| WsDecodeStream.DecodeStream.OnIdle | actix_send_websocket/src/lib.rs:419-436 | without a due timer nothing changes; with one, either a tick and a ping if configured, or a close frame and the end |
| WsEncode.EmitFlows | actix_send_websocket/src/lib.rs:458-465 | a message taken out of its queue ends up encoded behind all earlier ones, or leaves no trace if refused |
| WsEncode.PollFlows | actix_send_websocket/src/lib.rs:452-502 | a poll loses no message and no byte, refusals included; a Pending poll leaves its own waker stored while the queue has other holders; the end is reported only with local queue, channel and buffer empty |
| WsEncode.OthersFlow | actix_send_websocket/src/lib.rs:614-668 | pushes, sends, clones and drops keep the same |
| WsEncode.RunReports | actix_send_websocket/src/lib.rs:452-502 | the bytes on record as yielded are exactly those the polls returned, in order |
| WsEncode.PollMeans | actix_send_websocket/src/lib.rs:452-502 | in every reachable state a poll takes out the local queue and then the channel, up to the first message the encoder refuses, and fails exactly if there is one; otherwise it returns all new bytes, waking itself if the channel has ended, or with no new bytes reports the end exactly if it has |
| WsEncode.CloseClosesReceiver | actix_send_websocket/src/lib.rs:459-462 | in every run the receiver is closed once a Close was taken out of either queue, and only then or with no other handle left |
| WsEncode.ClosedForGood | actix_send_websocket/src/lib.rs:477-481 | a closed receiver stays closed and accepts no later send |
| WsEncode.AcceptedIsWhatWasSent | actix_send_websocket/src/lib.rs:629-667 | in every run the accepted messages are a front part of those sent, and all of them while the receiver is open to senders; likewise pushes while there is a handle |
| WsEncode.LossesTakeEffect | actix_send_websocket/src/lib.rs:271-277 | senders and the decoding half are gone exactly once they were lost or dropped |
| WsEncode.BytesAreTheMessages | actix_send_websocket/src/lib.rs:452-502 | in every interleaving, the bytes the polls returned and then those buffered are the encodings of the messages consumed, refused ones left out, and the consumed ones are the pushed and accepted ones, each queue in its order, up to what still waits |
| WsEncode.EndMeansAllYielded | actix_send_websocket/src/lib.rs:491-499 | when the end is reported, every message ever pushed or accepted has been consumed, and the bytes returned are exactly the encodings of all that were not refused |
| WsEncode.NoPushUnwoken | actix_send_websocket/src/lib.rs:602-611 | a registered waker implies an empty local queue; with a message waiting, whoever registered last has been woken |
| WsEncode.EndIsNoticed | actix_send_websocket/src/lib.rs:271-277 | when the last other handle on the local queue goes, whoever registered last has been woken if and only if that handle was the decoding half, or no waker is stored, or its poll woke itself |
| WsEncode.EndIsPassedOn | actix_send_websocket/src/lib.rs:467-472 | polled after that with an empty local queue, the stream closes the receiver and is never Pending |
| WsEncode.AnEndGoesUnnoticed | actix_send_websocket/src/lib.rs:624-627 | a concrete run in which a clone is the last handle, the receiver stays open and the stored waker is not woken |
| WsEncodeStream.QueueInner.PopFront | actix_send_websocket/src/lib.rs:592-594 | the oldest message is taken out, none from an empty queue |
| WsEncodeStream.QueueInner.Wake | actix_send_websocket/src/lib.rs:607-611 | the waker is taken and woken, once |
| WsEncodeStream.EncodeStream.constructor | actix_send_websocket/src/lib.rs:255-260 | an opened stream over an empty queue shared with the decoding half |
| WsEncodeStream.EncodeStream.Push | actix_send_websocket/src/lib.rs:629-667 | one more message in the local queue, and the stored waker woken |
| WsEncodeStream.EncodeStream.Send | actix_send_websocket/src/lib.rs:776-778 | accepted exactly while the receiver is open |
| WsEncodeStream.EncodeStream.EmitOne | actix_send_websocket/src/lib.rs:459-464 | a Close closes the receiver before the encoder sees it; a refusal buffers nothing |
| WsEncodeStream.EncodeStream.TakeLocal | actix_send_websocket/src/lib.rs:458-465 | the local queue is drained through the encoder, up to the first refusal |
| WsEncodeStream.EncodeStream.RegisterOrClose | actix_send_websocket/src/lib.rs:467-472 | with no other holder of the queue the receiver is closed, else the waker is stored |
| WsEncodeStream.EncodeStream.TakeChannel | actix_send_websocket/src/lib.rs:475-483 | the channel is drained through the encoder, up to the first refusal |
| WsEncodeStream.EncodeStream.FlushOut | actix_send_websocket/src/lib.rs:484-499 | the whole buffer is handed out, with a wake of its own when the channel has ended; an empty buffer gives Pending or the end |
| WsEncodeStream.EncodeStream.PollNext | actix_send_websocket/src/lib.rs:452-502 | the method does on its fields what `WsEncode.Poll` does, of which `WsEncode.PollMeans` says what it takes out and reports |
| MacroGen.ActorInfo.EnumVariants | actix-send-macros/src/message.rs:78-167 | both enums get one variant per handler, named after its message type, in order |
| MacroGen.ActorInfo.FromTrait | actix-send-macros/src/message.rs:170-285 | one `From` impl per handler |
| MacroGen.ActorInfo.MapResultTrait | actix-send-macros/src/message.rs:288-566 | one `MapResult` impl per handler, Ok-wrapping if async, with an `unreachable!()` arm |
| MacroGen.ActorInfo.HandlerTrait | actix-send-macros/src/message.rs:570-832 | one `handle` with an arm per handler is added, and with distinct message types a message of the k-th handler takes the k-th arm |
| MacroGen.ExpandHandlerV2 | actix-send-macros/src/lib.rs:1206-1224 | the four passes together generate the program that `MacroMeaning` is about |
| MacroGen.ExpandArms | actix-send-macros/src/lib.rs:822-1006 | one arm per message, of the first handler that names it; none at all exactly if some message has no handler |
| MacroGen.ExpandActorMod | actix-send-macros/src/lib.rs:373-1006 | it succeeds exactly if every message type is among those the handlers name; then it generates the program for the messages, each paired with the first handler that names it |
| MacroMeaning.FromMeans | actix-send-macros/src/lib.rs:1241-1349 | `From` gives the variant of the message's own type with the message in it |
| MacroMeaning.HandleMeans | actix-send-macros/src/message.rs:570-832 | for distinct message types the `handle` match runs the message's own block, on the message and the actor, and returns the variant of the same type |
| MacroMeaning.MapResultMeans | actix-send-macros/src/message.rs:288-566 | `MapResult` takes the result out again, Ok-wrapped for async and passed through for blocking, and misses `unreachable!()` |
| MacroMeaning.HandlerV2KeepsMeaning | actix-send-macros/src/lib.rs:1206-1224 | sending any handled message through the generated code has exactly the effect and the result of its own method |
| MacroMeaning.ActorModKeepsMeaning | actix-send-macros/src/lib.rs:822-1006 | the same for `actor_mod`, for messages and handlers in any order |
| MacroMeaning.BothMacrosAgree | actix-send-macros/src/lib.rs:822-1006 | from the same handlers in any two orders both macros generate dispatch that agrees on every message, handled or not |
| MacroMeaning.UnhandledIsRejected | actix-send-macros/src/lib.rs:822-1006 | a message type without a handler cannot be sent |
| MacroMeaning.HandlerV2IsCoherent | actix-send-macros/src/lib.rs:1206-1224 | the generated items define no enum, variant or impl twice if and only if the message types are distinct |
| MacroMeaning.ActorModIsCoherent | actix-send-macros/src/lib.rs:373-1006 | the same for `actor_mod` |

## Left out

- The runtime, timers, tokio and async-channel themselves: queues are sequences, one-shot channels are cells, timers are deadlines. Nothing is said about liveness, so not that every `send` is answered.
- The drop and upgrade of `Address` as what triggers shutdown: the counter starts at 1 (`src/address.rs:98`) and `drop` compares its value before the subtraction with 0 (`src/address.rs:55`), so the last drop does not start it. Shutdown is a step that may happen at any time.
- Panics in user code, memory orderings weaker than sequential consistency, fairness, and the overflow of the counter of contexts.
- The step systems of the lifecycle, the handles, one cancellable task and the interval futures are proved one by one; they are not combined into one system. In the lifecycle the handling of one message is one step.
- Cancelling a listed handle by hand in `Handlers`: only shutdown cancels there; `FutureHandle` has cancels by anybody.
- Frame encoding and decoding (the `Codec` of actix-http), masking, close codes other than the normal one, and the handshake. A violation of the protocol leaves the decoder's buffer arbitrary, and nothing is claimed about what is decoded after the first one.
- That no frame follows a Close (section 5.5.1 of RFC 6455): the encoding stream goes on draining what was queued before.
- Wakers of the decoding stream: after a late tick it polls its timer again and ignores the answer; only the deadlines are modelled, not whether somebody polls in time.
- Tokens, spans, attribute parsing, generics and `no_send` in the macros; the search of `HandleMethodInfo::new` for the message argument; `on_start` and `on_stop`; identifiers are strings and handler bodies functions.
- Subscriptions, dynamic messages, error formatting, builder settings, the broadcast fan-out (its receiver is a second queue of a context), the other examples, the clients and the benchmark, `println!` and the parsing of chat commands.
- Streams.OneOwnResultPerItem: who answers, and when, is up to the world; it does not claim that an answer comes.
- SkipStreams.SkipIsPlainRun: only for sources in which every run of ready Nones is finite, as on any other the skip loop does not return.
