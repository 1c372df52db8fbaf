# Verified model of the wire server and client

The repository implements a JSON-RPC protocol between an agent server and a client: a server that runs
one prompt or replay at a time, a client that matches responses to calls, the pipe between them, and
the coding of the events that travel on it. This project models the parts whose correctness depends on
the order of steps in several goroutines, and the sequential algorithms that are easy to get wrong, and
proves what they promise for every run and every input.

**Runs.** Each concurrent part is a state machine: a `State`, a `Step` for every lock-protected section,
channel operation and write, `Enabled` and `Apply`, and `Exec`, the state after an arbitrary schedule (a
step whose guard does not hold is passed over). The agent is an adversary: it may return, fail or panic
whenever its call is running, and emit events at any time in between; in `Goroutines` it also blocks in
`SteerInput` and in requests to the client, and then does nothing else. Timeouts, cancelled contexts and
select choices are steps like any other. An inductive invariant (`Inv`) holds in every reachable state;
the results are read off it. The modules named after a history tell from the schedule alone what a state must
be: which step made a call fail, which one decided an answer, which sections were run. Beside each machine stands a class with the fields of the Go object, whose
methods change them in place; what only records the past is ghost. Each method is proved to do exactly what the step of the same name says, and
a loop that drives an arbitrary schedule ends with the results on the object's own fields. The table below
lists the loops and the methods that promise something besides their step.

| module | models |
|---|---|
| `Turns`, `TurnsSteps`, `TurnsInvariant`, `TurnsResults`, `TurnsFrames`, `TurnsHistory`, `TurnsAnswers`, `TurnsContexts`, `TurnsStages` | prompts, replays, cancel, steer and shutdown in `server/server.go`, `server/turn.go` |
| `Requests`, `RequestHistory` | requests from the server to the client: `server/request.go`, `routeResponse`, `closePending` |
| `Goroutines` | the read loop, `Serve`, the dispatch loop and the agents' calls moving both machines together |
| `Waiting`, `Deadlock` | who waits for whom among them, progress, and how the server can block for good |
| `Server` | the server object, driven by the actions of its goroutines |
| `Hooks`, `Handshake`, `HandshakeHistory`, `HandshakeServer` | `handleInitialize`, `AskQuestion`, `TriggerHook` |
| `Correlator`, `CorrelatorInvariant`, `CorrelatorResults`, `CorrelatorHistory`, `Client` | the client's response correlator in `client.go` |
| `Transport` | the channel transport pair |
| `Pipeline`, `PipelineHistory`, `Dispatch`, `Delivery` | from the server's writes to the client's handler |
| `Conversation`, `ConversationHistory` | client, server and both directions of the transport together |
| `Ids`, `Versions`, `Splitting`, `Stderr` | request ids, version negotiation, the stderr logger |
| `Json`, `Content`, `ToolValue`, `Events`, `EventResults`, `EventShapes`, `EventReads` | the event codec |
| `Wrappers` | `Option` and `Result` |

**Where code and documentation differ.** `README.md:131` promises one turn at a time and automatic
framing. The code keeps this up to `clearActiveTurn` (`server/server.go:132`); afterwards the select in
`serveLoop` may still take a queued prompt while the old agent call is running, as in
`TurnsResults.OverlapAfterShutdown`. `TurnsResults.ExclusionExactly` and `TurnsResults.ExclusionExact` say
exactly when two operations hold the slot and which steps bring that about; `TurnsFrames.FramingExactly`,
`TurnsFrames.NestsOnlyInEvicted` and `TurnsFrames.BracketsExactly` say exactly when the whole output stays
framed. The pairs of TurnBegin and TurnEnd also depend on every write succeeding: if the transport is full when
TurnBegin is due and not when TurnEnd is, the client gets the TurnEnd alone, as in `Delivery.OrphanTurnEnd`;
`Delivery.ClientSeesFraming` says exactly which failures keep the frames. While an agent waits for a response
of the client, a second unread steer and a full `dispatchCh` block the read loop that would have to read that
response (`server/server.go:175-179`, `server/server.go:521-526`): the server then waits for itself, whatever
the client does, until the context of `Serve` or of the request is cancelled. `Deadlock.DeadlockReached` is
such a run; `Waiting.WaitingIsAcyclic`, `Waiting.DeadlockExactly` and `Deadlock.DeadlockEndsExactly` say exactly
when it is so and what ends it. The `encrypted` member of a flat think part is written (`protocol/protocol_content.go:77-82`) but
never read back (`protocol/protocol_content.go:117-118`); the codec theorems are stated with a normal form,
`EventResults.EncryptedIsLost` is the input, and `EventResults.RoundTripExactly` says for which events nothing is
lost. The configuration of the handshake
is stored before its answer is written, so a question may reach the client before the answer that announces
it, as in `Handshake.QuestionBeforeAnswer`; `Handshake.EarlyExactly` says exactly which questions and hook
requests do.

Responses follow JSON-RPC 2.0, section 5 (one response, carrying the request's id) and section 5.1 (error
codes). They are counted per message instance, because the server also answers messages without an id.

## Model

| member | source | states |
|---|---|---|
| `TurnsInvariant.Invariant` | server/server.go:143-196 | in every schedule: the slot, the dispatcher, every operation and every message agree with each other and with what was written |
| `TurnsInvariant.StepKeeps` | server/server.go:410-604 | each atomic section of prompt, cancel, steer, replay, endTurn and shutdown keeps that agreement |
| `TurnsResults.AnswerConservation` | server/server.go:183-215 | each message accepted into dispatchCh is in exactly one place: queue, dispatcher, the operation it started, or answered by one write; none is answered twice |
| `TurnsResults.PlaceIsUnique` | server/server.go:428-477 | the same for one state, panics and a failed TurnBegin write included |
| `TurnsResults.AtMostOneReply` | server/server.go:632-642 | no causal output answers a message twice |
| `TurnsResults.RepliesCarryOwnIds` | server/server.go:476 | a reply carries the id of the message it answers |
| `TurnsResults.Framing` | server/server.go:410-477 | up to clearActiveTurn the attempted TurnBegin and TurnEnd writes strictly alternate, starting with TurnBegin; later those of all operations but the evicted one still do |
| `TurnsFrames.FramingExactly` | server/server.go:410-477 | in every run, the whole output alternates exactly if no TurnBegin was ever due while another turn was between its TurnBegin and its TurnEnd |
| `TurnsFrames.NestsOnlyInEvicted` | server/server.go:479-485 | that is so exactly while the operation evicted by clearActiveTurn is inside its frame |
| `TurnsFrames.BracketsExactly` | server/server.go:410-477 | with the events of prompts and replays counted in: the brackets break exactly in the runs in which some TurnBegin or such an event fell into another operation's frame; what a plan mode switcher emits belongs to no operation and is free to fall anywhere |
| `TurnsResults.HandlerEventsFirst` | server/server.go:605-628 | what a plan mode switcher emits while its handler runs is never written after the answer to set_plan_mode |
| `TurnsFrames.BreaksExactly` | server/server.go:428-477 | one step: a TurnEnd, a reply and a turn's own events never break them, and broken is for good |
| `TurnsResults.FramesAlternate` | server/server.go:428-448 | an output whose bracket structure is not broken alternates, and is open exactly after a TurnBegin |
| `TurnsResults.MutualExclusion` | server/server.go:417-426 | up to clearActiveTurn at most one operation holds the slot and no agent call runs without it; activeTurn set means that activeOp is that turn |
| `TurnsResults.ExclusionExactly` | server/server.go:479-485 | in every run exclusion is lost exactly while the evicted operation still holds and another one has taken the slot |
| `TurnsResults.ExclusionExact` | server/server.go:417-426 | the steps that lose it are the handlers of a well-formed prompt or a supported replay that run while the evicted operation holds |
| `TurnsResults.OnlyOwnerGivesBack` | server/server.go:450-455 | besides clearActiveTurn only the operation in the slot empties it: a late endTurn or replay cleanup never clears a newer one |
| `TurnsResults.HandlerExactly` | server/server.go:410-542 | in every run: a prompt or replay is refused as busy exactly while another operation is in progress, a cancel captures that operation, a steer that turn; the other refusals, with their codes, come in the order of the tests |
| `TurnsResults.OverlapAfterShutdown` | server/server.go:126-133 | a run in which two agent calls run at once, and TurnBegin and TurnEnd do not alternate, after clearActiveTurn |
| `TurnsResults.TurnOrder` | server/server.go:433-477 | every finished turn has one TurnBegin, then one TurnEnd, then one reply, with its own id; if cancel had set the flag when the agent call ended, the reply is "cancelled" whatever the agent did |
| `TurnsResults.ReplayOrder` | server/server.go:578-603 | a replay is answered once, with its own id, only after its agent call ended, and is never framed |
| `TurnsAnswers.ReplayAnswered` | server/server.go:586-602 | that answer is the result v exactly if the agent call returned v, "cancelled" exactly if it failed with context.Canceled, and error -32603 exactly if it failed otherwise or panicked |
| `TurnsAnswers.PromptAnswered` | server/server.go:457-476 | the reply of a finished turn in terms of the steps taken: "cancelled" if a cancel came in time or the call failed with context.Canceled; otherwise the result v exactly if the call returned v, error n exactly if it failed with code n, and -32603 exactly after a panic or an error without a code of its own |
| `TurnsAnswers.OutcomeExactly` | server/server.go:428-448 | the outcome of an operation is that of its agent call or, for a turn that could not begin, of the write of TurnBegin |
| `TurnsAnswers.HandlerAnswersExactly` | server/server.go:410-557 | a handler gives an answer exactly if one of its sections decided so: a refusal with its code, the end of the awaited operation, -32603 for a cancel cut off by the shutdown, -32001 for a steer to a turn that is gone, what Steer returned |
| `TurnsStages.StageExactly` | server/server.go:433-603 | an operation runs its sections in order, and is past each of them exactly if that section was run |
| `TurnsStages.GivenBack` | server/server.go:450-455 | an operation whose end gave the slot back does not hold it again |
| `TurnsContexts.ContextExactly` | server/server.go:479-556 | the context of an operation is cancelled exactly if a cancel that captured it, the end of its turn or clearActiveTurn did so |
| `TurnsContexts.SteerConservation` | server/turn.go:53-63 | every input sent to a turn is taken by its agent once, or lies in steerCh |
| `TurnsContexts.QueueExactly` | server/server.go:175-191 | messages are accepted in the order in which they were sent, and the dispatcher takes the oldest one left |
| `TurnsContexts.ShutdownExactly` | server/server.go:112-135 | serveCtx, the reader, the slot and the dispatch loop are done exactly if the step that does it was taken |
| `TurnsContexts.EvictedExactly` | server/server.go:479-485 | the evicted operation is the one in progress when clearActiveTurn ran |
| `TurnsHistory.CancelledExactly` | server/server.go:457-476 | the reply of a finished turn is "cancelled" exactly when an accepted cancel set the turn's flag before the turn read it, or the call failed with context.Canceled; an error exactly when neither holds and the call failed or panicked; otherwise the agent's result |
| `TurnsHistory.FlagHistory` | server/server.go:543-547 | a turn's flag is set exactly if an accepted cancel message that captured the turn set it |
| `TurnsHistory.CancelOrder` | server/server.go:548-555 | a successful cancel of a turn is answered after that turn's TurnEnd, one of a replay after the replay's answer |
| `TurnsResults.CancelFollowsItsTarget` | server/server.go:534-556 | in a causal output a successful cancel comes after the TurnEnd or the replay answer of the operation it names |
| `TurnsResults.DoneClosedOnce` | server/turn.go:65-75 | the done channel of a turn or replay is open when it is closed |
| `Server.Server.SendToDispatch` | server/server.go:175-179 | the reader appends one message to dispatchCh |
| `Server.Server.TakeFromDispatch` | server/server.go:183-191 | the dispatcher takes the oldest message of dispatchCh |
| `Server.Server.NextRequestID` | server/request.go:14-16 | the id is srv- and the next count |
| `Server.Server.Serve` | server/server.go:112-135 | for any run of the goroutines the fields are those of that run; on these fields: no message answered twice, own ids, frames and exclusion up to clearActiveTurn; every request that is over failed if its agent gave it up or its write failed, and otherwise returned the right message; one token for every request that waits |
| `Goroutines.RunsOfBoth` | server/server.go:112-135 | what the whole server does is a run of the turn machine and a run of the request table, of the steps that are part of its actions |
| `Goroutines.Invariant` | server/server.go:112-181 | in every run of the whole: both machines keep their invariants and agree on shutdown, the read loop holds a message only while it routes no response, and an agent waits only while its turn runs, each on a request of its own |
| `Goroutines.AgentExactly` | server/turn.go:53-63 | an agent waits in SteerInput, or in a request, exactly from when it entered until it left |
| `Goroutines.ReceivedExactly` | server/server.go:175-179 | every message read is accepted, in order, but for one that the read loop holds or has dropped |
| `Goroutines.GaveUpExactly` | server/request.go:46-60 | a request is given up exactly by its own agent: its write failed or a context ended |
| `Requests.StepKeeps` | server/request.go:18-61 | each section of sendRequestAndWait, routeResponse and closePending keeps the token invariant |
| `Requests.OneToken` | server/request.go:18-34 | a call never has two tokens among pending, the reader's hand, the closing list and its channel; until shutdown a waiting call has exactly one |
| `Requests.SendsNeverBlock` | server/server.go:224-247 | routeResponse and closePending always find the channel empty |
| `Requests.NoAnswerLost` | server/server.go:217-229 | until shutdown a response that was read for a waiting call is in the reader's hand or in the call's channel |
| `Requests.FirstResponseWins` | server/request.go:50-60 | a call returns the first response with its id read after it registered, or the closing error if none was read; no response is returned twice |
| `RequestHistory.FailedExactly` | server/request.go:46-60 | a request fails exactly if its write failed, or a context ended while it waited |
| `RequestHistory.ReturnedExactly` | server/request.go:50-60 | every other request that is over returned the first response read since it registered, or the closing error if there was none |
| `RequestHistory.StageExactly` | server/request.go:18-61 | a request runs its sections in order, and is past each of them exactly if it ran it |
| `RequestHistory.LinesExactly` | server/server.go:171-174 | the reader keeps every response, in order |
| `RequestHistory.HandExactly` | server/server.go:217-229 | the reader has a response in hand only until it delivers or drops it, and that is the last one it read |
| `RequestHistory.SinceExactly` | server/request.go:22-24 | since is the number of responses that had been read when the request registered |
| `RequestHistory.LostExactly` | server/server.go:224-229 | a response is lost exactly if the reader dropped it for the cancelled context |
| `RequestHistory.NotifiedIsDone` | server/server.go:240-247 | a notified call is no longer to be notified |
| `RequestHistory.WokenExactly` | server/server.go:231-247 | once closePending is done with it, a waiting request has a message exactly if it registered before and its response was not dropped |
| `Waiting.WaitsDescend` | server/server.go:175-229 | every wait among the read loop, the dispatch loop and the operations goes down in rank, except that of a read loop in a deadlock for the dispatch loop |
| `Waiting.WaitingIsAcyclic` | server/server.go:175-229 | in every run some goroutine waits for itself, over any number of others, exactly in a deadlock: the read loop holds a message and dispatchCh is full, the dispatch loop waits for done or for room in steerCh of a turn, and the agent of that turn waits for a response |
| `Waiting.DeadlockExactly` | server/server.go:521-554 | that is so exactly if the read loop and the dispatch loop are blocked and so is every operation the dispatch loop waits for |
| `Waiting.AwaitedOperationCanGo` | server/server.go:521-554 | an operation whose done or steerCh the dispatch loop waits for can take its next step exactly if its agent is not waiting for a response, and its agent never waits for the dispatch loop |
| `Waiting.GoesOrWaits` | server/request.go:50-60 | a goroutine that has not ended can take its next step exactly if it is not blocked; that of an agent is in SteerInput or its request, if it is there |
| `Waiting.ProgressExactly` | server/server.go:183-196 | as long as an accepted message is not answered, the goroutine that has to answer it, or one it waits for over any number of others, can take its next step; the exceptions are exactly a message still in dispatchCh after the dispatch loop has exited, and a goroutine that is blocked in a deadlock |
| `Deadlock.DeadlockReached` | server/server.go:175-179 | a run that ends in a deadlock: the agent has one request open, one steer is in steerCh, a second one waits for room, and dispatchCh is full; whether or not the request follows the turn's context |
| `Deadlock.DeadlockEndsExactly` | server/server.go:521-526 | of all actions in a deadlock, exactly the end of the context of Serve and that of the request's own context end it |
| `Deadlock.DeadlockLasts` | server/server.go:521-554 | however a run goes on without these, the dispatch loop stays where it is and takes no message |
| `Deadlock.UnansweredForGood` | server/server.go:183-196 | and neither the message in its hand nor any in dispatchCh is ever answered |
| `Ids.DecimalInjective` | client.go:47-49 | two counts with the same decimal form are equal |
| `Ids.IdsDistinct` | server/request.go:14-16 | ids are issued once, on either side |
| `Ids.IdText` | server/request.go:14-16 | the n-th id is srv- or req- and the number n in decimal digits |
| `Hooks.IsHookSupported` | server/server.go:401-408 | true exactly for the listed events |
| `Hooks.Configure` | server/server.go:288-310 | the loop computes the stored subscriptions and the reported counters |
| `Hooks.ConfiguredExactly` | server/server.go:309 | an event is reported exactly when a subscription for it was kept, with their number modulo 2^32 |
| `Hooks.CountedExactly` | server/server.go:303-309 | for every event at least as many subscriptions are counted as stored, and as many exactly when none was replaced by a later one with its id |
| `Hooks.DistinctIds` | server/server.go:303-309 | with distinct ids the two numbers agree |
| `Hooks.Origin` | server/server.go:303-308 | a stored subscription is the last one kept with its id |
| `Hooks.Survives` | server/server.go:303-308 | the last one kept with an id is stored |
| `Hooks.StoredExactly` | server/server.go:288-308 | a hook is stored exactly for the ids of subscriptions whose event is supported and whose matcher compiles, with event, matcher and timeout of the last one with its id |
| `Hooks.ReportedExactly` | server/server.go:309 | the counter of an event is the number of these subscriptions for it modulo 2^32 |
| `Hooks.FitsExactly` | server/request.go:154-163 | a hook fits exactly if it is for the event and has no matcher or its matcher matches the target |
| `Hooks.ChooseHook` | server/request.go:151-164 | the loop makes the choice of the map's order; it finds one exactly when a stored subscription fits |
| `Hooks.ChooseExactly` | server/request.go:154-163 | for every order of the map |
| `Handshake.FixedForGood` | server/server.go:250-257 | once the handshake is done, version, capabilities and hooks never change |
| `Handshake.OneInitialize` | server/server.go:312-339 | at most one initialize succeeds; version, capabilities and hooks in force and the whole answer come from the same parameters |
| `HandshakeHistory.ConfiguredFrom` | server/server.go:250-339 | what is in force is what the initialize that was stored asked for, and every successful answer is to that initialize and tells just this: version and question in force, exactly the valid tools accepted and the others rejected, with their reasons and in order, and the hooks |
| `HandshakeHistory.AnsweredExactly` | server/server.go:250-339 | each initialize is answered once, in order and with its own id, but for the one in hand |
| `HandshakeHistory.StoreExactly` | server/server.go:259-263 | it is refused for its parameters exactly if they do not parse, and stored otherwise |
| `Handshake.RefusedExactly` | server/server.go:251-256 | an initialize is refused as already called exactly when one was answered with success before |
| `Handshake.OnlyWhatWasAskedFor` | server/request.go:125-185 | a question is written only after an initialize with supports_question, a hook request only for a stored subscription that fits its event and target |
| `Handshake.HookExactly` | server/request.go:151-173 | in every run a call chose exactly if a subscription stored when it looked fitted, and a request is written only if it chose, with that subscription's id |
| `HandshakeHistory.HookRequestExactly` | server/request.go:151-173 | a hook request goes to the last usable subscription with its id, which is for the event and whose matcher, if it has one, matches the target |
| `HandshakeHistory.AskedExactly` | server/request.go:125-134 | a question is refused exactly if the client did not support questions when it was asked |
| `HandshakeHistory.SentExactly` | server/request.go:135-173 | a call writes its one request exactly when it takes the step that sends it |
| `Handshake.EarlyExactly` | server/server.go:312-336 | a question or hook request is written before the answer to the initialize exactly when the dispatcher stands between storing the configuration and writing that answer |
| `Handshake.QuestionBeforeAnswer` | server/server.go:312-336 | a run in which a question is written before the answer to the initialize that allowed it |
| `HandshakeServer.Configuration.ReadCapabilities` | server/server.go:278-286 | the client's capabilities, and supports_question for the server only if the client has it |
| `HandshakeServer.Configuration.SortTools` | server/server.go:267-276 | every tool is in exactly one of the two lists, in order, the rejected ones with the redacted reason |
| `HandshakeServer.Configuration.ReplyHandshake` | server/server.go:320-339 | the answer that is written, optional parts included |
| `HandshakeServer.Configuration.AskQuestion` | server/request.go:125-134 | the call goes on only if supports_question is true |
| `HandshakeServer.Configuration.TriggerHook` | server/request.go:151-168 | the choice made under the lock, found exactly when a stored subscription fits |
| `HandshakeServer.Configuration.Run` | server/server.go:250-339 | for any schedule the fields are those of that run; nothing goes out that was not asked for, and one initialize succeeds at most |
| `CorrelatorInvariant.StepKeeps` | client.go:51-162 | each section of readerLoop, readResponse and closePending keeps the invariant |
| `CorrelatorResults.LineConservation` | client.go:81-93 | each response line read is in exactly one place: the reader's hand, the buffer, one channel, returned, or discarded |
| `CorrelatorResults.FirstMatch` | client.go:124-162 | a call that got a response got the first line ever read with its id, before or after it registered; one that got the closing error had none; no line is returned to two calls |
| `CorrelatorResults.BufferedNeverPending` | client.go:127-148 | the buffer never holds a response to a registered call |
| `CorrelatorResults.ReaderNeverWedges` | client.go:81-89 | when the reader's send blocks, the waiter is alive, can go on, and frees the slot by its next step |
| `CorrelatorResults.GenuineNeverDisplaced` | client.go:97-114 | during and after closePending a captured call whose response was read has that response in its channel, not the synthetic error |
| `CorrelatorResults.WakeUp` | client.go:97-114 | once the reader has exited, a waiting call has a message exactly when closePending captured it or its response was read and not dropped |
| `CorrelatorHistory.FailedExactly` | client.go:155-161 | a call fails exactly if its context ended while it waited, or its write failed |
| `CorrelatorHistory.ReturnedExactly` | client.go:124-162 | every other call that is over returned the first line with its id, or the closing error if there was none |
| `CorrelatorHistory.DrainedExactly` | client.go:139-148 | a line drained from a channel was for a call that had given up, or was not the first for it |
| `CorrelatorHistory.StageExactly` | client.go:124-162 | a call runs its sections in order, and is past each of them exactly if it ran it; one whose response is early returns at once |
| `CorrelatorHistory.LinesExactly` | client.go:81-93 | the reader keeps every line, in order |
| `CorrelatorHistory.HoldsExactly` | client.go:81-89 | the reader holds a response only until it sends or drops it, and that is the last one it read |
| `CorrelatorHistory.LeftExactly` | client.go:51-93 | the reader has left exactly if a read failed or it saw stopCh |
| `CorrelatorHistory.ExitedExactly` | client.go:51-114 | it has exited exactly if it saw stopCh or was done with closePending |
| `CorrelatorHistory.DroppedExactly` | client.go:84-89 | a response is dropped exactly if it was in hand when the reader saw stopCh |
| `CorrelatorHistory.CapturedExactly` | client.go:97-104 | closePending captures exactly the calls that are registered when a read fails |
| `CorrelatorHistory.WokenExactly` | client.go:97-114 | once the reader has exited, a waiting call has a message exactly if it was registered when a read failed, or its response was read and not dropped |
| `Client.Client.NextID` | client.go:47-49 | the id is req- and the next count |
| `Client.Client.SearchBuffer` | client.go:128-135 | the first position in the buffer with this id, or its length |
| `Client.Client.Run` | client.go:51-162 | for any schedule the fields are those of that run; a call failed exactly if its context ended or its write failed, every other call that is over has the first line with its id or the closing error, and the buffer holds nothing for a registered call |
| `Transport.Conservation` | transport/transport_channel.go:20-59 | in every run accepted lines are the lines read followed by the contents, at most 64 of them, and a direction is closed exactly when its sender is |
| `Transport.EndExactly` | transport/transport_channel.go:27-39 | an open reader with a live context blocks exactly while nothing is there and the peer is open, and sees the end exactly when the peer has closed and everything was read |
| `Transport.WriteExactly` | transport/transport_channel.go:41-59 | a write with a live context is accepted exactly when the own side is open and fewer than 64 accepted lines are unread; the error says which failed, and nothing else changes |
| `Transport.ReadExactly` | transport/transport_channel.go:27-39 | a read returns the oldest unread line, or the end if there is none; an error after a cancelled context and the end after the own side was closed, both without taking anything; each exactly when its cause is there |
| `Transport.DrainBeforeEnd` | transport/transport_channel.go:27-39 | after the peer closed, reading yields every accepted line in order and only then the end |
| `Transport.ClosedForGood` | transport/transport_channel.go:41-69 | histories only grow and a closed direction accepts nothing more |
| `Transport.ChannelTransport.WriteLine` | transport/transport_channel.go:41-59 | closed, context, accepted or full, as the selects decide; never a send on a closed channel |
| `Transport.ChannelTransport.ReadLine` | transport/transport_channel.go:27-39 | the outcome of the ready arm the select takes |
| `Transport.ChannelTransport.Close` | transport/transport_channel.go:61-69 | closes its own two channels, each at most once |
| `Transport.NewChannelTransportPair` | transport/transport_channel.go:20-25 | two crossed channels, empty and open |
| `Transport.Run` | transport/transport_channel.go:20-69 | for any schedule of calls the two objects are in the state of that run |
| `Pipeline.EndToEnd` | client.go:51-79 | the events and requests written with success are, in order and without duplicates, those consumed, in dispatchCh, with the reader and in the transport; what was consumed is a prefix, and the handler was given those of it that parse |
| `Pipeline.LosslessExactly` | dispatch.go:18-21 | a Dispatch that ended because dispatchCh was closed consumed all of them exactly when the reader dropped none and left none behind; always if the reader saw the end of the stream |
| `Pipeline.RequestsAnswered` | dispatch.go:32-43 | each request handed to the handler is answered once, in order and with its own id; only the one in hand is not answered yet |
| `PipelineHistory.VerdictsExactly` | dispatch.go:32-43 | the n-th reply is a result exactly if the handler returned without error for the n-th request it was given, and an error exactly if not |
| `PipelineHistory.EndedExactly` | dispatch.go:13-46 | Dispatch has returned exactly if it saw the closed channel or its context, the handler failed on an event or a reply could not be sent |
| `PipelineHistory.LeftExactly` | client.go:54-89 | the reader has left exactly after a failed read, a line that is not JSON, or stopCh while it held a message |
| `PipelineHistory.ReaderExactly` | client.go:65-89 | it holds a message or a response only until it passes it on or leaves |
| `PipelineHistory.CountsExactly` | client.go:69-73 | one message goes into dispatchCh with each forward, and comes out with each receive |
| `PipelineHistory.AttemptsExactly` | server/request.go:70-78 | every write is attempted, once and in order |
| `PipelineHistory.ClosedExactly` | transport/transport_channel.go:61-69 | a side is closed, and stopCh, exactly if it was closed |
| `Pipeline.NoSendAfterClose` | client.go:53 | dispatchCh is open when the reader sends on it and when it is closed |
| `Pipeline.Invariant` | server/request.go:70-78 | the invariant of the pipeline in every run |
| `Dispatch.Receiver.CloseDispatchCh` | client.go:53 | dispatchCh is closed by the leaving reader, which had not closed it before |
| `Dispatch.Receiver.Run` | dispatch.go:13-46 | for any schedule the objects are in the state of that run; the handler was given what parses of a prefix of the server's messages, its requests were answered in order and as it returned, and the loop ended exactly for one of its reasons |
| `Delivery.ClientSeesFraming` | server/server.go:428-448 | with server, transport and client in one run, in which the outcome of the write of TurnBegin is that of the transport: the handler is given a prefix of the frames that were written, and as long as the attempts alternate, as they do up to clearActiveTurn, these alternate exactly if failed writes took whole frames away |
| `Delivery.OrphanTurnEnd` | server/server.go:428-435 | a run without shutdown in which the write of TurnBegin fails and that of its TurnEnd does not |
| `Delivery.WrittenExactly` | server/request.go:80-91 | of alternating frames, what is left after failed writes alternates exactly if every TurnEnd written follows its TurnBegin and every TurnBegin written is the last mark or is closed |
| `Conversation.ReplyReachesItsCall` | client.go:124-162 | with client, server and both directions in one run: a call that returned a response returned the one reply the server wrote to the very message that call wrote |
| `ConversationHistory.CallEndsExactly` | client.go:124-162 | every call that is over failed exactly if its context ended or its write failed; otherwise it returned the server's one reply to its message, or the closing error, and no reply had arrived |
| `ConversationHistory.RunsOfBoth` | server/server.go:143-180 | the conversation is a run of the client and a run of the server, of the steps that are part of its own |
| `ConversationHistory.ClientWritesExactly` | transport/transport_channel.go:41-59 | a call writes its message once, with its own id, and it is under way exactly if there was room |
| `ConversationHistory.ServerWritesExactly` | server/request.go:70-91 | what a step of the server writes goes down exactly if there was room, and a TurnBegin succeeds exactly then |
| `ConversationHistory.ReadsExactly` | transport/transport_channel.go:27-39 | each read takes one line out, and a direction is closed exactly if its sender closed it |
| `Conversation.OneMessageEach` | client.go:183-195 | each message the server accepted is what one call wrote, and no two calls wrote the same id |
| `Conversation.MessageConservation` | server/server.go:143-215 | in every run each message a call wrote, or the reply to it, is in exactly one place: in the transport, with the read loop, with the server, gone with a failed write, in the transport down, or read by the client |
| `Conversation.ArrivedIsHandedOn` | client.go:81-162 | a reply the client has read is the first response with its call's id; it is in the buffer before the call registers, and in the reader's hand, the call's channel or dropped by a reader that has left while the call waits, and the call returns nothing else |
| `Conversation.Invariant` | server/server.go:143-180 | the queues, what each side wrote and read, and the two machines agree in every run |
| `Versions.Atoi` | server/server.go:390-399 | the leading digits in 64-bit arithmetic |
| `Versions.AtoiExact` | server/server.go:390-399 | no overflow exactly when the number is below 2^63, in particular with at most 18 digits |
| `Versions.WrapStep` | server/server.go:396 | wrapping at each step is wrapping once at the end |
| `Versions.SplitVersion` | server/server.go:377-388 | the components of the dot-separated fields |
| `Splitting.FieldsJoin` | server/server.go:377-388 | the fields joined by the separator are the string, and none contains it |
| `Splitting.JoinFields` | transport/transport_process.go:146-147 | fields without a separator survive joining and splitting |
| `Versions.SemverCompare` | server/server.go:356-375 | -1, 1 or 0 exactly for less, greater or the same |
| `Versions.CompareParts` | server/server.go:359-374 | the verdict is that of the first component that differs, missing ones counting as 0 |
| `Versions.BelowTransitive` | server/server.go:354-375 | the order is transitive, also across versions that compare as equal |
| `Versions.BelowExcludes` | server/server.go:354-375 | the order is antisymmetric |
| `Versions.BelowTotal` | server/server.go:354-375 | the order is total |
| `Versions.SameUpToZeros` | server/server.go:354-375 | two versions compare as equal exactly when they agree up to trailing zero components |
| `Versions.NegotiateVersion` | server/server.go:341-352 | the branches of negotiateVersion |
| `Versions.NegotiatedExactly` | server/server.go:341-352 | never newer than 1.10; the request itself exactly when it is in the range or the legacy version; negotiating again changes nothing |
| `Versions.NegotiatedAs` | server/server.go:341-352 | a missing request or one below 1.1 gets "legacy/no-handshake", one above 1.10 gets "1.10", any other itself |
| `Versions.OldRequest` | server/server.go:345-347 | "1.0" gets "legacy/no-handshake" |
| `Versions.NegotiationMonotone` | server/server.go:341-352 | a higher request is never answered with a lower version |
| `Stderr.LogStderr` | transport/transport_process.go:108-143 | for any BEGIN and END tests and any redactor, the log is one piece for each chunk of the stream, in order: the redacted line, or the redacted text of the whole block cut into lines |
| `Stderr.TakeLine` | transport/transport_process.go:114-135 | one pass of the loop takes one line and completes at most one chunk |
| `Stderr.ReadString` | transport/transport_process.go:114-115 | one read takes one line off the stream |
| `Stderr.FlushRedacted` | transport/transport_process.go:145-150 | a block is redacted in one piece: what is logged, joined by line ends, is the redacted text of the joined block, and no entry has a line end |
| `Stderr.RedactedExactly` | transport/transport_process.go:126-150 | there is only one such log |
| `Stderr.ConstantRedactor` | transport/transport_process.go:126-150 | with a redactor that answers x to everything, nothing but x is logged, once per chunk |
| `Stderr.ChunkingExactly` | transport/transport_process.go:116-134 | the chunks are the only way to cut the stream into lines without BEGIN, blocks from a BEGIN line through the first END line at or after it, and one unterminated block at the end |
| `Stderr.LoggedLines` | transport/transport_process.go:132-140 | the redacted lines are the lines read, but for an empty fragment at the end outside a block |
| `Stderr.NothingLost` | transport/transport_process.go:108-150 | with nothing to redact the log is the stream |
| `Content.PartRoundTrip` | protocol/protocol_content.go:60-127 | reading a written part gives its normal form, flat or nested |
| `Content.FlatOrNested` | protocol/protocol_content.go:104-125 | a text or thought is read alike from a string and from an object, whatever else is there, and null as the empty string |
| `Content.PassedOverExactly` | protocol/protocol_content.go:104-125 | it is passed over, as if missing, exactly when it is no string, no null and no object that can be read |
| `Content.ReadableExactly` | protocol/protocol_content.go:30-48 | an input can be read exactly from a string or an array of readable parts |
| `Content.ContentRoundTrip` | protocol/protocol_content.go:16-48 | an input or output can be written exactly when it has not both text and parts, and is read back in normal form |
| `Content.NormalPartExactly` | protocol/protocol_content.go:60-127 | a part is its own normal form exactly when it has just the fields its kind has on the wire |
| `Content.NormalContentExactly` | protocol/protocol_content.go:225-258 | the same, lifted through the list of parts |
| `Content.PartReceiver.UnmarshalJSON` | protocol/protocol_content.go:92-127 | the receiver is replaced as a whole, or left alone on an error |
| `Content.ContentReceiver.UnmarshalJSON` | protocol/protocol_content.go:30-48 | the receiver is emptied first: no text and, outside arrays, no part of an earlier value is left, whether it succeeds or not |
| `ToolValue.DisplayRoundTrip` | protocol/protocol_content.go:182-199 | every display block is read back unchanged, omitted members included |
| `ToolValue.ToolReturnRoundTrip` | protocol/protocol_content.go:211-217 | a tool result is read back with its output in normal form |
| `Events.NamesDiffer` | protocol/protocol_event.go:18-209 | no two event types have the same name |
| `EventResults.EventRoundTrip` | protocol/protocol_event.go:239-395 | each of the 20 events can be written unless it holds both text and parts, and is read back as its normal form |
| `EventShapes.EventIsShaped` | protocol/protocol_event.go:239-271 | the envelope of each of the 20 events has its type's name and a payload with just its members, and whatever JSON is read as the event names that type |
| `EventShapes.PayloadIsShaped` | protocol/protocol_event.go:14-209 | the payload, member by member: which are there, which are left out when, and their values |
| `EventShapes.PartIsShaped` | protocol/protocol_content.go:60-90 | a text or a thought is flat, any other part has one nested object for each field it has |
| `EventShapes.ToolReturnIsShaped` | protocol/protocol_content.go:182-217 | the members of a tool result and of its display blocks |
| `EventResults.EnvelopeBack` | protocol/protocol_event.go:263-281 | the type name in the envelope selects the parser of the payload that was written |
| `EventResults.TypeIsTrue` | protocol/protocol_event.go:273-395 | whatever JSON is read as an event, the event is of the type its envelope names, and a tool call says that it is a function |
| `EventReads.ReadsExactly` | protocol/protocol_event.go:273-395 | a JSON value is read as an event exactly if it spells that event: the name of its type, and each member with the value of its field or, if it is missing or null, the zero value; counts within 32 or 64 bits, content as a string or an array of parts, a payload that is there unless the event has none |
| `EventResults.NormalEventExactly` | protocol/protocol_event.go:239-395 | the normal form is in normal form, and an event is its own normal form exactly when it is |
| `EventResults.RoundTripExactly` | protocol/protocol_event.go:239-395 | the round trip loses nothing exactly for events in normal form, and a second one changes nothing |
| `EventResults.EncryptedIsLost` | protocol/protocol_content.go:77-118 | a thought with an encrypted text is read back without it |

## Left out

- Wall-clock time: timeouts and deadlines are steps that may happen at any time. The wait of `clearActiveTurn` for done or ten seconds touches nothing and is not a step.
- A second `Serve` on the same `Server` (also after `Close`) and `ReadRawMessage`, which competes with the reader for lines.
- Turns and replays are entries of a table, not heap objects; their channels are flags of the entry.
- Agents that wait in several goroutines of one turn at once: in `Goroutines` an agent waits for one thing at a time. The contexts an agent passes may end at any time; that a timeout must come is not modelled.
- Agents that themselves emit TurnBegin or TurnEnd, that keep emitting after their call has returned, or whose `Steer` or `SetPlanMode` panics.
- The -32700 answer to a line that is not JSON, which `readLoop` writes past the write lock.
- `handleSetPlanMode` and unknown methods: they answer in place and are one case of the turn machine, which may also emit events first.
- The counters of request ids wrap at 2^64; the model counts without bound.
- A client call that registers after the reader has exited is never woken; `CorrelatorResults.WakeUp` covers it by its condition.
- The decoding of results in `decodeResponse` and the individual client methods: each is an id, a write and `readResponse`.
- More than one `Dispatch` loop on a client.
- In `Conversation`, requests of the server, their answers and what the server writes outside turns are lines without further content; `Requests` and `Pipeline` treat them.
- Memory, stdio and process transports, except the stderr logger.
- JSON text: values are trees, a member name is the constructor of the same name (`UserInput` for `user_input`), member names match exactly (encoding/json also matches them without regard to case), strings are valid Unicode, numbers are opaque except for being whole, raw messages are well-formed.
- Nil and empty slices are not told apart; a nil event is not an `Event`.
- `Content.ContentReceiver.UnmarshalJSON`: does not say which parts an array that fails leaves behind; the code keeps those read before the error.
- `protocol/protocol_request.go` and `message.go`: the same envelope shape as events.
- Regular expressions: BEGIN, END, hook matchers and the redactor are parameters.
- Options, logging and error texts.
