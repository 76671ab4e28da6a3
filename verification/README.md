# ccgonext, verified models

ccgonext runs coding agents as subprocesses. It speaks JSON-RPC with them over their standard streams, captures the
output of the terminals they open, records everything in a replayable event log, shows the log to browsers over a
WebSocket, and offers the agents as one tool over MCP. This project models its concurrent and streaming cores in
Dafny and proves what they are for. `dafny verify dfyconfig.toml` checks all of it.

Two kinds of model stand side by side. Code that changes one object step by step is a class or a method, proved
against a specification function. Code that runs in several tasks at once is a state machine: a state record, an
action for every stretch of code that no other task can interrupt, and theorems about every run of the machine,
that is, about every interleaving. Beside what never happens there is what does: for each machine, that from every
reachable state a call can come to its end, and with what result.

| part | files | main theorems |
|---|---|---|
| terminal output | `Utf8`, `Scalars`, `Terminal`, `ReadSplitting`, `TerminalLifecycle`, `TerminalProgress` | A well-formed stream is copied exactly however the reads split it, and the splitting can show exactly on streams with more than four undecodable bytes; trimming after every append is trimming once; a reported exit status is final and the child's own; every waiter can be answered. |
| ACP request table | `Protocol`, `RequestTable`, `RequestDelivery`, `RequestProgress`, `PendingTable` | A response reaches exactly the caller that asked; no request is stranded by a dying connection; a transport failure is visible in `connected`; every call can come back. |
| permissions | `Permissions`, `PermissionTable` | Permission is granted exactly if the user grants it while the request waits in the table; each question is asked once and answered once. |
| event log | `EventLog`, `EventLogSteps` | The ring refines the unbounded history; sequence numbers are conserved under every interleaving. |
| a turn | `AskTurn`, `AskProgress` | A successful `ask` returns its agent's chunks, in order, exactly unless a chunk of a stale reader is collected with them; an undisturbed one can return whatever its agent says. |
| live view | `ReplayHandoff`, `HandoffProgress`, `OverlapHandoff`, `OverlapRuns` | With serialised steps, from replay to live broadcast without gap or duplicate, message by message, and every subscriber can catch up. With overlapping steps, exactly which subscribers are served: all whose replay is not disturbed, if and only if events are pushed and broadcast in number order; all whatever, if and only if moreover nothing is ever evicted. |
| sessions | `Session`, `TurnGuard`, `ClientLife`, `SessionRegistry`, `RegistryProgress`, `SessionManager` | Exactly when an `ask` succeeds and what it leaves; every run follows the legal transitions; overlapping asks serialise; a dead client costs at most one failed ask; creation is single-flight and the two indexes agree. |
| MCP transport | `McpFraming`, `McpHeaders`, `McpSpaces`, `McpRoundTrip`, `McpDispatch` | Every header block is read as specified; reading undoes writing in both modes; end to end, each request is answered once, in order, with its own id. |
| `ask_agents` | `ParallelGather` | Results come out in request order whatever the completion order. |

## Hypotheses

- `String::from_utf8_lossy` is known only to return well-formed text (`Terminal.ReturnsText`).
- `EventLog` and `ReplayHandoff` take each append and each replay as one step; `ReplayHandoff` also assumes
  `max_entries >= 1`. `EventLogSteps`, `OverlapHandoff` and `AskTurn` use the real granularity: the number is taken
  before the lock, the broadcast comes after it. `OverlapHandoff` leaves out lag of the broadcast channel.
- `AskTurn` assumes that no chunk of the client's own reader is in flight when the turn starts. Readers of clients that
  died before may still be logging under the same session.
- `Session` runs each `ask` to completion, with `shutdown` only between asks. `TurnGuard` shows that overlapping asks
  come to the same.
- Timeouts, idle reaping and task scheduling are free choices of the environment. Request numbers and sequence numbers
  do not wrap. Session and permission ids are fresh.
- That something can come to its end says that no step is missing, not that the scheduler takes it. Terminal waiters are
  answered when no output call holds the buffer.
- JSON is opaque: parsing and printing are parameters of the theorems.

## What does not hold

Each of these is a property one might expect, with the exact condition or a concrete run.

- The way the reads split a stream can show in the output. It never does, for whatever text the lossy decoder returns,
  exactly if at most four bytes of the stream lie beyond its longest well-formed prefix
  (`ReadSplitting.SplittingNeverShowsIff`). FF 41 42 C3 A9 has five: read as four bytes and one, its last character is
  lost (`ReadSplitting.SplitAfterErrorLosesCharacter`).
- A replay that runs undisturbed keeps its promise exactly when the log can hold an event or nothing that exists was
  requested (`EventLog.ReplayIsFaithful`). With `max_entries` 0 the smallest number stays 0 and every replay claims to be
  complete. But `replay_from` loads `min_seq` before it locks the ring. A replay in general keeps its promise exactly if
  nothing requested has been evicted when the ring is copied, or the loaded number is still the one in force and is above
  the requested one (`EventLog.StaleReplayIsFaithful`).
- The hand-off from replay to live events does not serve every subscriber. In a run whose appends have all finished, on a
  log with room for an event:
  - Those for whom no push falls between the load of `min_seq` and the copy of the ring are all served if and only if the
    events are both pushed and broadcast in number order (`OverlapHandoff.UndisturbedAreServedIffInOrder`); overlapping
    appends can break either.
  - With everything in order, one subscriber is served exactly if its replay keeps its promise
    (`OverlapHandoff.ServedIffInTime`).
  - All are served if and only if everything is in order and nothing is ever evicted
    (`OverlapHandoff.AllAreServedIffNothingEvicted`): at the first eviction there is a moment to ask and be told that an
    incomplete replay is complete (`OverlapRuns.StaleMinimumLosesAnEvent`, with no overlap at all).
  - Whatever the order, the live events are exactly those missing from the replay if and only if the numbers in the
    channel are in step with it (`OverlapHandoff.HandoffIsExactIff`).
  - Out-of-order broadcasts lose an event (`OverlapRuns.OverlapCanLoseAnEvent`). Out-of-order pushes do so even when the
    broadcasts are in order, and they also deliver an event twice, depending on when the ring is copied
    (`OverlapRuns.InOrderBroadcastsAreNotEnough`).
- After a client has died its reader can go on logging under the same session while the next `ask` runs. That `ask`
  returns its own turn's text if and only if no chunk of such a reader is collected (`AskTurn.AskReturnsTheTurn`), and
  otherwise the text of an earlier turn's agent is part of the answer (`AskTurn.StaleReaderLeaks`).
- A user's grant can come to nothing. Permission is granted exactly if the grant comes while the request waits in the
  table (`Permissions.GrantedIffInTime`). The request is published before it is in the table, so a quick grant can be
  lost (`Permissions.EarlyGrantIsLost`); and it stays there for a moment after its time is over, so a late grant can find
  it and still be lost (`Permissions.LateGrantIsLost`).
- The writer frames texts of any length; the reader refuses those over 16 MiB (`McpRoundTrip.OversizedFrameIsRefused`),
  so the framing round trip holds exactly for texts up to that size (`McpRoundTrip.FramesReadBack`).
- A message with two `Content-Length` headers is read by the first of them if it is the first message and by the last
  otherwise (`McpHeaders.TwoLengthsDisagree`). Headers cut off by the end of the input are a clean end in frame mode
  (`McpHeaders.CutOffHeadersAreAnEnd`), and complete in the first message (`McpHeaders.DetectsHeaderBlock`).
- Error codes are those of section 5.1 of JSON-RPC 2.0 exactly for texts that are no JSON and for requests
  (`McpDispatch.CodeIsStandardIff`). JSON that is neither a request nor a notification, for instance an object with an id
  and no method, gets -32700 under a null id instead of -32600 (`McpDispatch.IdWithoutMethodIsAParseError`).

`docs/architecture.md` and `tests/README.md` describe an earlier design with pseudo-terminals; the model follows the code.

## Model

| member | source | states |
|---|---|---|
| Utf8.LongestWellFormedPrefix | src/acp/callbacks.rs:509-512 | The split point the decoder uses is the longest prefix that is well-formed by section 4 of RFC 3629. |
| Utf8.PrefixCode | src/acp/callbacks.rs:509-530 | A complete first character is never changed by later bytes, and an incomplete one is completed only by them; hence carrying bytes over is sound. |
| Utf8.BoundaryIsSplit | src/acp/callbacks.rs:549 | Self-synchronisation: the one-byte boundary test finds exactly the places where well-formed text splits into well-formed halves. |
| Utf8.WellFormedIsGrammar | src/acp/callbacks.rs:509-515 | Well-formed is the same as being a concatenation of UTF8-char of the RFC's grammar. |
| Scalars.EncodedIsCharacter | src/acp/callbacks.rs:509-512 | The encoding of every Unicode scalar value by section 3 of RFC 3629 is one character for the decoder, whatever follows. |
| Scalars.CharacterIsEncoded | src/acp/callbacks.rs:509-512 | Every character for the decoder is the encoding of a scalar value. |
| Scalars.WellFormedIffEncoded | src/acp/callbacks.rs:509-515 | Bytes are well-formed if and only if they encode a sequence of scalar values, and they encode only one. |
| Terminal.FirstBoundary | src/acp/callbacks.rs:548-551 | The trim loop's target is the first character boundary at or after the overflow. |
| Terminal.BoundaryWithinThree | src/acp/callbacks.rs:548-551 | In well-formed text that loop advances at most three bytes. |
| Terminal.BoundedTailIsLongest | src/acp/callbacks.rs:546-555 | What is kept is the longest suffix that starts on a character and fits the limit, and when something was cut it is at least the limit less three bytes. |
| Terminal.TailAbsorbs | src/acp/callbacks.rs:542-556 | Trimming early and appending more gives the tail of everything. |
| Terminal.TrimmingEachTimeIsTrimmingOnce | src/acp/callbacks.rs:542-556 | For any list of chunks, trimming after every append equals trimming once at the end, and `truncated` holds exactly if the total exceeded the limit. |
| Terminal.ManagedTerminal.constructor | src/acp/callbacks.rs:47-60 | A new terminal has an empty buffer that is not truncated. |
| Terminal.ManagedTerminal.Append | src/acp/callbacks.rs:542-556 | After every append the buffer is the bounded tail of all chunks ever appended and the flag says whether they exceeded the limit. |
| Terminal.DrainOne | src/acp/callbacks.rs:502-530 | One read appends the decodable prefix, hands four or more undecodable bytes to the lossy decoder, and carries fewer over. |
| Terminal.Drain | src/acp/callbacks.rs:492-540 | The whole loop appends exactly the chunks that the decoding function gives for the sequence of reads. |
| Terminal.DecoderInvariant | src/acp/callbacks.rs:498-534 | Between any two reads, on any input: at most three bytes are carried and they start no character, every chunk is text, the longest well-formed prefix has been appended untouched, and nothing is lost unless four undecodable bytes showed up. |
| Terminal.WellFormedStreamIsCopied | src/acp/callbacks.rs:492-540 | However the reads split a well-formed stream, the appended chunks spell exactly that stream and nothing is left at its end. |
| Terminal.AnyStreamKeepsItsPrefix | src/acp/callbacks.rs:492-540 | On any bytes and any splitting, everything appended is text and starts with the longest well-formed prefix of the stream. |
| Terminal.NothingAfterTheEnd | src/acp/callbacks.rs:499-534 | An empty read and a failed one both end the stream; nothing after it makes a difference. |
| ReadSplitting.ShortErrorsAreExact | src/acp/callbacks.rs:519-539 | With at most four undecodable bytes the output is the longest well-formed prefix and then the lossy decoding of the rest in one piece, whatever the splitting. |
| ReadSplitting.SplittingNeverShowsIff | src/acp/callbacks.rs:519-530 | All splittings of a stream give the same output, for every lossy decoder that returns text, exactly if at most four of its bytes lie beyond the longest well-formed prefix. |
| ReadSplitting.SplitAfterErrorLosesCharacter | src/acp/callbacks.rs:522-525 | A stream whose last character is lost if the reads split it. |
| TerminalLifecycle.DrainsNext | src/acp/callbacks.rs:492-540 | Every step of every task keeps: what a drain task has appended and still has to append is what the decoder gives for its reads. |
| TerminalLifecycle.BufferNext | src/acp/callbacks.rs:542-556 | Every step keeps: the shared buffer is the bounded tail of all appends in their actual order. |
| TerminalLifecycle.FrozenFrom | src/acp/callbacks.rs:572-584 | Once the status is published, status, output and flag never change. |
| TerminalLifecycle.StatusIsTheChilds | src/acp/callbacks.rs:564-583 | The child exits at most once, and a published status is the code of that exit. |
| TerminalLifecycle.CallsAnswerTruly | src/acp/callbacks.rs:404-456 | A waiter that checks after the publication answers with the status at once; an output call replies with the bounded tail of all that was appended so far, whether that was too much, and the status if there is one. |
| TerminalLifecycle.ReportedExitIsFinal | src/acp/callbacks.rs:400-411 | After any response with an exit status, the child has exited once, with that status, and at every later moment all drain tasks are done, all reports agree, and the output is the bounded tail of a shuffle of the completely decoded streams. |
| TerminalLifecycle.FinalStreamsAreCopied | src/acp/callbacks.rs:382-397 | In that final log each well-formed stream is present byte for byte. |
| TerminalLifecycle.NoLostExitWakeup | src/acp/callbacks.rs:447-456 | After the notification no waiter sleeps un-notified, and one about to check finds the status. |
| TerminalProgress.WaiterCanBeAnswered | src/acp/callbacks.rs:442-585 | From every reachable state the tasks can come to their end and any waiter can be answered, with the status of the child's exit. |
| RequestTable.InvNext | src/acp/mod.rs:122-157 | Every step of callers, reader, writer, wait task, `terminate` and `shutdown` keeps the table's invariant. |
| RequestTable.NoRequestIsStranded | src/acp/mod.rs:127-156 | After a drain every caller awaiting a reply has one, and an id still in the table belongs to a caller that has yet to act on its second check. |
| RequestTable.ReaderGoneMeansDrained | src/acp/mod.rs:464-470 | When the reader is gone the table has been drained or `shutdown` is under way. |
| RequestTable.ChannelIsNeverDropped | src/acp/mod.rs:155-156 | "Response channel dropped" cannot happen while the client is held. |
| RequestTable.CompletedAtMostOnce | src/acp/mod.rs:400-409 | A completed request keeps its reply for good, and `connected` never comes back. |
| RequestTable.AnswerIsOwnFirstLine | src/acp/mod.rs:395-409 | A caller's answer is the first response line with its own id read after it entered the table, and no other caller gets that line. |
| RequestTable.OnlyResponsesComplete | src/acp/mod.rs:394-454 | Requests and notifications from the agent leave all calls alone, and a reply arises only from a response line with that very id. |
| RequestTable.IdsAreNeverReused | src/acp/mod.rs:131-138 | A new call's id is unused everywhere, so a late line for a finished or cancelled call cannot reach another. |
| RequestTable.TransportFailureIsVisible | src/acp/mod.rs:127-156 | Once any call was refused or failed because of the transport, `connected` is false from then on. |
| RequestDelivery.ResponseCompletesItsCall | src/acp/mod.rs:395-409 | A response line is always recorded as the next line; if its call is in the table and not cancelled, it leaves the table completed with this very line, and of the others only abandoned calls leave. |
| RequestDelivery.LinesAreResponses | src/acp/mod.rs:394-454 | The lines are exactly the response lines with a numeric id. |
| Protocol.ClassifyRoundTrip | src/acp/protocol.rs:75-98 | Classifying a message written for a kind gives that kind back, and writing a classified message gives it back with absent parameters as null and without fields that do not belong to its kind. |
| RequestDelivery.ResponseReachesItsCaller | src/acp/mod.rs:155-156 | A caller that awaits its reply when the response is read returns exactly that response, whatever else happens, unless its future is dropped. |
| RequestDelivery.ChecksDecide | src/acp/mod.rs:127-153 | A call is turned away, withdraws, or fails to send, exactly if the flag is cleared at its first look, at its second, or the writer is gone. |
| RequestDelivery.CallAlone | src/acp/mod.rs:122-157 | On a live connection an undisturbed call returns the agent's response to its id and leaves nothing in the table. |
| RequestDelivery.CallOnDyingConnection | src/acp/mod.rs:464-470 | When the agent's output ends, an awaiting call returns the failure. |
| RequestProgress.CallCanFinish | src/acp/mod.rs:122-258 | From every reachable state, in whatever condition the connection is, every outstanding call can come back. |
| PendingTable.Table.Insert | src/acp/mod.rs:135-139 | The call's channel enters the table and nothing is completed. |
| PendingTable.Table.FailPending | src/acp/mod.rs:317-325 | The table is empty afterwards and exactly its channels have been failed. |
| PendingTable.Table.Dispatch | src/acp/mod.rs:400-409 | Channels without a receiver are dropped, the addressed one is removed and completed, and no other is touched. |
| Permissions.GrantedIffInTime | src/acp/callbacks.rs:145-185 | A finished request was granted if and only if the user granted it at a moment when it was waiting in the table; timeout, cancellation, early and late grants deny. |
| Permissions.AskedOnceAnsweredOnce | src/acp/callbacks.rs:145-185 | A finished request has published one question and then one answer, the one it returns, and is out of the table. |
| Permissions.AnswerSticks | src/acp/callbacks.rs:459-470 | Once answered, a waiting request returns that answer whatever happens later. |
| Permissions.AnswerCountsIffInTime | src/acp/callbacks.rs:459-464 | The only answer a request gets makes it come out granted exactly if it is a grant and the request was waiting in the table then. |
| Permissions.DeniedForGood | src/acp/callbacks.rs:459-471 | A request that was denied in time, or cancelled while it waited, is never granted. |
| Permissions.RequestCanFinish | src/acp/callbacks.rs:164-184 | From every state a request can come to its end by itself, with the answer it has or else a denial. |
| Permissions.AnswerAlone | src/acp/callbacks.rs:459-464 | A user who answers a waiting request is heard, grant or denial. |
| Permissions.EarlyGrantIsLost | src/acp/callbacks.rs:148-168 | A run in which the user grants between publication and insertion and the request is denied. |
| Permissions.LateGrantIsLost | src/acp/callbacks.rs:164-173 | A run in which the user grants after the timeout, with the request still in the table, and it is denied. |
| PermissionTable.Oneshot.Send | src/acp/callbacks.rs:462 | An answer arrives exactly if the receiver still exists. |
| PermissionTable.Oneshot.Finish | src/acp/callbacks.rs:164-168 | The end of the wait returns what has arrived, else a denial, and drops the receiver. |
| PermissionTable.CallbackHandler.Enter | src/acp/callbacks.rs:158-162 | The request's channel enters the table and nothing is answered. |
| PermissionTable.CallbackHandler.Leave | src/acp/callbacks.rs:170-173 | The request leaves the table and nothing is answered. |
| PermissionTable.CallbackHandler.RespondPermission | src/acp/callbacks.rs:459-464 | A pending request is removed, and answered if it still listens; nobody else is. |
| PermissionTable.CallbackHandler.CancelAllPending | src/acp/callbacks.rs:466-471 | The table is empty afterwards and exactly those of its requests that still listen have been denied. |
| EventLog.EventLog.constructor | src/events.rs:79-88 | A new log is empty and will number its first event 1. |
| EventLog.EventLog.Append | src/events.rs:94-118 | The history grows by this event under the next number, and ring, `min_seq` and broadcast stay what the history says they are: the last `max_entries` events, their first number, everything. |
| EventLog.EventLog.ReplayFrom | src/events.rs:120-138 | The replay is the specified function of history, bound and requested number. |
| EventLog.AtLeastIsSuffix | src/events.rs:132-137 | Filtering by number cuts the ring at that number. |
| EventLog.ReplayIsFaithful | src/events.rs:120-138 | For a replay taken as one step: Complete equals the history from the requested number and Partial is returned exactly if something requested was evicted, exactly when `max_entries` is at least 1 or nothing that exists was requested. |
| EventLog.StaleReplayIsFaithful | src/events.rs:121-137 | For a `min_seq` loaded before the ring is copied: the same holds exactly if nothing requested has been evicted, or the loaded number is the one in force and above the requested one. |
| EventLog.ReplayFromZero | src/events.rs:124-137 | Asking from 0 gives all that is left, as complete, whatever `min_seq` was loaded. |
| EventLogSteps.NumbersAreConserved | src/events.rs:95-117 | Under every interleaving each allocated number is in exactly one of ring, evicted events and unfinished appends; the ring keeps its bound; only pushed events are broadcast, each once. |
| EventLogSteps.AppendAlone | src/events.rs:94-118 | An append whose three steps nothing interrupts takes the log of one history to the log of the next, as the serialised log does. |
| OverlapHandoff.ForwardsFreshIff | src/web/websocket.rs:69-76 | The live loop forwards exactly the events that are not known yet if and only if the numbers are in step: each event is known exactly if its number is at most the last one replayed or that of an earlier fresh event. |
| OverlapHandoff.HandoffIsExactIff | src/web/websocket.rs:119-152 | In every run and for every subscription, wherever its three steps fall, the live events are exactly those missing from its replay if and only if channel and replay are in step. |
| OverlapHandoff.InOrderLiveIsExact | src/web/websocket.rs:69-89 | If events are pushed and broadcast in number order, overlapping or not, every subscriber gets live exactly the events pushed after the copy of its replay, or everything broadcast if its replay is empty. |
| OverlapHandoff.ServedIffInTime | src/events.rs:120-138 | With everything in order, replay and live events together leave neither a gap without notice nor a duplicate, exactly if at the copy nothing requested had been evicted, or the loaded `min_seq` was still in force and above the requested number. |
| OverlapHandoff.UndisturbedAreServedIffInOrder | src/events.rs:94-143 | In a run whose appends have all finished, with `max_entries` at least 1, all subscribers whose replay no push disturbs are served, at any moment and from any number, if and only if events were pushed and broadcast in number order. |
| OverlapHandoff.AllAreServedIffNothingEvicted | src/events.rs:94-143 | In a run whose appends have all finished, with any `max_entries`, all subscribers are served, however the steps of their replays fall, if and only if events were pushed and broadcast in number order and none was ever evicted. |
| OverlapRuns.OverlapCanLoseAnEvent | src/events.rs:94-118 | A run of two overlapping appends that are broadcast out of order, so that the live loop drops one. |
| OverlapRuns.StaleMinimumLosesAnEvent | src/events.rs:121-132 | A run with no overlap and everything in order, in which a replay from 1 that loads `min_seq` before an eviction and copies the ring after it claims to be complete without event 1, which never comes. |
| OverlapRuns.InOrderBroadcastsAreNotEnough | src/events.rs:104-115 | A run with the broadcasts in order and the pushes not, in which one subscriber never gets an event and another gets one twice. |
| AskTurn.InvNext | src/session/mod.rs:184-214 | Every step of reader, asker and other appenders keeps: the turn's chunks read so far have been pushed in order, and sequence numbers tell them from older ones. |
| AskTurn.CollectedTexts | src/session/mod.rs:238-252 | The collected texts are exactly those of the turn's events still in the ring, whichever branch the replay takes and although `min_seq` was loaded earlier. |
| AskTurn.LoggedUpToResponse | src/acp/mod.rs:394-424 | When the response has been read, every chunk before it has been pushed. |
| AskTurn.AskReturnsTheTurn | src/session/mod.rs:185-214 | The turn's text is the in-order concatenation of every chunk its agent sent before the response, followed only by later ones already logged, less exactly this turn's chunks that the ring has evicted; a successful `ask` returns exactly that if and only if no chunk of a stale reader of the session is in the ring and collected. |
| AskTurn.StaleReaderLeaks | src/session/mod.rs:85-96 | A run in which the reader of a client that died before logs a chunk during the turn and `ask` returns it as the answer. |
| AskProgress.AskAlone | src/session/mod.rs:185-214 | From every reachable state between turns, with no stale reader and room for the turn: for any texts the agent may send before it responds, `ask` can go on to return exactly their concatenation. |
| ReplayHandoff.DeliveryNext | src/web/websocket.rs:69-89 | Every step keeps: the client's numbers are complete up to the frontier of replay and live loop, but for excused losses. |
| ReplayHandoff.HandoffIsExactlyOnce | src/web/websocket.rs:60-152 | The messages sent are a gap notice if the replay was partial, every event of the replay, and then the live events, one by one; their numbers strictly increase, and none is missing except those the channel overwrote that are newer than the replay or were never requested. |
| ReplayHandoff.ReplayIsSentInOrder | src/web/websocket.rs:129-147 | While the replay is being sent, what has been sent is the beginning of exactly that. |
| ReplayHandoff.ContiguousWithoutLag | src/web/websocket.rs:69-89 | Without lag the delivered numbers are contiguous. |
| ReplayHandoff.LosesOnlyWhenFull | src/web/websocket.rs:84-86 | An event is overwritten only when the channel is full. |
| ReplayHandoff.ReplayPartIsFaithful | src/web/websocket.rs:119-147 | The replayed part is everything from the requested number, or a gap notice with all that is left. |
| ReplayHandoff.NoLostReplayWakeup | src/web/websocket.rs:61-67 | After the notification the send task does not sleep un-notified. |
| HandoffProgress.SubscriberCatchesUp | src/web/websocket.rs:60-152 | From every reachable state after a Subscribe, the connection can go on until nothing is left to send, and then everything owed has been sent, message by message, but what the channel overwrote. |
| HandoffProgress.SubscribeIsServed | src/web/websocket.rs:119-152 | Every first Subscribe, from any number at any moment, can be served to that point, with the replay the log then holds. |
| Session.AcpSession.constructor | src/session/mod.rs:36-50 | A new session is stopped, idle and has no client. |
| Session.AcpSession.SetBothStates | src/session/mod.rs:79-83 | Both states change together and the change is recorded. |
| Session.AcpSession.Die | src/session/mod.rs:85-96 | The session is dead and idle, without client, ACP session or process id. |
| Session.AcpSession.Ensure | src/session/mod.rs:107-166 | Nothing to do when running; otherwise Starting, and then Running with a new client and session or Dead without. |
| Session.AcpSession.Ask | src/session/mod.rs:168-231 | The whole call, including the turn guard, has the specified effect on every field, on the events and on the result. |
| Session.AcpSession.AskGuarded | src/session/mod.rs:173-231 | The same between taking the guard and giving it back. |
| Session.AcpSession.Shutdown | src/session/mod.rs:254-274 | The session ends dead and idle with nothing left of its client. |
| Session.EnsureRunningRecords | src/session/mod.rs:107-166 | Starting keeps the state pair legal, records its changes as legal moves, and ends Running or Dead. |
| Session.PromptTurnRecords | src/session/mod.rs:181-230 | A turn on a running session ends at rest, records legal moves, and completes once exactly if it succeeds. |
| Session.TurnEndings | src/session/mod.rs:208-229 | All three ways a turn can end record legal moves, and only the regular one completes a turn. |
| Session.RunStaysLegal | src/session/mod.rs:79-105 | Over every run of asks and shutdowns: the turn is idle in between, Running means exactly that client and ACP session are there, the recorded changes are a path of the transition graph to the current state, every TurnComplete directly follows the regular end of a turn, and there is one per successful ask. |
| Session.AskFailsOnlyForAReason | src/session/mod.rs:168-231 | Taken one at a time, no ask meets a busy turn, a state it cannot start from, or a missing client. |
| Session.AskOutcome | src/session/mod.rs:107-231 | In every run, each of the six results of an ask comes back exactly in its situation, success exactly if the agent runs or can be started and the prompt succeeds; and the events recorded, the states, client, ACP session and process id left behind are given for every case. |
| Session.ShutdownOutcome | src/session/mod.rs:254-274 | A shutdown ends Dead and idle without client, ACP session or process id, and records that. |
| TurnGuard.OverlappingAsksSerialise | src/session/mod.rs:168-231 | In every interleaving of any number of asks, whenever the guard is free the session and its events are those of the asks that got the guard, made one after the other. |
| TurnGuard.ServedAskIsSerial | src/session/mod.rs:168-231 | An ask that got the guard returns what it would return in its place of that series, never "busy". |
| TurnGuard.BusyIffAnotherHolds | src/session/mod.rs:169-172 | An ask comes back "busy" exactly if another one holds the guard when it arrives, in whatever phase, and then it has changed nothing. |
| TurnGuard.OneAskAtATime | src/session/mod.rs:169-176 | At most one ask is between taking the guard and giving it back. |
| TurnGuard.HolderCanFinish | src/session/mod.rs:173-231 | From every reachable state the ask that holds the guard can go on by itself to give it back, returning what it would return in its place of the series. |
| TurnGuard.AskAlone | src/session/mod.rs:168-231 | An ask that nothing overlaps does exactly what the specification says. |
| Session.AskAndClients | src/session/mod.rs:208-230 | A fatal outcome leaves no client and a younger one for the next ask; any other keeps the client. |
| Session.DeadClientCostsOneAsk | src/session/mod.rs:216-229 | After a fatal failure the session is Dead and every later ask uses a younger client. |
| Session.TransportFailureEndsTheClient | src/session/mod.rs:216-236 | If the request table failed the prompt because of the transport, or turned it away at the first look, `ask` finds `connected` false and the session goes Dead. |
| ClientLife.TransportFailureIsFatal | src/session/mod.rs:201-236 | With every prompt taken from a run of its client's request table: a transport failure, and any ask begun on a client that is already dead, ends with the session Dead and without a client. |
| ClientLife.DeadClientIsUsedOnce | src/session/mod.rs:107-236 | Once a client's `connected` is false, at most one ask begun after that, in the session's whole life, uses this client. |
| SessionRegistry.IndexesAgree | src/session/mod.rs:345-355 | In every reachable state keyed sessions are listed by id under their own key, no session has two keys, and the other ids are sessions in the middle of removal. |
| SessionRegistry.IndexesAreABijection | src/session/mod.rs:326-360 | At quiescence the two indexes are inverse to each other. |
| SessionRegistry.CreationIsSingleFlight | src/session/mod.rs:332-355 | All callers given a session for a key not removed since have the same one, the registered one. |
| SessionRegistry.RemovedSessionsStayRemoved | src/session/mod.rs:459-465 | A removed session is never registered again. |
| SessionRegistry.GetAlone | src/session/mod.rs:326-356 | The steps of an undisturbed `get_or_create` find the session, refuse an unknown agent, or add it to both indexes. |
| SessionRegistry.RemoveAlone | src/session/mod.rs:459-465 | The steps of an undisturbed `remove_session` take the session out of both indexes and return it. |
| SessionRegistry.ShutdownAlone | src/session/mod.rs:402-411 | The steps of an undisturbed `shutdown_all` empty both indexes and hold all sessions that were keyed. |
| RegistryProgress.CallCanFinish | src/session/mod.rs:326-465 | From every reachable state every call on the registry can come to its end: whoever waits for the key lock waits for a call that can give it back. |
| SessionManager.SessionManager.GetOrCreate | src/session/mod.rs:326-356 | The same on the mutable maps: an existing session is returned, an unknown agent refused, else one new session is in both maps. |
| SessionManager.SessionManager.RemoveSession | src/session/mod.rs:459-465 | Exactly the keyed session leaves both maps and is returned. |
| SessionManager.SessionManager.DrainAll | src/session/mod.rs:402-411 | Both maps are emptied and all their sessions are returned. |
| McpFraming.Stdio.ReadLine | src/mcp/mod.rs:105-106 | The line up to and including its newline is consumed, and accepted exactly if it is UTF-8. |
| McpFraming.Stdio.ReadExact | src/mcp/mod.rs:202-205 | The body is consumed if the input is long enough, and accepted exactly if it is UTF-8. |
| McpFraming.Stdio.ReadLspMessage | src/mcp/mod.rs:171-206 | Result and rest of the input are as the specification has them, which the rows about header blocks characterise. |
| McpFraming.Stdio.ReadJsonlMessage | src/mcp/mod.rs:156-168 | One line, or the end of the input. |
| McpFraming.Stdio.DetectAndReadMessage | src/mcp/mod.rs:100-153 | Message, next mode and rest of the input are as specified for the four kinds of first line. |
| McpFraming.Stdio.ReadDetectedBody | src/mcp/mod.rs:119-135 | A first header line is followed by other headers, a blank line and the body. |
| McpFraming.Stdio.RunStdio | src/mcp/mod.rs:43-97 | The loop writes exactly the answers to the messages of the input, each in the mode then in force, until the input ends or breaks. |
| McpHeaders.ReadsHeaderBlock | src/mcp/mod.rs:177-206 | In frame mode, for every list of header lines: any order, other headers ignored, one length that does not parse spoils the message, the last length counts, none is an error. |
| McpHeaders.FrameWithHeadersReadsBack | src/mcp/mod.rs:192-206 | A frame with any further headers reads back as its body. |
| McpHeaders.CutOffHeadersAreAnEnd | src/mcp/mod.rs:182-184 | Headers cut off by the end of the input are a clean end, unless a length does not parse. |
| McpHeaders.BadLineBreaks | src/mcp/mod.rs:105-180 | A line that is not UTF-8 breaks every reader. |
| McpHeaders.DetectsHeaderBlock | src/mcp/mod.rs:115-135 | In the first message the first length counts, all following headers are skipped unread, and the end of the input does for the blank line. |
| McpHeaders.TwoLengthsDisagree | src/mcp/mod.rs:119-194 | Two different lengths are resolved differently in the first message and in later ones. |
| McpHeaders.DetectsLine | src/mcp/mod.rs:136-152 | Any other first line is a message and settles on lines; a blank one leaves the mode open. |
| McpHeaders.BodyIsExact | src/mcp/mod.rs:202-205 | A body is read exactly if the input holds that many bytes and they are UTF-8, and it is those bytes. |
| McpHeaders.HeaderNameIff | src/mcp/mod.rs:192 | A length header is one named content-length in any mixture of small and capital letters. |
| McpHeaders.ParsesIff | src/mcp/mod.rs:215 | A length parses to n exactly if it is an optional plus sign, zeros and the decimal form of n, and n fits 64 bits. |
| McpSpaces.LeadingSpaceIff | src/mcp/mod.rs:112 | `trim` takes off at the front exactly the encodings of Unicode's white space characters. |
| McpSpaces.TrailingSpaceIff | src/mcp/mod.rs:112 | And at the back. |
| McpRoundTrip.HeaderParsesBack | src/mcp/mod.rs:209-227 | A printed length parses back to itself up to 16 MiB and is refused above. |
| McpRoundTrip.FramesReadBack | src/mcp/mod.rs:100-206 | From AutoDetect or in frame mode, texts written as frames read back exactly, in order, followed by a clean end, if and only if each is text of at most 16 MiB. |
| McpRoundTrip.OversizedFrameIsRefused | src/mcp/mod.rs:217-224 | A longer text's own frame is refused. |
| McpRoundTrip.LinesReadBack | src/mcp/mod.rs:136-168 | Newline-free JSON objects written as lines read back in order up to trimming, and then the input ends cleanly. |
| McpRoundTrip.ServedFrames | src/mcp/mod.rs:51-97 | In frame mode the output is one frame per answer in the order of the messages. |
| McpRoundTrip.ServedLines | src/mcp/mod.rs:51-97 | In line mode it is one line per answer. |
| McpRoundTrip.ClientReadsAllAnswers | src/mcp/mod.rs:230-255 | A client that reads the output with the same reader gets exactly the answers and a clean end, if and only if every answer given is text of at most 16 MiB. |
| McpRoundTrip.ClientReadsAllLines | src/mcp/mod.rs:230-255 | In line form, up to trimming, when every answer given is an object on one line. |
| McpDispatch.ReplyDeserved | src/mcp/mod.rs:257-352 | A message is answered exactly if it is no notification; the id is the request's or null, and each kind of response, each error code, and a tool result marked as an error, appears exactly under its condition; a tool result carries the text the tool gave. |
| McpDispatch.CodeIsStandardIff | src/mcp/mod.rs:70-88 | The error code, or its absence, is the one of section 5.1 of JSON-RPC 2.0 exactly for texts that are no JSON and for requests; any other JSON that calls for an answer gets a parse error under a null id. |
| McpDispatch.IdWithoutMethodIsAParseError | src/mcp/mod.rs:77-87 | JSON with an id and no method gets -32700 where the standard has -32600. |
| McpDispatch.OneReplyEach | src/mcp/mod.rs:70-88 | The j-th response belongs to the j-th message that calls for one, and there are no others. |
| McpDispatch.ServesJsonRpc | src/mcp/mod.rs:43-97 | End to end through detection, framing, dispatch and framing back: the client reads back one response per request, in order, with the request's id, if and only if these responses print as text of at most 16 MiB. |
| McpDispatch.ServesJsonRpcLines | src/mcp/mod.rs:43-97 | The same over JSON lines, when these responses print as objects on one line. |
| ParallelGather.ValidateArgs | src/mcp/tools.rs:52-78 | Accepts exactly 1 to 4 requests with distinct, known agents, non-blank messages and a timeout of 1 to 1800 seconds, and names a culprit otherwise. |
| ParallelGather.Gather | src/mcp/tools.rs:155-241 | The join loop and final mapping give the specified result for every completion order and every way tasks end. |
| ParallelGather.EveryTaskIsDelivered | src/mcp/tools.rs:211 | A join set that delivers n results of distinct tasks delivers every task. |
| ParallelGather.CompletionOrderDoesNotMatter | src/mcp/tools.rs:209-241 | Any two completion orders give the same results; entry i is about request i's agent and succeeds exactly if there is a response and no error. |
| ParallelGather.MissingIsReported | src/mcp/tools.rs:230-241 | A task that were never delivered would still have its entry, a failure under its agent's name. |

## Left out

- Spawning, killing and tearing down processes (`src/acp/process.rs`, `src/acp/windows_job.rs`, `Drop`): calls into the operating system. In the request table a kill is the environment ending the reader.
- Path resolution and file callbacks: they depend on the real file system.
- Policy matching of permissions and `handle_request_permission`: single branches.
- JSON, serde, HTTP routes, origin and token checks, static files, the browser page, command line and configuration: no state worth a theorem.
- Wall-clock time: the 60 second permission timeout, the ask timeout and the idle age are nondeterministic steps.
- A dropped `ask` future, `shutdown` during an `ask`, and a second Subscribe on one connection: the code gives no guarantee there.
- Wrap-around of request ids (64-bit signed) and sequence numbers (64-bit unsigned).
- The 4096-byte read buffer and the 32- and 64-entry channels between tasks: reads and sends of any size and delay are allowed instead.
- Failing writes: of the MCP server to standard output, and of the WebSocket to the client, both of which just end the loop. The action task's commands other than Subscribe are not modelled.
- The tasks of `TerminalLifecycle`, `RequestTable`, `Permissions`, `AskTurn`, `ReplayHandoff`, `TurnGuard` and `SessionRegistry` are state machines over values, because their subject is interleaving. The objects they share have imperative forms in `ManagedTerminal`, `PendingTable`, `PermissionTable`, `EventLog`, `AcpSession` and `SessionManager`; of `exit_status`, the `Notify` objects and the WebSocket atomics there is no imperative form, so update in place of these is not captured.
- McpFraming.Stdio.RunStdio: the answer to a message is a function of its content and its position in the input, which stands for the state of agents and sessions; the model does not say which answers a real agent gives.
- PendingTable.Table.Insert: requires an id that was never in the table, which `RequestTable.IdsAreNeverReused` provides for the code's counter.
- PermissionTable.CallbackHandler.Enter: requires a fresh id, as the code's random identifiers are taken to be.
- SessionManager.SessionManager.GetOrCreate: requires a fresh session id, for the same reason.
- ParallelGather.Gather: requires that task ids are distinct, as those of one runtime are.
- The length header is recognised by ASCII case folding of its name; Unicode lower-casing of other characters cannot produce these letters.
- Thoughts, tool calls, plans and other updates are one kind of event without content.
