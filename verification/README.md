# cla-worker: the message pipeline, verified

The worker is a pull agent. Bytes arrive on a server-sent event stream, are parsed into
events, expanded into messages and dispatched, one goroutine a message; each message must
be answered by a definite sequence of publications. This project models that pipeline in
Dafny 4.11, from the bytes to the publications, and proves what it keeps under cut
connections, cancellation and every interleaving.

`dafny verify dfyconfig.toml` checks everything.

## How it is laid out

| file | what it holds |
|---|---|
| `Bytes.dfy` | byte strings: first index, splitting, joining, trimming |
| `SseReader.dfy` | the reader as a function of its bytes, and the declarative reading (lines, blocks, one event a block) |
| `SseStandard.dfy` | sections 9.2.5 and 9.2.6 of the WHATWG HTML Living Standard, stated independently, and the refinement |
| `SseStandardState.dfy` | the standard's last event ID string and reconnection time, and where the reader's differ |
| `SseEncoding.dfy` | the wire format a server writes, and the round trip |
| `SseClient.dfy` | the client object: the reading loop with its fields |
| `SseResume.dfy` | a server log replayed from after `Last-Event-ID` (section 9.2.4) |
| `SseLifecycle.dfy` | connect, read, lose, wait, reconnect, shut down: atomic steps of goroutines, for a server that sends anything |
| `Messages.dfy`, `Fanout.dfy` | messages; expansion of envelopes, oids, the loop between two bounded channels |
| `PubsubClient.dfy` | the fan-out loop as the client object runs it |
| `Dispatch.dfy` | commands, verb gate, publications and the grammar of a complete answer |
| `DispatchHandlers.dfy` | the dispatcher object: its handlers, one message at a time |
| `DispatchTask.dfy`, `DispatchRun.dfy` | one message's goroutine as a program counter; all of them interleaved |
| `DispatchAnswers.dfy` | what each event is answered with and what handling it changes, spelled out event by event |
| `DispatchAlone.dfy` | object and machine agree: a goroutine that runs alone does what the object does; Run can always return |
| `DispatchHistory.dfy` | fields, answers and goroutines of the interleaving told by the steps taken |
| `DispatchCounts.dfy`, `DispatchCancel.dfy` | counting over the whole log and the verb gate; the exec-cancel slot |
| `AtomicWrite.dfy`, `FileStore.dfy` | pops and atomic writes interleaved over inodes; one write alone |
| `PutFile.dfy` | dispatcher and file system as one machine: what put_file publishes and what the file holds |
| `Retry.dfy` | the attempt loop and its waits, in float64 and int64 |
| `Config.dfy`, `Registrations.dfy` | verb lists and tags; merging registrations and looking up a token |
| `Worker.dfy` | the parts joined into one system, and the results from the server's log to the answers |

A machine is a function `Next` over actions with a predicate `Enabled`; `Leads` says that a
list of actions takes one state to another. Results about runs quantify over every such
list: the scheduler, the network, the executor, the evaluator, the store and the file
system are all in the actions. Results about fields that only record something (a flag, a
counter, a history) are also stated over the list of actions, and every machine has a lemma
that it can go on to where it should end.

## Where the code departs from what one might expect

- A lone CR does not end a line (client.go:137, 153), which the standard says it does. The
  reader sees the standard's lines exactly on streams without one (`SameLinesExactly`), and
  `LoneCRDiffers` is a stream on which the events differ.
- An id is committed only together with a delivered event, and only if it is not empty
  (client.go:160-170); the standard keeps an id without data, an empty one, and none that
  holds a NUL. `SameIDExactly` says for which blocks both agree; the resume theorem asks for
  ids on events that carry data, as a log has them.
- A signed `retry` value, or one whose nanoseconds leave 64 bits, sets another delay than the
  standard's (client.go:199-206): `SameTimeExactly`.
- With overlapping execs the slot is overwritten and then cleared by whichever finishes
  first (handlers.go:26-35), so that a running exec may be out of reach of an exec.cancel:
  `OverlapLosesCancel` is such a run. Every registered exec is within reach at every moment
  of a run exactly when no two were ever registered at once (`CancellableExactlyWhenApart`).
- A put_file whose target has the form of a temporary name and does not exist yet can be
  seen half written (transfer.go:28); `IntactExactlyWhenSafe` gives the exact condition.
- Waits are computed in float64 and truncated to whole nanoseconds (retry.go:53). Among
  configurations whose first wait and cap are float64 values and whose products fit 64 bits,
  the closed form holds exactly when every power up to the cap is a whole number that
  float64 holds (`ClosedFormExactly`). `RoundingBreaksClosedForm` and
  `OverflowBreaksClosedForm` are configurations outside that range for which it fails.

## Model

| member | source | states |
|---|---|---|
| SseReader.DeliverIsBlocks | internal/sse/client.go:153-207 | for every list of lines the one-pass reader delivers exactly one event for each block of lines that has data, with the last id, the last type (or "message"), the last numeric retry and the data lines joined by LF |
| SseReader.AccumulatorMeaning | internal/sse/client.go:186-206 | inside a block the accumulator is, field by field, a summary of all lines seen: comments and unknown fields change nothing, nothing is delivered before the blank line |
| SseReader.ReadPrefix | internal/sse/client.go:137-151 | the events of any byte prefix are a prefix of the events of the whole stream |
| SseReader.ReadAppend | internal/sse/client.go:155-184 | a stream split right after a blank line reads as the concatenation of its parts, unless the second part starts with a BOM |
| SseReader.TextsWithoutBOM | internal/sse/client.go:258-261 | whether a line is the first matters only when the stream starts with a BOM |
| SseStandard.ReaderMeetsStandard | internal/sse/client.go:124-208 | on every stream whose CRs all belong to CRLFs the (type, data) sequence delivered equals that of the WHATWG algorithm, including BOM, comments, fields without colon, multi-line data, the default type and the dropped last block |
| SseStandard.SameLinesExactly | internal/sse/client.go:137-158 | the reader's lines are the standard's lines if and only if every CR belongs to a CRLF |
| SseStandard.LoneCRDiffers | internal/sse/client.go:137-153 | a concrete stream with lone CRs on which the standard delivers an event and the reader none |
| SseStandardState.SameIDExactly | internal/sse/client.go:160-198 | a block leaves reader and standard with the same id, whatever the id before it, if and only if it names no id, or has data and a last id that is neither empty nor holds a NUL, or has no data and only ids with a NUL |
| SseStandardState.LastIDMeetsStandard | internal/sse/client.go:160-198 | on streams made of such blocks the id resumed from is the standard's last event ID string |
| SseStandardState.SameTimeExactly | internal/sse/client.go:199-206 | a line leaves both with the same delay, whatever it was, if and only if its retry value is plain digits whose nanoseconds fit 64 bits, or no number to either |
| SseStandardState.DelayMeetsStandard | internal/sse/client.go:199-206 | on streams made of such lines the delay is the standard's reconnection time |
| SseStandardState.AtoiExactly | internal/sse/client.go:200 | the reader's numbers are exactly the decimal numerals, with or without a sign, of 64-bit integers, valued by place |
| SseStandardState.WrapIsModulo | internal/sse/client.go:203 | a delay that leaves 64 bits wraps around modulo 2^64 |
| SseEncoding.RoundTrip | tests/mock_server.go:149-155 | reading the concatenated encodings of any writable events delivers exactly those events, with empty data, leading spaces and data of many lines |
| SseEncoding.EncodeReads | tests/mock_server.go:149-155 | one encoded event is one whole block: it reads as itself and leaves nothing pending |
| SseEncoding.WireFormat | tests/mock_server.go:149-155 | the bytes written for an event with data of one line, without and with a type, and with an id |
| SseClient.Client.TakeField | internal/sse/client.go:190-206 | one field line changes the pending event and the reconnect delay as the field says, with Atoi's range and 64-bit wrap-around of the delay |
| SseClient.Client.SendPending | internal/sse/client.go:160-182 | a blank line commits a non-empty id, then sends the completed event unless the send is abandoned; the id stays committed |
| SseClient.Client.TakeText | internal/sse/client.go:160-206 | one line sends at most one event and leaves events, id and delay as specified |
| SseClient.Client.ReadStream | internal/sse/client.go:124-208 | over any body: events, last id and delay are those of the lines read; it stops exactly at the first poll that finds a cancel or close or at the first send that loses against one, and then closes the channel; it disconnects only when every line is read and no poll found one, and leaves the channel open |
| SseResume.KnownAfter | internal/sse/client.go:99-103 | with distinct ids the id held after k events finds position k of the log again |
| SseResume.ReadReplay | internal/sse/client.go:99-122 | any part of a replay delivers the next events of the log and no others; a whole replay delivers all of them |
| SseResume.WrittenLog | tests/mock_server.go:149-155 | encoded events with distinct ids form a log in this sense |
| SseLifecycle.ChannelSafety | internal/sse/client.go:72-243 | whatever bytes the connections carry, in every reachable state at most one goroutine can still send on or close the channel; it is closed at most once, never sent on afterwards, and once connected it is closed exactly when no goroutine is left; at most one event is enqueued after cancel or Close |
| SseLifecycle.ChannelSafetyBySteps | internal/sse/client.go:72-243 | over the steps of any run: at most one send after the first cancel or Close, none after the channel is closed, at most one closing; done exactly if there was a cancel or Close; one event enqueued for each send; the recorded connections are those made |
| SseLifecycle.ReconnectsWait | internal/sse/client.go:221-243 | every attempt to connect but the first has had a delay run out before it, after a lost connection as after a failed attempt |
| SseLifecycle.CanReadToTheEnd | internal/sse/client.go:131-183 | unless told to stop, a reader can always go on to the end of its connection, and has then sent everything the rest of the bytes means |
| SseLifecycle.CanReconnect | internal/sse/client.go:221-243 | after a loss the client can always come back, asking for what follows the last id, and takes whatever the server sends |
| SseLifecycle.DeliveredAsRead | internal/sse/client.go:91-243 | whatever bytes the connections carry, the events enqueued are, connection by connection, exactly the events those bytes mean (for the newest connection the first of them), and each connection asks for the last non-empty id enqueued before it |
| SseLifecycle.ResumeWithoutLossOrDuplication | internal/sse/client.go:91-243 | when every connection carries a part, cut at any byte, of the replay of a log from after the id it asked for, the events enqueued are always a prefix of the log |
| SseLifecycle.WholeReplayDeliversAll | internal/sse/client.go:91-183 | a replay that arrives whole and is read to its end leaves nothing of the log out, however earlier connections ended |
| Fanout.EventMessagesByKey | internal/pubsub/client.go:224-254 | whatever the map order, an event that is no "oid" and decodes yields for each key exactly that key's items, once and in order, with its envelope's oid if that is not empty; other events yield nothing |
| Fanout.OIDIsLastSet | internal/pubsub/client.go:224-237 | the current oid is the last one set: by an "oid" event, or by an envelope with a non-empty oid; an item that does not decode sets none |
| Fanout.OIDAttribution | internal/pubsub/client.go:224-245 | the k-th message lies in the stretch of one event, is an item of that event's envelope and carries the oid in force there, so that all messages of an envelope share it |
| Fanout.MessageOID | internal/pubsub/client.go:224-245 | the k-th message is an item of the envelope of the event that yielded it and carries the last oid named up to that event: the data of an "oid" event or the non-empty oid of an envelope, else the first oid |
| Fanout.Conserved | internal/pubsub/client.go:211-257 | messages taken, then waiting, then unsent, then any expansion of the queued events are an expansion of everything received |
| Fanout.CanDrain | internal/pubsub/client.go:213-256 | unless told to stop, the loop can always go on until everything received is expanded and handed over |
| PubsubClient.Client.SendItems | internal/pubsub/client.go:240-253 | sends a key's items in order, all of them or a prefix before a stop |
| PubsubClient.Client.SendEnvelope | internal/pubsub/client.go:239-254 | sends all keys in the order given, or a prefix before a stop |
| PubsubClient.Client.HandleEvent | internal/pubsub/client.go:224-254 | one event sends exactly its messages, or a prefix before a stop; the oid becomes the data of an "oid" event or the non-empty oid of an envelope, and stays otherwise |
| PubsubClient.Client.ProcessEvents | internal/pubsub/client.go:211-257 | the loop sends an expansion of the events it took, stops exactly at the first select that finds a cancel or close or the first send that loses against one, keeps the oid of those events and closes the channel; unstopped it takes all events |
| Dispatch.VerbOfEvent | internal/dispatcher/dispatcher.go:85-90 | the verb cut from a controlled event's name is that command's verb |
| Dispatch.TraceShape | internal/dispatcher/dispatcher.go:110-174 | a complete trace has its acknowledgement first and only there, none for shutdown and rename; a worker.done only last, directly after a result; every publication carries the message's oid |
| Dispatch.TraceCounts | internal/dispatcher/handlers.go:252-271 | a complete trace holds exactly one acknowledgement if the command gets one and exactly one outcome if one is owed |
| DispatchAnswers.ExecAnswer | internal/dispatcher/handlers.go:12-58 | worker.exec: acknowledgement, a result with the executor's code (130 failed after a cancel, 99 failed otherwise), done; denied or without "cmd" 99 unasked |
| DispatchAnswers.EvalAnswer | internal/dispatcher/handlers.go:73-95 | worker.eval: eval.done, or a result with code 99 and no done |
| DispatchAnswers.PutFileAnswer | internal/dispatcher/handlers.go:97-144 | worker.put_file: fail at the first request that fails, done after both; denied or without a field 99 unasked |
| DispatchAnswers.GetFileAnswer | internal/dispatcher/handlers.go:146-186 | worker.get_file: the same with open and push |
| DispatchAnswers.FileExistsAnswer | internal/dispatcher/handlers.go:221-236 | worker.file_exists: one reply with the file system's answer |
| DispatchAnswers.CapableAnswer | internal/dispatcher/handlers.go:188-219 | worker.capable: a reply unless a tag asked for is missing |
| DispatchAnswers.AckOnly | internal/dispatcher/dispatcher.go:124-169 | worker.ready, worker.exec.cancel and the notifications are acknowledged and nothing else |
| DispatchAnswers.NoAnswer | internal/dispatcher/dispatcher.go:124-128 | worker.shutdown and worker.rename are answered with nothing |
| DispatchAnswers.UnknownAnswer | internal/dispatcher/dispatcher.go:170-173 | any other event is acknowledged and gets a result with code 99, no done |
| DispatchAnswers.ExecHandled | internal/dispatcher/handlers.go:12-58 | handling a worker.exec adds exactly its three publications to the log |
| DispatchAnswers.ShutdownHandled | internal/dispatcher/handlers.go:238-250 | worker.shutdown closes the client, cancels the run if it can, stores 10, and changes nothing else |
| DispatchAnswers.ExecCancelHandled | internal/dispatcher/handlers.go:60-71 | worker.exec.cancel cancels the exec in the slot and no other |
| DispatchAnswers.RenameHandled | internal/dispatcher/dispatcher.go:160-167 | worker.rename tells the publisher a non-empty new name |
| DispatchAnswers.OthersHandled | internal/dispatcher/dispatcher.go:130-173 | all other messages change the log only, but for an exec that ran, which leaves the slot empty |
| DispatchHandlers.Dispatcher.HoldsAll | internal/dispatcher/handlers.go:195-210 | the nested loops find out whether every requested tag is held |
| DispatchHandlers.Dispatcher.HandleCapable | internal/dispatcher/handlers.go:188-219 | replies exactly if every requested tag is held |
| DispatchHandlers.Dispatcher.Dispatch | internal/dispatcher/dispatcher.go:110-174 | one message alone, through the gate and its handler: all shared fields become what the message and the answers asked for dictate; a shutdown closes the client, a rename tells the new name |
| DispatchAlone.RunAloneIsHandled | internal/dispatcher/handlers.go:12-250 | a goroutine that runs alone from spawned to gone leaves log, slot, cancelled execs, context and code exactly as handling its message does |
| DispatchAlone.CanRunAlone | internal/dispatcher/dispatcher.go:74-78 | from any state a goroutine can run alone to its end with any answers: no handler step waits for another handler |
| DispatchAlone.DispatchAsMachine | internal/dispatcher/dispatcher.go:110-174 | the object that handles a message and the machine in which its goroutine runs alone, given the same answers, end with the same shared fields |
| DispatchAlone.RunCanReturn | internal/dispatcher/dispatcher.go:63-81 | from every reachable state Run can still return: the wait group comes down to zero |
| DispatchTask.FitsStep | internal/dispatcher/dispatcher.go:110-174 | every step of a message's goroutine keeps its trace in step with its program counter and the answers it has heard |
| DispatchRun.GroupStep | internal/dispatcher/dispatcher.go:63-81 | the wait-group counter always equals the number of live handlers |
| DispatchRun.EveryTraceComplete | internal/dispatcher/dispatcher.go:63-81 | under every interleaving, when Run returns no handler is live and each message's projection of the log is exactly the trace its answers dictate |
| DispatchRun.ShutdownCodeVisible | internal/dispatcher/handlers.go:238-250 | when Run returns the code is 10 exactly if a shutdown was dispatched, although the run is cancelled before the code is stored |
| DispatchHistory.ContextBySteps | internal/dispatcher/handlers.go:246-248 | the context is done exactly if it was cancelled from outside or by a shutdown |
| DispatchHistory.CancelledBySteps | internal/dispatcher/handlers.go:65-67 | an exec's context is cancelled exactly if an exec.cancel that took its cancel function has called it |
| DispatchHistory.SlotBySteps | internal/dispatcher/handlers.go:26-35 | the slot is as the last store or clear of any exec left it |
| DispatchHistory.HeardIsWhatWasAnswered | internal/dispatcher/handlers.go:30-39 | what a handler heard are the answers it was given, and it took the cancelled-by-user branch exactly if it found itself cancelled after a failure |
| DispatchHistory.OneGoroutineEach | internal/dispatcher/dispatcher.go:63-79 | one goroutine for each message received, in order, none after the loop was left |
| DispatchHistory.AnsweredAsGiven | internal/dispatcher/dispatcher.go:63-81 | when Run returns, each message's projection of the log is a complete trace for the answers it was given |
| DispatchHistory.ExecAnsweredInRun | internal/dispatcher/handlers.go:12-58 | under every interleaving an allowed exec with a command is acknowledged and answered with the code its executor gave, 130 if it failed cancelled, 99 otherwise |
| DispatchHistory.ShutdownByEvent | internal/dispatcher/handlers.go:238-250 | when Run returns the code is 10 and the client closed if a "worker.shutdown" was received, else 0 and open |
| DispatchCounts.CountsMatchMessages | internal/dispatcher/dispatcher.go:124-174 | when Run returns the whole log holds one acknowledgement for each message that gets one and one outcome for each message owed one |
| DispatchCounts.OnlyAllowedVerbsAct | internal/dispatcher/dispatcher.go:133-153 | in every reachable state a goroutine that executes, evaluates or touches a file belongs to a controlled command whose verb is allowed |
| DispatchCancel.SlotBelongsToARegisteredExec | internal/dispatcher/handlers.go:26-35 | a non-empty slot belongs to an exec that has stored and not yet cleared, the last one to store; it is empty once all have cleared |
| DispatchCancel.CancellableExactlyWhenApart | internal/dispatcher/handlers.go:26-35 | over every run: each registered exec is in the slot in every state if and only if no two execs are registered at once in any state |
| DispatchCancel.CancelledByUserIsTruthful | internal/dispatcher/handlers.go:37-45 | the cancelled-by-user branch is taken only after an exec.cancel reached that exec's context or the run's context was cancelled |
| DispatchCancel.CancelReachesTheExec | internal/dispatcher/handlers.go:60-66 | if execs never overlap, an exec.cancel that reads the slot while an exec is registered takes that exec's cancel function |
| DispatchCancel.CancelHitsItsTarget | internal/dispatcher/handlers.go:65-67 | whatever the others do in between, it then cancels that context and no other |
| DispatchCancel.OverlapLosesCancel | internal/dispatcher/handlers.go:26-35 | a run of two overlapping execs in which one is still executing and the slot is empty |
| AtomicWrite.NeverMixed | internal/filetransfer/transfer.go:22-55 | stopped after any step of any interleaving of any number of calls, every path holds its original content or the complete bytes of one call that renamed onto it; a path nobody targets is unchanged |
| AtomicWrite.IntactExactlyWhenSafe | internal/filetransfer/transfer.go:28-32 | targets stay intact in every run if and only if none is a temporary name that does not exist yet |
| AtomicWrite.UnsafeTargetSeenHalfWritten | internal/filetransfer/transfer.go:28-32 | for any such target, a run that shows it half written |
| AtomicWrite.NoTempLeft | internal/filetransfer/transfer.go:34-38 | once all calls have returned and no step of the run was a failed removal, no temporary file is left |
| AtomicWrite.OutcomeIsTruthful | internal/filetransfer/transfer.go:22-55 | a call that has returned leaves its target with exactly the bytes stored on the server if it succeeded, unchanged if it failed, over all failure points including a pop that breaks off, unless another call renamed onto it (targets that are no fresh temporary names) |
| AtomicWrite.SucceedsExactlyWithoutFailure | internal/filetransfer/transfer.go:22-55 | a call that has returned reports success if and only if none of its requests failed |
| AtomicWrite.CanSucceed | internal/filetransfer/transfer.go:22-55 | a call can always go on, on its own, until its target holds the bytes stored on the server |
| PutFile.PublishedIsTruthful | internal/dispatcher/handlers.go:97-138 | in every reachable state of dispatcher and file system together: a put_file.done in the log means the target of that message holds exactly the bytes stored on the server, a put_file.fail that it is unchanged, unless another write succeeded on it (targets that are no fresh temporary names) |
| PutFile.CanBeDone | internal/dispatcher/handlers.go:112-143 | a handler about to pop can go on until put_file.done is what is left to publish and the file holds the bytes |
| PutFile.CanBeServed | internal/dispatcher/handlers.go:97-144 | from the message on: an allowed put_file with its fields can be acknowledged, its target get the bytes stored, and put_file.done be published |
| FileStore.Store.Copy | internal/filetransfer/transfer.go:40-43 | the copy succeeds exactly without a fault, then holds the whole content, and touches no other file |
| FileStore.Store.WriteFileAtomic | internal/filetransfer/transfer.go:22-55 | succeeds exactly when no request fails; then only the target changes, to the content; otherwise at most a temporary file is added, and only when its removal failed too |
| Retry.Do | internal/retry/retry.go:25-62 | at most MaxAttempts calls, none after a success, none once the context is cancelled, and none after a wait that it ended; the error is the last call's, or the context's exactly when no call was made; the waits slept are the first of the sequence |
| Retry.ClosedFormExactly | internal/retry/retry.go:46-57 | on any float64 hardware, when first wait and cap are float64 values whose products fit 64 bits: wait k is InitialWait times the k-th power, capped, for all k, if and only if every power up to the cap is a whole number that float64 holds |
| Retry.WholeMultiplierClosed | internal/retry/retry.go:53-56 | in that range every whole multiplier meets the closed form when the cap is at most 2^53 nanoseconds |
| Retry.RoundingBreaksClosedForm | internal/retry/retry.go:53 | with multiplier 1 and a first wait of 2^53 + 1 nanoseconds wait 1 is another number, on any float64 hardware |
| Retry.OverflowBreaksClosedForm | internal/retry/retry.go:53-56 | with a product beyond 64 bits there is float64 hardware on which the cap is missed |
| Retry.SomeFloat64 | internal/retry/retry.go:53 | hardware as assumed here exists |
| Retry.CapFitsExactly | internal/retry/retry.go:64-71 | 2^n seconds fit a 64-bit duration if and only if n is at most 33 |
| Retry.BackoffWaits | internal/retry/retry.go:64-71 | for 1 to 33 attempts every wait is exactly 2^k seconds in float64, below the cap and inside 64 bits |
| Retry.DoWithBackoff | internal/retry/retry.go:64-71 | an uncancelled run that uses up n attempts sleeps 2^(n-1) - 1 seconds in all |
| Config.TrimSpaceMeaning | internal/config/config.go:273-281 | trimming cuts off exactly the white space at both ends: what is left is a piece of the string, everything outside it is white space, and neither end of it is |
| Config.SpacesSpelledOut | internal/config/config.go:273-281 | the characters that count as white space |
| Config.ResolveAllowedVerbs | internal/config/config.go:264-286 | a verb is in the result exactly if the allow list names it (or is empty and it is one of the five) and the deny list does not |
| Config.AllowsSpelledOut | internal/config/config.go:264-286 | allowed are the five verbs by name, or the trimmed non-blank entries if there are entries at all, less the trimmed denied ones |
| Config.AllowsIsAboutEntries | internal/config/config.go:264-286 | order and duplicates in either list do not matter, and deny wins |
| Config.SplitTags | internal/config/config.go:243-256 | the non-blank trimmed parts between commas, in order |
| Config.TrimmedMeaning | internal/config/config.go:247-254 | the trimmed parts are exactly the parts that are not blank, trimmed |
| Config.TagsRoundTrip | internal/config/config.go:243-256 | plain tags joined with commas split back into the same tags |
| Registrations.MergeRegistrations | internal/config/config.go:388-423 | the merged list holds tables only, exactly one for each id registered, each being the last new registration of its id or else the last usable stored one, whatever order the map yields |
| Registrations.TableKeys | internal/config/config.go:397-421 | which keys of a table hold id, token and URL, read and written, and that an empty URL is not written |
| Registrations.StoredStays | internal/config/config.go:388-423 | a stored table with an id is in the merged list with its token and URL unless a later or new one has the same id |
| Registrations.MergeIdempotent | internal/config/config.go:388-423 | merging the same registrations into what a merge wrote gives exactly the same entries, in any output order |
| Registrations.Config.ResolveToken | internal/config/config.go:294-317 | token and URL come from the first registration of the configured id, or from the only one when no id is set; a URL that is set stays; otherwise nothing changes |
| Registrations.FirstWithMeaning | internal/config/config.go:300-309 | the registration found is the first one of that id, and none is found exactly if there is none |
| Registrations.MergeThenResolve | internal/config/config.go:294-423 | after a merge, the lookup of a new id finds exactly the token and URL of the last new registration with that id |
| Worker.NothingLostBetween | internal/worker/worker.go:72-111 | whatever the server sends: messages dispatched, waiting, unsent and still queued are in order an expansion of exactly the events read |
| Worker.FromBytesToDispatch | internal/worker/worker.go:72-111 | the same from the bytes: those messages are an expansion of what the connections' bytes mean, one connection after the other |
| Worker.EndToEnd | internal/worker/worker.go:72-111 | from a server's log to the dispatcher: the events read are a prefix of the log, and messages dispatched, waiting, unsent and still queued are in order an expansion of exactly those events |
| Worker.WholeLogDispatched | internal/worker/worker.go:72-111 | once a whole replay is read and both channels are empty, the messages dispatched are an expansion of the whole log |
| Worker.EveryMessageAnswered | internal/worker/worker.go:107-117 | in the joined system, whatever the server sends, when Run returns every message dispatched has been answered completely and the exit code tells whether one was a shutdown |
| Worker.ConfiguredVerbsOnly | internal/worker/worker.go:106-108 | whenever a handler acts, its verb is allowed by the configured allow and deny lists |
| Worker.PartsPassOn | internal/worker/worker.go:72-111 | in the joined system each part can pass on what it has as soon as the next can take it, and do whatever it could do alone |
| Worker.RunReturnsOnlyWhenTold | internal/dispatcher/dispatcher.go:63-72 | the receiving loop ends only after a cancel or Close; unless that came from outside, a "worker.shutdown" was dispatched and the exit code is 10 |

## Left out

- HTTP requests, URLs, status handling, registration calls and the JSON, YAML and TOML codecs: library code; decoding an event's data is an arbitrary partial function.
- Process execution, JavaScript evaluation, host names, PID files, signals, services, command line, logging and log rotation: foreign calls or plumbing; executor and evaluator are arbitrary answers.
- Texts inside publications (return text, output, workerid, filekey, filepath, error, tags): publications carry their kind, the oid, the return code and a file's existence.
- Data races on unlocked fields: each field access or documented critical section is one atomic step.
- Wall-clock time: waits are numbers, a timer firing is a step; nothing is said about how long a blocked read lasts after Close.
- SseStandard.ReaderMeetsStandard: compares bytes; the standard's UTF-8 decoding of malformed bytes is not modelled. Ids and retry values are compared in SseStandardState.
- SseLifecycle.ChannelSafety: one call of Connect for a client, as the program makes it.
- SseLifecycle.ReconnectsWait: counts the delays that ran out; how long each is (the reconnect delay of SseClient) is not part of that machine.
- SseResume.ReadReplay: a connection's body does not begin with an optional BOM in front of the log entries.
- Worker.EndToEnd: each part learns of a cancel or Close in a step of its own, any time after it, so that more runs are allowed than the code has.
- DispatchHandlers.Dispatcher.Dispatch: one message alone; what other goroutines change while a handler waits is in DispatchRun, and the bytes and files of a put_file are in PutFile.
- PutFile.PublishedIsTruthful: the files of get_file and file_exists are answers, not file-system steps.
- DispatchRun.EveryTraceComplete: the interleaving is on values, not on the dispatcher object, because several goroutines share that object; the object's own methods are in DispatchHandlers.
- Retry.Do: infinities and NaN are no reals; a product beyond the float64 range is a real number that does not fit 64 bits, which the conversion turns into anything.
- Registrations.MergeRegistrations: only lists of tables are read as stored registrations, as in the code; other shapes count as none.
- Directories as such: creating a directory and a temporary file may fail, but directories are no files here.
