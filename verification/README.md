# Proofs about the proxy's protocols, codecs and state machines

A Dafny model of the parts of Tightrope where state, lexing or concurrency is hard,
with proofs of what those parts promise. `dafny verify dfyconfig.toml` checks all of it.

Code that changes things step by step is modelled by classes and methods with loops,
each proved against a specification function; what the code promises is then proved
about that function, for every input, every run or every interleaving. Lemmas whose names
end in `Says`, `Say` or `Means` say what it computes without it, in terms of bytes, lines,
fields or earlier events. Everything the code asks of its surroundings (an upstream answer, a clock, a database record, whether
a connection attempt succeeds) is an arbitrary value the theorems quantify over.

| files | what they model |
|---|---|
| `Utf8`, `Utf16` | the UTF-16 decoder, the code-point writer and the byte scrubber of the WebSocket path |
| `JsonText`, `JsonSlice`, `JsonEscape` | cutting a JSON object out of junk, escaping control bytes in strings, against a grammar of JSON texts |
| `JsonScrub`, `PayloadRepair` | all of these put together: from a socket payload to the text that is parsed |
| `SseFraming`, `SseLines` | writing and reading server-sent events |
| `AsyncExecutor`, `ExecutorProtocol` | the bounded task queue with its worker threads, every interleaving |
| `BridgePool`, `BridgeProtocol`, `BridgeProperties`, `BridgeRetry`, `BridgeRefinement` | the pool of upstream sessions: the map with its critical sections, then every interleaving of threads over it with their mutexes, and why each critical section is a run of the protocol's steps |
| `Json`, `ToolCalls`, `ToolReading`, `ChatStream`, `ChatFinish`, `ChatCompletion`, `ChatCollected`, `ChatAgreement`, `ChatPieces`, `ChatText` | translating a response stream into a chat stream, and into a chat completion, and when the two agree |
| `RequestBody`, `RequestMeaning`, `ErrorPolicy`, `ErrorMeaning`, `Orchestration`, `OrchestrationProperties`, `OrchestrationMeaning` | carrying out a responses request: guard, credentials, token refresh, retries, failover |
| `LagAlert`, `UsageRefresh` | two sets of counters that stand for histories |
| `CodexLines`, `CodexGrammar`, `CodexConfig`, `CodexMeaning`, `CodexAgreement`, `CodexVerdict`, `CodexFiles` | the configuration rewriter and the inspector that judges its result |
| `Options`, `Sequences` | shared helpers |

## What came out differently from what the code suggests

Each of these is a theorem below with its exact condition; where there is a second name, it is an input.

- The UTF-16 decoder drops U+0000 wherever it stands, so decoding undoes encoding exactly for texts without it (`Utf16.RoundTripExactly`).
- The control-byte escaper also drops DEL, which section 7 of RFC 8259 allows unescaped in strings, so a valid JSON text passes unchanged exactly if it has none (`JsonEscape.JsonTextUnchanged`).
- Two threads connecting under one key at once: the loser runs on the winner's session without the account check every other path makes. A request can come to run on a session of an account not its own exactly if it may create sessions and would fail that check (`BridgeProperties.LostRaceCrossesAccounts`, `BridgeProperties.LostRaceHandsOver`).
- A shutdown or start that overlaps a shutdown: an accepted task can be lost without any further overlap, exactly if it is a shutdown with tasks queued or a start after the joined threads have left (`ExecutorProtocol.OverlapLosesIff`, `ExecutorProtocol.OverlappingShutdownsLoseTask`). A start before they have left keeps the shutdown from ever returning instead (`ExecutorProtocol.StartHangsShutdownIff`). All other executor claims are about runs without overlap.
- A printed object with enough zero bytes in its strings is taken for UTF-16 once it is cut out, and lost; every other object is recovered from whatever surrounds it (`PayloadRepair.RecoveredIff`, `PayloadRepair.AnObjectIsMisread`).
- A completion event that carries tool fields saying nothing new is skipped whole, its finish chunk with it, and the client is told that the stream was cut short (`ChatStream.CompletionFinishesUnlessStale`, `ChatAgreement.ACompletionGoesMissing`).
- Pieces of arguments that name no call all go to call 0, so a client's calls are those of the collected completion exactly if no call but the first is spelled out in pieces (`ChatPieces.SpelledStreamAgreesIff`, `ChatPieces.ArgumentsLandInTheFirstCall`).
- A collected response with an `error` key, even one that is null, is not turned into a chat completion (`ChatAgreement.StreamAgreesWithBody`).
- A result that says the account is exhausted can be retried on that account, as an incomplete stream (`ErrorPolicy.ExhaustedIsRetriedOnlyIfIncomplete`, `ErrorPolicy.AnExhaustedResultIsRetried`).
- Extracting error details stops early, which costs nothing but a `param` that only events behind the stop name (`ErrorPolicy.EarlyStopMissesOnlyParam`, `ErrorPolicy.AParamIsLost`).
- The rewriter takes a section header with a comment for no header (`CodexFiles.CommentedHeaderIsMissed`) and replaces a `model_provider` line inside a section; `CodexFiles.RewrittenIsConfiguredIff` says of every file whether the inspector accepts the result.
- A line that ends in a second carriage return loses it when the file is next read, so rewriting twice is rewriting once exactly if no kept line does (`CodexFiles.RewritingSettlesIff`, `CodexFiles.AStrayCrDoesNotSettle`).

## Assumptions

- Session store (`Orchestration.Plausible`): the response ids it remembers are not blank, which `native/proxy/session/src/http_bridge.cpp` ensures by trimming them and dropping empty ones, and refreshing an account's token yields credentials of that account.
- Executor: no `start` or `shutdown` while a shutdown is under way (`ExecutorProtocol.LifecycleApart`). `ExecutorProtocol.OverlapLosesIff` and `ExecutorProtocol.StartHangsShutdownIff` say what one such call does.
- Usage refresh, for the claim that at most one refresh runs: each refresh that started is completed at most once, and nothing else is (`UsageRefresh.EndsWhatBegan`).
- An upstream body or event that does not parse as a JSON object is represented by a JSON value that is not an object. Serializing a JSON value always succeeds.

## Model

| member | source | states |
|---|---|---|
| Utf8.IsCharIsTheGrammar | native/proxy/src/ws_proxy.cpp:390-444 | the width tests used by the scrubber describe exactly UTF8-char of the grammar in section 4 of RFC 3629 |
| Utf8.EncodeIsChar | native/proxy/src/ws_proxy.cpp:217-239 | the encoding of every scalar value is one char of that grammar and decodes to the scalar |
| Utf8.DecodeIsScalar | native/proxy/src/ws_proxy.cpp:217-239 | conversely every char of the grammar is the encoding of a scalar value, so encoding is a bijection |
| Utf8.EncodeKeepsOrder | native/proxy/src/ws_proxy.cpp:217-239 | of two scalars the smaller has the smaller encoding, compared byte by byte; with the rows above this leaves one encoding only |
| Utf8.WellFormedIffEncoded | native/proxy/src/ws_proxy.cpp:217-239 | a text is well-formed exactly if it is the encoding of some scalar values |
| Utf8.AppendCodePoint | native/proxy/src/ws_proxy.cpp:217-239 | appends the one to four bytes of every code point up to 0x10FFFF, zero and surrogates included, and nothing above |
| Utf8.MeasureChar | native/proxy/src/ws_proxy.cpp:395-438 | the scrubber's byte tests find a char at an index exactly if the grammar has one there, with its width |
| Utf8.StripInvalidBytes | native/proxy/src/ws_proxy.cpp:390-444 | the loop computes the scrubbing of its input |
| Utf8.ScrubSound | native/proxy/src/ws_proxy.cpp:390-444 | the output is well-formed and a subsequence of the input |
| Utf8.ScrubKeepsPrefix | native/proxy/src/ws_proxy.cpp:390-444 | scrubbing a well-formed text followed by anything keeps that text and scrubs the rest |
| Utf8.ScrubFixpoint | native/proxy/src/ws_proxy.cpp:390-444 | exactly the well-formed texts are left unchanged, and a second pass changes nothing |
| Utf16.DecodeUnits | native/proxy/src/ws_proxy.cpp:285-322 | the loop over code units, with its pending surrogate, computes the run of the unit machine or rejects where it is stuck |
| Utf16.TryDecodeUtf16Json | native/proxy/src/ws_proxy.cpp:241-323 | byte-order detection and decoding compute the decoding of the payload, or nothing |
| Utf16.DetectSays | native/proxy/src/ws_proxy.cpp:246-273 | the byte order is that of the mark; else, of the first 64 units at most, seven in ten are zero on one side and at most three in ten on the other; else there is none |
| Utf16.AcceptedUnits | native/proxy/src/ws_proxy.cpp:285-322 | a unit sequence is accepted with a text exactly if, zero units aside, it is the UTF-16 encoding (section 2.1 of RFC 2781) of scalars whose UTF-8 encoding is that text |
| Utf16.DecodedIsWellFormed | native/proxy/src/ws_proxy.cpp:241-334 | for every input, a returned text is well-formed UTF-8, so the scrub that follows leaves it unchanged |
| Utf16.DecodeEncoded | native/proxy/src/ws_proxy.cpp:241-323 | encoded with a byte order mark in either order, scalars decode to the UTF-8 encoding of those that are not U+0000 |
| Utf16.RoundTripExactly | native/proxy/src/ws_proxy.cpp:241-323 | decoding gives back all of a non-empty text exactly if it has no U+0000 |
| JsonSlice.TryExtractJsonObjectSlice | native/proxy/src/ws_proxy.cpp:336-380 | returns the shortest prefix, from the first opening brace on, in which braces outside strings balance, or nothing if there is none |
| JsonSlice.SliceUnique | native/proxy/src/ws_proxy.cpp:336-380 | that description fits one result only |
| JsonSlice.ObjectBalances | native/proxy/src/ws_proxy.cpp:336-380 | a printed JSON object balances at its last byte and at none before |
| JsonSlice.SliceUndoesPrint | native/proxy/src/ws_proxy.cpp:336-380 | from a printed JSON object between any brace-free junk and any tail, exactly the object is cut out |
| JsonEscape.EscapeControlBytes | native/proxy/src/ws_proxy.cpp:446-511 | the loop computes the escaping of its input |
| JsonEscape.EscapeSettles | native/proxy/src/ws_proxy.cpp:446-511 | for any bytes, the output leaves the string lexer where the input does, and escaping it again changes nothing |
| JsonEscape.EscapePlacesControls | native/proxy/src/ws_proxy.cpp:382-388 | raw control bytes remain only as JSON whitespace outside strings or right behind a backslash inside one |
| JsonEscape.ValueBecomes | native/proxy/src/ws_proxy.cpp:446-511 | a JSON text with raw control bytes in its strings becomes the text of the same tree with each of them in its short escape, or dropped if section 7 of RFC 8259 has none |
| JsonEscape.JsonTextUnchanged | native/proxy/src/ws_proxy.cpp:446-511 | a JSON text passes unchanged exactly if no raw DEL stands in its strings |
| JsonEscape.RecoverObject | native/proxy/src/ws_proxy.cpp:446-511 | the slice of a printed object between junk and tail escapes to the printed clean object |
| JsonEscape.CleanStandsForTheSame | native/proxy/src/ws_proxy.cpp:446-511 | read by section 7 of RFC 8259, a cleaned string denotes the characters the string did, but for control bytes without a short escape |
| JsonScrub.ValueScrubs | native/proxy/src/ws_proxy.cpp:390-444 | scrubbing a printed JSON value with any bytes in its strings is printing it with each raw stretch of them scrubbed, and works the same next to anything |
| PayloadRepair.TrimWsPayloadEdges | native/proxy/src/ws_proxy.cpp:192-215 | drops a byte order mark, then control bytes and blanks at both ends |
| PayloadRepair.TrimMeans | native/proxy/src/ws_proxy.cpp:192-215 | what is left is the payload from its first to its last byte that is neither control, blank nor DEL, a byte order mark in front not counted |
| PayloadRepair.NormalizeWebsocketRequestPayload | native/proxy/src/ws_proxy.cpp:325-334 | the decoded or given payload, its edges trimmed |
| PayloadRepair.RepairPayload | native/proxy/src/ws_proxy.cpp:523-553 | the text handed on: the scrubbed payload, else the object cut out of it, else that with its strings escaped, whichever parses first, or none |
| PayloadRepair.RepairSays | native/proxy/src/ws_proxy.cpp:523-553 | any payload: the first that parses of it trimmed and scrubbed, the object cut out of that, and that object with its control bytes escaped, or the escaped payload if there is no object |
| PayloadRepair.RepairUnique | native/proxy/src/ws_proxy.cpp:523-553 | the description of the text handed on fits one result only |
| PayloadRepair.RepairWellFormed | native/proxy/src/ws_proxy.cpp:523-553 | for any payload and any parser, the text handed on is well-formed UTF-8 |
| PayloadRepair.EncodingDoesNotMatter | native/proxy/src/ws_proxy.cpp:241-334 | any text sent as UTF-16 with a byte order mark, in either order, is repaired to the same result as its UTF-8 encoding without U+0000 |
| PayloadRepair.PaddedUtf16IsRead | native/proxy/src/ws_proxy.cpp:325-334 | an odd number of edge bytes before a UTF-16 text hides it from the first look but not from the second, behind the trimming |
| PayloadRepair.ObjectIsRecovered | native/proxy/src/ws_proxy.cpp:523-553 | from any junk without a brace, a JSON object whose strings hold any bytes, and any tail: the result is the payload trimmed and scrubbed, the object with its strings scrubbed, or that with its control bytes escaped, in this order as each parses; the last is a valid JSON text |
| PayloadRepair.RecoveredIff | native/proxy/src/ws_proxy.cpp:241-334 | an object is recovered so from every payload that holds it and for every parser, if and only if its scrubbed text is not taken for UTF-16 |
| PayloadRepair.AnObjectIsMisread | native/proxy/src/ws_proxy.cpp:254-273 | an object that is: a string with every other byte zero |
| SseFraming.WriteSse | native/server/src/http_runtime_utils.cpp:186-190 | writes the frames of the events, one behind the other |
| SseFraming.ParseSseEvents | native/proxy/src/upstream_transport.cpp:464-505 | the line loop computes the events of a text |
| SseFraming.ParseFrame | native/proxy/src/upstream_transport.cpp:464-505 | a framed event without line feeds is read back trimmed, unless it is blank or the end marker |
| SseFraming.RoundTrip | native/server/src/http_runtime_utils.cpp:170-192 | reading what was written gives the events before the first [DONE], if and only if each of these is non-empty, trimmed and free of line feeds |
| SseLines.ParseMeans | native/proxy/src/upstream_transport.cpp:464-505 | any text: its events are, for each stretch between blank lines (CRLF included), the non-empty trimmed data of its `data:` lines joined by LF, up to the first end marker |
| SseLines.OtherLinesAreIgnored | native/proxy/src/upstream_transport.cpp:478-495 | a line that is neither blank nor `data:` changes nothing, wherever it stands |
| SseLines.TrimMeans | native/proxy/src/upstream_transport.cpp:464-505 | trimming takes white space off both ends, all of it and nothing else |
| AsyncExecutor.Executor.Start | native/server/src/async_executor.cpp:19-38 | the new fields: accepting, not stopping, and 4 to 16 workers unless there are some already |
| AsyncExecutor.Executor.Enqueue | native/server/src/async_executor.cpp:72-88 | accepts exactly if accepting, not stopping and below the bound, and then appends the task |
| AsyncExecutor.Executor.BeginShutdown | native/server/src/async_executor.cpp:50-58 | stops accepting and takes over the threads to be joined |
| AsyncExecutor.Executor.EndShutdown | native/server/src/async_executor.cpp:66-70 | clears queue, count and the stopping flag |
| AsyncExecutor.Executor.TakeTask | native/server/src/async_executor.cpp:95-103 | a worker past its wait leaves, or takes the oldest task |
| AsyncExecutor.Executor.FinishTask | native/server/src/async_executor.cpp:107-115 | gives back the task's place and reports idleness |
| ExecutorProtocol.RunKeeps | native/server/src/async_executor.cpp:17-129 | the invariant holds after every run, whatever the interleaving of callers and workers |
| ExecutorProtocol.BoundedAndInOrder | native/server/src/async_executor.cpp:72-117 | queued and running tasks never exceed 512; the tasks started are, in order, the first accepted ones, each once |
| ExecutorProtocol.ShutdownDiscardsNothing | native/server/src/async_executor.cpp:60-70 | when a shutdown reaches its last lines every accepted task has been started and has returned |
| ExecutorProtocol.IdleMeansDone | native/server/src/async_executor.cpp:45-48 | the wait for idleness succeeds if and only if every task accepted so far has returned |
| ExecutorProtocol.LastFinishReports | native/server/src/async_executor.cpp:107-115 | a worker that finishes a task finds queue and count empty, and so wakes the waiters, exactly if every accepted task has then returned |
| ExecutorProtocol.AcceptedIff | native/server/src/async_executor.cpp:72-88 | over any run: a task is accepted if and only if the last lifecycle call was a start and fewer than 512 accepted tasks have not returned |
| ExecutorProtocol.NoLostWakeup | native/server/src/async_executor.cpp:91-103 | a waiting task always has a worker awake; while any worker sleeps, nothing is stopping and there is a ready one for every queued task |
| ExecutorProtocol.DrainingAdvances | native/server/src/async_executor.cpp:91-117 | during a shutdown each worker step uses up a measure nothing refills |
| ExecutorProtocol.ShutdownCompletes | native/server/src/async_executor.cpp:50-70 | from any state of a shutdown, worker steps alone bring every joined thread to its end |
| ExecutorProtocol.OverlappingShutdownsLoseTask | native/server/src/async_executor.cpp:50-70 | two overlapping shutdowns: an accepted task is never started |
| ExecutorProtocol.StartDuringShutdownLosesTask | native/server/src/async_executor.cpp:19-25 | a start during a shutdown: an accepted task is cleared |
| ExecutorProtocol.OverlapLosesIff | native/server/src/async_executor.cpp:19-70 | after any event in a run without overlap so far, an accepted task can be lost without any further overlapping call, if and only if the event is a shutdown during a shutdown with tasks queued, or a start during a shutdown whose joined threads have all left |
| ExecutorProtocol.StartHangsShutdownIff | native/server/src/async_executor.cpp:19-70 | after a start during a shutdown, that shutdown can return without another overlapping one, if and only if the threads it joins had all left |
| BridgePool.Pool.PurgeStale | native/proxy/src/upstream_transport.cpp:978-991 | closes and drops exactly the sessions unused for 30 minutes |
| BridgePool.Pool.Trim | native/proxy/src/upstream_transport.cpp:993-1010 | evicts down to 256 and no further, each evicted session closed and at least as old as every one kept |
| BridgePool.Pool.Reset | native/proxy/src/upstream_transport.cpp:1012-1020 | closes every session and empties the map |
| BridgePool.Pool.Find | native/proxy/src/upstream_transport.cpp:1086-1103 | reuses the session under the key, or takes it out when it is cancelled or another account's |
| BridgePool.Pool.TryInsert | native/proxy/src/upstream_transport.cpp:1143-1149 | inserts under a free key; otherwise returns the session already there |
| BridgePool.Pool.RemoveIfSame | native/proxy/src/upstream_transport.cpp:1291-1297 | drops the given session and never a newer one under the same key |
| BridgePool.Pool.RequestCancel | native/proxy/src/upstream_transport.cpp:1777-1785 | marks the session under the key, if any |
| BridgeProtocol.StepKeeps | native/proxy/src/upstream_transport.cpp:1022-1334 | every step of every thread keeps the invariant: exclusive mutexes, places that know what they rely on, private candidates, bounded pool, no leak |
| BridgeProtocol.RunKeeps | native/proxy/src/upstream_transport.cpp:1022-1334 | the invariant holds in every state of every run, for any number of threads |
| BridgeProperties.PoolBounded | native/proxy/src/upstream_transport.cpp:993-1010 | at most 256 sessions whenever the bridge mutex is free, never more than 257 |
| BridgeProperties.ConnectionsConserved | native/proxy/src/upstream_transport.cpp:1074-1159 | every connection ever opened is in the pool, closed, or held by a thread bound to insert or close it; with all threads idle the open ones are exactly the pooled ones |
| BridgeProperties.LeavesClosedOrOwned | native/proxy/src/upstream_transport.cpp:978-1020 | whatever leaves the pool is closed, or owned by the thread that took it out |
| BridgeProperties.ErasesOnlyItsOwn | native/proxy/src/upstream_transport.cpp:1291-1334 | a failing run erases its own session at most |
| BridgeProperties.RunsOnOwnAccount | native/proxy/src/upstream_transport.cpp:1086-1103 | a request runs on a session connected under its key (pooled or dropped since), and one of its own account by every way but a lost race to insert |
| BridgeProperties.LostRaceCrossesAccounts | native/proxy/src/upstream_transport.cpp:1138-1159 | a request comes to run on a session of a given account that is not its own in some reachable state, if and only if it may create sessions and would fail the account check |
| BridgeProperties.LostRaceHandsOver | native/proxy/src/upstream_transport.cpp:1138-1159 | of any two creating requests with one key, a reachable state has the second run on the session the first opened |
| BridgeProperties.OwnAccountIff | native/proxy/src/upstream_transport.cpp:1086-1103 | a request runs on its own account in every reachable state, if and only if it creates no sessions, continues an earlier response, or has no account |
| BridgeProperties.LockOrder | native/proxy/src/upstream_transport.cpp:1716-1728 | a thread waits for transport, bridge and session mutexes in that order only |
| BridgeProperties.TakesWhatItWaitsFor | native/proxy/src/upstream_transport.cpp:1080-1173 | no step takes a mutex other than the one its thread waits for |
| BridgeProperties.NoCyclicWait | native/proxy/src/upstream_transport.cpp:978-1020 | in no reachable state do threads wait for each other in a circle |
| BridgeProperties.SomeoneCanMove | native/proxy/src/upstream_transport.cpp:1022-1334 | while any thread is busy, some busy thread can take a step |
| BridgeProperties.RequestAdvances | native/proxy/src/upstream_transport.cpp:1074-1160 | every step of a request brings it to a later place or shrinks the pool, so that the acquisition loop ends |
| BridgeProperties.GivesUpIff | native/proxy/src/upstream_transport.cpp:1074-1160 | on the way to its session a request gives up exactly if connecting fails, or it may not create sessions and the pool has none it may use; by every other step it goes on with the same attempt, which by the row above comes to an end |
| BridgeRetry.RunsAgainIff | native/proxy/src/upstream_transport.cpp:1299-1340 | from every reachable state in which a run ends, its request can come to run once more if and only if the run failed so that it may be tried again, was the first, and the request may create sessions |
| BridgeRetry.RunsAgainAfresh | native/proxy/src/upstream_transport.cpp:1299-1340 | whenever it does, it is the second run, on another session, the first one being closed and out of the pool |
| BridgeRetry.BrokenIsDropped | native/proxy/src/upstream_transport.cpp:1291-1340 | after a run that breaks its connection the session is closed for good, and out of the pool for good once its thread is past removing it, whoever else moves and tried again or not |
| BridgeRetry.OtherwiseItStays | native/proxy/src/upstream_transport.cpp:1291-1340 | any other run leaves pool and sessions as they are, and ends its request unless it may be tried again |
| BridgeRefinement.SweepRefines | native/proxy/src/upstream_transport.cpp:978-1010 | purging and trimming the map are a thread's eviction steps in the protocol, one for each session dropped, taking no mutexes but those of pooled sessions, and leave the pool within its bound |
| BridgeRefinement.TrimRefines | native/proxy/src/upstream_transport.cpp:993-1010 | the trim behind an insertion is such steps, ending where the request may run |
| BridgeRefinement.LookupRefines | native/proxy/src/upstream_transport.cpp:1080-1103 | the first critical section of a request is a sequence of the thread's own steps, taking no mutexes but those of pooled sessions, ending where the protocol goes for what was found |
| BridgeRefinement.InsertRefines | native/proxy/src/upstream_transport.cpp:1138-1159 | so is the second, which may take the new session's mutex too, with a session inserted or lost to the one already there |
| BridgeRefinement.RemoveRefines | native/proxy/src/upstream_transport.cpp:1291-1297 | removal by identity is the protocol's erasing step, behind a run as behind a failed retry |
| BridgeRefinement.CancelRefines | native/proxy/src/upstream_transport.cpp:1777-1785 | marking a session is the protocol's cancelling step |
| BridgeRefinement.ResetRefines | native/proxy/src/upstream_transport.cpp:1012-1020 | emptying the map is the protocol's reset, step by step, taking no mutexes but those of pooled sessions |
| BridgeRefinement.StepsReach | native/proxy/src/upstream_transport.cpp:1080-1173 | such a sequence is enabled step by step from every reachable state in which no other thread is inside those mutexes, and leads to a reachable state |
| ToolCalls.ToolCallIndex.IndexFor | native/proxy/src/chat_completions_service.cpp:986-1013 | the number of the key, a new one if it is new, and the index after it |
| ToolCalls.KeysIdentify | native/proxy/src/chat_completions_service.cpp:992-999 | two keyed deltas share a key exactly if they have the same id, or no id and the same name |
| ToolCalls.NumbersIdentifyCalls | native/proxy/src/chat_completions_service.cpp:986-1013 | along any stream two keyed deltas get the same number exactly if they have the same key, and the numbers are dense |
| ToolCalls.NormalizeArguments | native/proxy/src/chat_completions_service.cpp:1224-1255 | the arguments after a delta, and the piece sent on |
| ToolCalls.ToolCallList.Merge | native/proxy/src/chat_completions_service.cpp:1257-1293 | the calls after a delta, and what of it goes out |
| ToolReading.ReadSays | native/proxy/src/chat_completions_service.cpp:1044-1222 | what is read from any event: something exactly if it speaks of a tool call and has an id, a name or arguments, and each from the first of its sources, in order, that has it |
| ToolReading.ServerSays | native/proxy/src/chat_completions_service.cpp:1224-1293 | after any stream each call has the last id, name and type given, and for arguments the pieces behind its last snapshot that says anything |
| ToolReading.TypeGoesOut | native/proxy/src/chat_completions_service.cpp:1257-1293 | what goes out names its call, and the type last said, "function" at first |
| ToolCalls.StepInStep | native/proxy/src/chat_completions_service.cpp:1224-1293 | from agreement, one delta keeps client and server arguments equal exactly if it is no divergent snapshot |
| ToolCalls.InStepIffFaithful | native/proxy/src/chat_completions_service.cpp:1224-1293 | over any stream a client that appends the pieces holds the server's arguments after every delta if and only if no snapshot of that call diverged |
| ToolCalls.NamesInStep | native/proxy/src/chat_completions_service.cpp:1257-1293 | the id and name a client holds are always the server's latest |
| ToolCalls.NothingRepeated | native/proxy/src/chat_completions_service.cpp:1267-1292 | an id or name goes out only if it differs from what the client holds, and nothing empty goes out |
| ChatStream.ResponsesEventsToChatEvents | native/proxy/src/chat_completions_service.cpp:1392-1526 | the event loop computes the chat stream of the events |
| ChatStream.EveryStreamIsWellShaped | native/proxy/src/chat_completions_service.cpp:1392-1526 | whatever the events: content and tool chunks with the role on the first alone, then a failure and [DONE], or a finish, the usage if asked for, and [DONE]; the finish says "tool_calls" exactly if a tool chunk went out |
| ChatStream.ShapeMeans | native/proxy/src/chat_completions_service.cpp:1392-1526 | so [DONE] comes last and only there, and a finish at most once |
| ChatStream.EndIsFinal | native/proxy/src/chat_completions_service.cpp:1450-1520 | nothing behind the terminal event matters |
| ChatStream.StreamServes | native/proxy/src/chat_completions_service.cpp:1430-1448 | for every event list, the calls held, the tool chunks sent and the numbers given are those of the delta server, so the delta theorems hold of the stream |
| ChatStream.CompletionFinishesUnlessStale | native/proxy/src/chat_completions_service.cpp:1430-1434 | a stream that ends with a completion event has a finish exactly if that event does not say again what its call already has; else it ends as one cut short |
| ChatFinish.FinishSays | native/proxy/src/chat_completions_service.cpp:1484-1520 | any stream finished by a completion event: the finish says "tool_calls" after a tool chunk, else "length" for max_output_tokens or max_tokens, "content_filter" for that, and "stop" else; the usage chunk has the input tokens as prompt and the output tokens as completion tokens; both have the id of the response |
| ChatFinish.FailureSays | native/proxy/src/chat_completions_service.cpp:1450-1480 | any stream ended by a failure passes on the error of the event or its response, or a stand-in, and says [DONE] |
| ChatFinish.CutShortSays | native/proxy/src/chat_completions_service.cpp:1523-1525 | a stream without a terminal event keeps its chunks and is told to be incomplete |
| ChatFinish.EventSays | native/proxy/src/chat_completions_service.cpp:1401-1448 | what each event adds to the stream: its text, or what is new of its tool call, with the role if it comes first, and before the end nothing else |
| ChatFinish.EndedIff | native/proxy/src/chat_completions_service.cpp:1430-1520 | a stream is ended by the first completion, incompletion, failure or error event that does not just repeat a call, and by nothing else |
| ChatCompletion.CollectResponseBody | native/proxy/src/proxy_service.cpp:266-324 | the loop computes the response the events add up to |
| ChatCollected.CollectedSays | native/proxy/src/proxy_service.cpp:266-324 | the first error or response decides: the error alone, or the response, with the items filed before it in index order for an output if it has none |
| ChatCollected.NothingCollected | native/proxy/src/proxy_service.cpp:266-324 | without either, nothing is collected |
| ChatCollected.ItemsSay | native/proxy/src/proxy_service.cpp:281-292 | an item is held under an index exactly if some event filed one there |
| ChatCollected.LastItemSays | native/proxy/src/proxy_service.cpp:281-292 | and it is the last that was |
| ChatCollected.OrderedSays | native/proxy/src/proxy_service.cpp:311-318 | the output has every item once, by rising index |
| ChatCompletion.ResponsesJsonToChatCompletion | native/proxy/src/chat_completions_service.cpp:831-962 | the completion of a response, or the response as it is, or an error |
| ChatFinish.CompletionSays | native/proxy/src/chat_completions_service.cpp:831-962 | any status and body: when there is a completion, an error or the response as it is; the completion has the id, model, text and usage of the response, and its finish reason as in the stream |
| ChatFinish.MessageIsRead | native/proxy/src/chat_completions_service.cpp:778-806 | the text of an item is that of its text parts, in order |
| ChatFinish.CallIsRead | native/proxy/src/chat_completions_service.cpp:862-900 | a call item gives its name, arguments and the first of call_id, id and tool_call_id it has |
| ChatFinish.CallsSay | native/proxy/src/chat_completions_service.cpp:862-900 | the calls are those of the function_call and tool_call items, in order |
| ChatAgreement.OrderedCalls | native/proxy/src/proxy_service.cpp:311-318 | filed items in index order give the calls in the order they came |
| ChatAgreement.StreamAgreesWithBody | native/proxy/src/chat_completions_service.cpp:831-962 | with calls that come whole, in index order, under distinct ids, and a terminal response without output: the collected body becomes a completion exactly if it has no error key, and then the client's tool calls and finish reason are the completion's |
| ChatAgreement.RepeatedIdHidesCompletion | native/proxy/src/chat_completions_service.cpp:1430-1520 | a whole call, then any completion event that carries its id and neither name nor arguments: the client gets the call and a failure |
| ChatAgreement.ACompletionGoesMissing | native/proxy/src/chat_completions_service.cpp:1430-1520 | two such events |
| ChatPieces.SpelledStreamAgreesIff | native/proxy/src/chat_completions_service.cpp:986-1293 | with calls whole or spelled out (announced, in pieces that name no call, then finished), in any mixture: the finish reasons agree, and the client's tool calls are the completion's if and only if no call stands before one whose arguments come in pieces |
| ChatPieces.ArgumentsLandInTheFirstCall | native/proxy/src/chat_completions_service.cpp:992-999 | any two calls spelled out: the first ends up with the arguments of both |
| ChatText.TextAgreesIff | native/proxy/src/chat_completions_service.cpp:780-962 | with items filed in index order, the text a client puts together is the completion's content, if and only if the text deltas of the stream join to what the texts of its items join to |
| RequestBody.TrimEmpty | native/proxy/session/src/http_bridge.cpp:170-187 | a response id counts as none exactly if it is blank |
| RequestBody.ReplaceKeeps | native/proxy/session/src/http_bridge.cpp:728-774 | a body rewritten from the bridge continues the remembered response and is otherwise the same request, call outputs included |
| RequestBody.FallbackKeeps | native/proxy/src/proxy_service.cpp:403-437 | there is a fallback body exactly unless call outputs depend on an earlier response; it continues nothing and changes only the earlier response and the input |
| RequestMeaning.PreviousSays | native/proxy/session/src/http_bridge.cpp:170-187 | a body continues the response whose id stands in that field between white space, if any does |
| RequestMeaning.CallOutputSays | native/proxy/session/src/http_bridge.cpp:212-246 | a body has call outputs exactly if, in it or in a response nested in it at any depth, an input item answers a call |
| RequestMeaning.TrimmedSays | native/proxy/session/src/http_bridge.cpp:350-362 | what is kept of a list of items is the longest end of it that fits both bounds |
| RequestMeaning.RebuildSays | native/proxy/session/src/http_bridge.cpp:839-878 | the rebuilt body: none with tools, without input or without memory; the body itself if its input is a conversation; else as much of the end of the remembered and the own items as fits, all other fields kept |
| ErrorPolicy.ExtractUpstreamErrorDetails | native/proxy/src/proxy_error_policy.cpp:223-251 | the loop computes the merged details of a result |
| ErrorMeaning.DetailsSay | native/proxy/src/proxy_error_policy.cpp:44-131 | the details of any result: its own code, else the first an error object has; the first message, the first type, and the first param up to the early stop |
| ErrorPolicy.EarlyStopMissesOnlyParam | native/proxy/src/proxy_error_policy.cpp:236-243 | stopping early gives the code, message and kind of reading everything, and the same `param` exactly if one was found by then or no later event names one |
| ErrorPolicy.AParamIsLost | native/proxy/src/proxy_error_policy.cpp:236-243 | a result whose details lack the `param` that a later event names |
| ErrorPolicy.ResolvedCodeIsNormal | native/proxy/src/proxy_error_policy.cpp:200-212 | the code of every result is in normal form, and stored back resolves to itself |
| ErrorPolicy.ExhaustedIsRetriedOnlyIfIncomplete | native/proxy/src/proxy_error_policy.cpp:309-338 | an exhausted result is retried by no rule but one, and by that exactly if its code says incomplete |
| ErrorPolicy.AnExhaustedResultIsRetried | native/proxy/src/proxy_error_policy.cpp:321-327 | such a result exists |
| ErrorMeaning.ExhaustedSays | native/proxy/src/proxy_error_policy.cpp:275-307 | which results exhaust an account, and as what, in terms of status, codes and wordings |
| ErrorMeaning.RetriedSays | native/proxy/src/proxy_error_policy.cpp:309-338 | which results each of the three rules retries, in the same terms |
| ErrorMeaning.SettledSays | native/proxy/src/proxy_error_policy.cpp:340-356 | the code the retry loop leaves a result with |
| ErrorPolicy.ExecuteWithRetryBudget | native/proxy/src/proxy_error_policy.cpp:340-392 | at most one execution more than the budget; each but the last gave a result to retry, and the last one's is returned |
| Orchestration.GuardPreviousResponse | native/proxy/src/proxy_service_helpers.cpp:149-213 | the guarded body, flags and accounts |
| Orchestration.Request.ChooseCredentials | native/proxy/src/proxy_service.cpp:530-576 | the body, flags, account and token before anything is sent |
| Orchestration.Request.Execute | native/proxy/src/proxy_service.cpp:639-649 | one round: a plan executed within its retry budget |
| Orchestration.Request.RefreshIfUnauthorized | native/proxy/src/proxy_service.cpp:650-679 | the stage after a refused token |
| Orchestration.Request.RetryFromBridge | native/proxy/src/proxy_service.cpp:680-713 | the retry with the remembered response id |
| Orchestration.Request.RetryStripped | native/proxy/src/proxy_service.cpp:714-756 | the retry without the earlier response |
| Orchestration.Request.FailOverIfExhausted | native/proxy/src/proxy_service.cpp:757-811 | the move to another account |
| Orchestration.Respond | native/proxy/src/proxy_service.cpp:485-811 | all stages together: the outcome and every round executed |
| OrchestrationProperties.GuardKeeps | native/proxy/src/proxy_service_helpers.cpp:149-213 | after the guard the flags describe the body, and the body may be sent for the request |
| OrchestrationProperties.FlowIsWellRun | native/proxy/src/proxy_service.cpp:485-811 | every request: at most four rounds of one to three executions, only permitted bodies, a change of account in the last round only and without an earlier response, no round exactly if refused |
| OrchestrationProperties.CallOutputsStayWithTheirResponse | native/proxy/src/proxy_service.cpp:379-437 | a continuation with call outputs: at most three rounds, all on one account, each plan still naming an earlier response and differing from the request in nothing else |
| OrchestrationProperties.PreviousResponseStaysOnItsAccount | native/proxy/src/proxy_service.cpp:757-811 | an earlier response is named only to the account the request started on |
| OrchestrationProperties.RequestIsKept | native/proxy/src/proxy_service.cpp:403-437 | every plan's body is the request's but for the earlier response and the input, and is the request's outright if it continues nothing |
| OrchestrationProperties.UnavailableAccountIsRefused | native/proxy/src/proxy_service.cpp:533-594 | a continuation with call outputs whose account is known but gives no credentials is refused, and nothing is sent |
| OrchestrationProperties.UpstreamIsAskedBoundedly | native/proxy/src/proxy_service.cpp:639-811 | at most twelve executions a request, nine for a continuation with call outputs |
| OrchestrationProperties.TwelveExecutionsHappen | native/proxy/src/proxy_service.cpp:639-811 | a request that is executed twelve times |
| OrchestrationMeaning.GuardSays | native/proxy/src/proxy_service_helpers.cpp:149-213 | what the guard makes of any request: the body it starts with, the account it asks for, and what the flags mean |
| OrchestrationMeaning.FlowSays | native/proxy/src/proxy_service.cpp:485-811 | every request: what is refused and why; else which rounds are sent, in order, each with its body, account and token, and which answer is given |
| OrchestrationMeaning.SentAs | native/proxy/src/proxy_service.cpp:650-811 | the last round has the failover credentials, and a body that continues nothing, exactly if the account is given up; every other round has the chosen credentials, or the refreshed ones once the token was refused |
| OrchestrationMeaning.AttemptsSay | native/proxy/src/proxy_service.cpp:639-649 | how often a plan is sent: until an answer is not to be sent again, three times at most |
| LagAlert.Totals | native/bridge/src/bridge.cpp:1959-1976 | the total is the sum or the largest 64-bit value, whichever is less; average ≤ largest ≤ total |
| LagAlert.SumSays | native/bridge/src/bridge.cpp:1959-1966 | the sum adds up the lags of all peers |
| LagAlert.Cluster.RefreshPeers | native/bridge/src/bridge.cpp:1955-2012 | after every refresh the five fields are the meaning of the whole history; a signal goes out exactly when the alert changes with peers there |
| LagAlert.StreakDecides | native/bridge/src/bridge.cpp:1993-2003 | the saturating streak reaches the policy's number exactly if each of the last that many refreshes had a lagging peer |
| LagAlert.NextMeaning | native/bridge/src/bridge.cpp:1978-2012 | what one more refresh makes of the meaning of a history |
| LagAlert.AlertMeansSustainedLag | native/bridge/src/bridge.cpp:1993-2003 | the alert is active exactly if the run of lagging refreshes is as long as the last policy asks |
| LagAlert.AverageStaysBetween | native/bridge/src/bridge.cpp:1984-1991 | the moving average lies between the least and the greatest maximum since peers were last missing |
| LagAlert.EwmaIsWeighted | native/bridge/src/bridge.cpp:1984-1991 | and it is the weighted sum of these maxima: each has a fifth of the weight the later ones leave, the first all of it |
| LagAlert.LastRiseIsKept | native/bridge/src/bridge.cpp:1993-2003 | the time kept is that of the last refresh at which the alert came up |
| LagAlert.RiseIsKept | native/bridge/src/bridge.cpp:1993-2003 | and there is one exactly if it ever did |
| UsageRefresh.Trackers.MarkDue | native/server/src/proxy_request_logger.cpp:439-457 | a request starts a refresh exactly if the history of its account says so, and all trackers, their pending counts at most twelve, go on standing for their histories |
| UsageRefresh.Trackers.MarkComplete | native/server/src/proxy_request_logger.cpp:459-470 | the end of a refresh leaves all trackers standing for their histories |
| UsageRefresh.MeansRequest | native/server/src/proxy_request_logger.cpp:439-457 | one tracker and one request: due exactly if the history says a refresh starts |
| UsageRefresh.StartsAreSpaced | native/server/src/proxy_request_logger.cpp:449-452 | starts of an account's refresh are at least 10,000 ms apart by their recorded (positive) times, whatever the clock does |
| UsageRefresh.StartsAreEarned | native/server/src/proxy_request_logger.cpp:442-455 | between two starts at least twelve requests were counted, or one if a refresh failed in between |
| UsageRefresh.CountIsExact | native/server/src/proxy_request_logger.cpp:442-470 | what the tracker counts are the requests since the last start |
| UsageRefresh.StartsExactly | native/server/src/proxy_request_logger.cpp:439-457 | a request starts a refresh if and only if, since the last start, it is at least the twelfth counted or a refresh failed, none is in flight, and the last started 10,000 ms ago or at no recorded time |
| UsageRefresh.OneRefreshAtATime | native/server/src/proxy_request_logger.cpp:446-470 | at most one refresh of an account is in flight |
| CodexLines.KeysAgree | app/src/main/codexSetup.ts:42-58 | rewriter and inspector see the same key on every line, comments or not |
| CodexLines.KeyLineIsPresentKey | app/src/main/codexSetup.ts:163-166 | the test for one key and the search for any key agree |
| CodexLines.HeadersAgreeWithoutHash | app/src/main/codexSetup.ts:154-161 | on a line without a hash both see the same header |
| CodexLines.ReadWithoutCr | app/src/main/codexSetup.ts:42-75 | a carriage return at a line's end changes no reading of it |
| CodexLines.EntryIsReadBack | app/src/main/codexSetup.ts:42-58 | a written entry is read back as it was written |
| CodexGrammar.ActiveSectionSays | app/src/main/codexSetup.ts:51-75 | the inspector sees a header exactly on lines that are one, blanks and a comment behind it aside |
| CodexGrammar.ActiveEntrySays | app/src/main/codexSetup.ts:42-58 | an entry likewise, with the key before the equals sign and the rest as its value |
| CodexGrammar.CommentedSectionSays | app/src/main/codexSetup.ts:60-75 | and a commented header exactly on lines that are one behind their hashes |
| CodexGrammar.CommentedEntrySays | app/src/main/codexSetup.ts:42-67 | a commented entry likewise |
| CodexGrammar.SectionAtSays | app/src/main/codexSetup.ts:154-161 | the rewriter sees a header only where no comment follows it |
| CodexGrammar.PresentKeySays | app/src/main/codexSetup.ts:163-166 | and a key wherever one stands before an equals sign |
| CodexGrammar.TomlSays | app/src/main/codexSetup.ts:29-40 | a string value is what stands between two double or two single quotes, a comment aside |
| CodexConfig.UpsertModelProvider | app/src/main/codexSetup.ts:192-215 | the loop computes the model pass |
| CodexConfig.FindSectionBounds | app/src/main/codexSetup.ts:168-190 | the first section of the provider, up to the next header |
| CodexConfig.UpsertTightropeProviderSection | app/src/main/codexSetup.ts:217-257 | computes the section pass |
| CodexConfig.InspectTightropeSetup | app/src/main/codexSetup.ts:77-147 | the loop computes the verdict and the two hints about commented entries |
| CodexMeaning.ConfiguredSays | app/src/main/codexSetup.ts:77-147 | a file counts as configured if and only if a line names the provider, one is its header, and each required key is set in its section, as said of the lines |
| CodexMeaning.HintsSay | app/src/main/codexSetup.ts:77-147 | when the two hints are given, said of the lines |
| CodexMeaning.LastActiveSays | app/src/main/codexSetup.ts:86-100 | the section of a line is the one the last header before it names |
| CodexConfig.BuildUpdatedConfig | app/src/main/codexSetup.ts:259-269 | the rewritten text |
| CodexAgreement.SourceIsSound | app/src/main/codexSetup.ts:42-75 | the source's line readings have the properties the proofs use |
| CodexAgreement.OneModelLine | app/src/main/codexSetup.ts:192-215 | the model pass leaves one model-provider line, in the place of the first, or before the first header, or at the end, and the others in order |
| CodexMeaning.ModelPlaceSays | app/src/main/codexSetup.ts:192-215 | that place is the first model-provider line, else the first header, else the end |
| CodexAgreement.SectionIsComplete | app/src/main/codexSetup.ts:217-257 | after the section pass the first provider section names every required key |
| CodexMeaning.NewSectionSays | app/src/main/codexSetup.ts:217-229 | without a section of the provider, one with all settings is added at the end, behind a blank line |
| CodexMeaning.OldSectionSays | app/src/main/codexSetup.ts:231-257 | with one, the settings it has no line for are added at its end, all else kept in place |
| CodexMeaning.NewFileSays | app/src/main/codexSetup.ts:192-257 | the eight lines written where there was no file |
| CodexAgreement.UpdatedSettles | app/src/main/codexSetup.ts:192-257 | rewriting rewritten lines changes nothing |
| CodexAgreement.OtherLinesStay | app/src/main/codexSetup.ts:192-257 | the lines that do not set the model provider stay in order; the rewriter's own come in at one place |
| CodexVerdict.VerdictOnLines | app/src/main/codexSetup.ts:77-147 | the inspector's verdict on rewritten lines, from the lines before, both ways and for any lines |
| CodexFiles.LinesSay | app/src/main/codexSetup.ts:259-261 | the lines of any text are what stands between its line feeds, without the carriage return before each; the empty text has none |
| CodexFiles.LinesOfBuild | app/src/main/codexSetup.ts:259-269 | the rewritten file is the rewritten lines, each ended; read again they come back but for a carriage return at their end |
| CodexFiles.RewritingSettlesIff | app/src/main/codexSetup.ts:259-269 | rewriting twice is rewriting once, if and only if no line but a model-provider one ends in a stray carriage return |
| CodexFiles.AStrayCrDoesNotSettle | app/src/main/codexSetup.ts:259-269 | a text that does not settle |
| CodexFiles.TextWithoutCrSettles | app/src/main/codexSetup.ts:259-269 | every text without carriage returns settles |
| CodexFiles.RewritingKeepsOtherLines | app/src/main/codexSetup.ts:192-269 | the other lines of a file are all kept, in order |
| CodexFiles.RewrittenIsConfiguredIff | app/src/main/codexSetup.ts:77-147 | any file: the result counts as configured, if and only if the inspector sees no header before the place of the model-provider line, and it had accepted each required key already or the section pass adds it where the inspector, too, is in the provider's section |
| CodexFiles.CommentedHeaderIsMissed | app/src/main/codexSetup.ts:154-161 | every file that begins with a commented header and sets no model provider is not configured after rewriting |
| CodexFiles.CommentedHeaderIsNone | app/src/main/codexSetup.ts:154-161 | such a line is a header to the inspector, and neither header nor key to the rewriter |

## Left out

- Sockets, TLS, curl, the WebSocket library, SQLite, environment variables, logging and event emission: an upstream call is an arbitrary result, a clock read an input.
- BridgeProtocol.RunKeeps: which session a sweep evicts and when one turns stale is left open there, so it holds for every choice; the choice is in BridgePool. Ages do not change during one sweep of BridgePool.
- BridgeProtocol: traffic accounting and the exchange of frames inside a run; a run ends in any way, at any time.
- ExecutorProtocol: waiting with a timeout is modelled by its condition only; a task never throws.
- Utf16.TryDecodeUtf16Json: the zero-byte count that guesses the order of a payload without a byte order mark is modelled as it is, but nothing is claimed about how well it guesses.
- JsonText: numbers and literals are any bytes but quotes, braces, brackets, commas, colons and controls, which is more than the grammar of RFC 8259 allows.
- PayloadRepair.RepairPayload: the fields of a parsed `response.create` being merged and written out again, and passing a payload through unread.
- ChatStream: the constant members of a chunk and its creation time; compact_tool_calls_for_message, which nothing calls.
- ChatAgreement.StreamAgreesWithBody: says nothing of the text content, which the two paths take from different events; `ChatText.TextAgreesIff` does.
- BridgeRefinement.StepsReach: a critical section is taken there without interruption; in the protocol other threads may also move while it waits for a session's mutex.
- ChatPieces.SpelledStreamAgreesIff: the events of one call stand together; calls whose pieces come interleaved are covered by `ToolCalls.InStepIffFaithful` only.
- ChatCompletion.CollectResponseBody: an output index outside 64 bits, whose conversion C++ leaves undefined.
- ErrorPolicy: which wordings in raw text count as quota, rate-limit or deactivation; whether they occur is part of a result.
- Orchestration: headers, turn state, sticky-affinity records, marking accounts in the database, remembering response ids, and building a plan from a body, which may fail at any site.
- RequestBody: which earlier inputs are remembered, and how long they are when written out, are inputs.
- Compact, memories, models and transcription routes: the same stages with fewer of them.
- LagAlert: rounding of the moving average, which is a real number here; the probing, eviction and Raft side of the refresh.
- UsageRefresh: which requests count, and overflow when two clock values are more than 64 bits apart.
- CodexConfig: reading, writing and confirming in the application.
