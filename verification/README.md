# Verification of dtCore's logging pipeline, streaming sessions and file handling

This project models, in Dafny 4.11, the parts of dtCore whose correctness does not show in any one
function body: the lock-free log queue under every interleaving, the thread that drains it, the
sinks over a device that writes what it likes, the call-state machines of the streaming sessions,
and five algorithms on trees, graphs, bytes and names. `dafny verify dfyconfig.toml` checks it.

## How to read it

Code that works by changing things step by step is a class or a method with loops, proved against a
function on values of the same name or nearly; what the code promises is then proved of that
function, over whole histories.

| files | what they hold |
|---|---|
| `LogQueue*.dfy`, `Words.dfy` | the multi-producer ring: a machine over its atomic steps with two arithmetics (32-bit words, unbounded counters), its safety, its history, the refinement, and the stored ring as a class (`LogQueueCells.dfy`) |
| `RtLog*.dfy`, `DrainLoop.dfy` | the logger around the ring: drain, Sync handshake, Terminate, drop counting, and the same around the 32-bit ring (`RtLogWords.dfy`) |
| `ContLines.dfy`, `ContRouting.dfy` | the LOG_CONT line reassembly, and which logger gets which entry and at what level a line is logged |
| `Descriptors.dfy`, `StdoutSink.dfy`, `StdoutAccounting.dfy` | a file descriptor with partial, interrupted and failing writes; the drop-oldest stdout sink; what becomes of each byte |
| `FileSink.dfy`, `FileSinkHistory.dfy` | the buffered file sink and its rotation chain |
| `StatePublisher*.dfy`, `ServiceListener*.dfy`, `StateSubscriber*.dfy`, `CompletionQueues.dfy` | the gRPC sessions over a bag of outstanding tags |
| `McapFraming.dfy`, `McapRoundTrip.dfy` | the analyser of concatenated MCAP files, and the writer's side of the framing |
| `McapFileWriter.dfy`, `McapRotator*.dfy`, `FileNames.dfy`, `Numerals.dfy`, `Files.dfy` | the MCAP file writer, the rotating sink, and the naming of files |
| `DescriptorSet.dfy` | the search over descriptor dependencies |
| `ConfMerge*.dfy` | merging configuration trees |
| `TuiHistory.dfy` | the terminal view's log ring and scroll window |

What the environment does is a parameter: an interleaving is a sequence of actions, a descriptor is
a finite list of what its writes return, opens and renames are lists of outcomes, and a completion
queue is a bag of tags. Every statement is for all of these.

## Where the code and its descriptions differ

The model follows the code. In these places a comment, or what one would expect, says otherwise:

- A ring of one slot passes the compile-time test of `dtLogQueue.hpp:28`, but loses an entry
  (`LogQueueSolo.OneSlotLosesAnEntry`); the safety results need two slots.
- The 32-bit comparisons are right only while the producer that acts lags the head by at most 2^31
  minus the capacity when it loads a sequence number, and by less than 2^32 when it swaps. Both
  bounds are exact (`LogQueueSolo.LaterLoadMisreads`, `LogQueueSolo.LaterSwapRaces`).
- The comment at `dtRtLog.cpp:641` promises that a drain is complete when Sync's request is
  acknowledged. Sync keeps this promise exactly when the polling thread does not stand between the end
  of its drain and its load of `m_syncSeq`, with entries left to flush, at the moment the request is
  registered (`RtLog.SyncFlushesIff`); such a moment can be reached from every fresh logger
  (`RtLog.GapIsReached`). Calling Sync twice is always enough (`RtLog.SecondSyncFlushes`).
- The listener's Stop is described as closing the sessions (`dtServiceListenerGrpc.hpp:113`), but a call
  that gRPC had matched before the server shut down is dispatched all the same, and adds a session
  (`ServiceListenerSafety.StopAddsSession`). After Stop the sessions only go exactly when no such call is
  dispatched (`ServiceListenerSafety.StopDrainsIff`), which is certain exactly when no session waits for a
  call (`ServiceListenerSafety.OnlyGoesIffNoneWaits`).
- The stdout sink's buffer is the end of what was accepted unless a message as long as the buffer
  arrives while older bytes are retained (`StdoutAccounting.LongMessageBreaksSuffix`).
- A LOG_CONT buffer that is full and holds no newline swallows further LOG_CONT text whole, newlines
  included, until an ordinary entry comes (`ContLines.FullBufferSwallows`).
- The publisher never sets `WAIT_FINISH`, so its sessions are never removed
  (`StatePublisherSafety.SessionsAreNeverRemoved`).
- Stopping a subscriber whose call has not started leaves the call as it is; its start can then issue
  a read on a queue that has been shut (`StateSubscriberSafety.ShutIsFinalIffInactive`).
- The analyser counts a cut chunk as a chunk but not as a record, and a footer cut before its two
  offsets end raises an exception (`McapRoundTrip.CutFileCountsWholeRecords`).
- Merging three configurations is associative exactly when no map / other / map sandwich hides
  anything, which is weaker than having no clash of kinds at all (`ConfMergeLaws.MergingInTurn`).
- The rotating MCAP sink ignores its `truncate` argument and always starts a new file. When a rename
  fails, what the base name held is lost, for a new file is created there
  (`McapRotatorHistory.FailedRotation`).
- Behind the Home key, or a long pause, the scroll offset is larger than the window can show, so the
  first presses of the down key do not move the view (`TuiHistory.DownsMove`).

## Model

| member | source | states |
|---|---|---|
| LogQueue.SlotIsRemainder | include/dtCore/src/dtLog/dtLogQueue.hpp:28-28 | for every capacity of at least one slot that passes the compile-time test, masking with capacity - 1 is the remainder, so indexing is in bounds |
| LogQueueSafety.RunIsSafe | include/dtCore/src/dtLog/dtLogQueue.hpp:95-150 | every interleaving of any number of producers with the consumer, from two slots up: no two threads at conflicting accesses of one slot's data, one claimant for each position, popped entries are the first claims unaltered, and every later claim is still in its slot or with its producer |
| LogQueueSafety.NextKeepsInv | include/dtCore/src/dtLog/dtLogQueue.hpp:95-150 | each single load, store or compare-and-swap of any thread keeps the invariant that ties positions to slot states |
| LogQueueSafety.PushFailsOnlyWhenFull | include/dtCore/src/dtLog/dtLogQueue.hpp:101-119 | a push gives up exactly when its head is current and all slots are taken; a stale head never makes it give up |
| LogQueueSafety.PopFailsOnlyWhenUnpublished | include/dtCore/src/dtLog/dtLogQueue.hpp:134-150 | a pop gives up exactly when the oldest position is not published, and then the ring is empty or its claimant is still copying |
| LogQueueSafety.ApproxSizeBound | include/dtCore/src/dtLog/dtLogQueue.hpp:161-167 | the size hint is within the capacity exactly when the tail has not overtaken the head loaded before it, which is always so on the consumer's thread |
| LogQueueHistory.RunIsTraced | include/dtCore/src/dtLog/dtLogQueue.hpp:95-126 | per producer, the claims are in order the calls that returned true and the one being copied; calls are claims plus rejections plus undecided ones |
| LogQueueWords.RunRefines | include/dtCore/src/dtLog/dtLogQueue.hpp:97-147 | the 32-bit program is the unbounded one with every counter reduced modulo 2^32, on every run whose producers act in time |
| LogQueueWords.WordRunIsSafe | include/dtCore/src/dtLog/dtLogQueue.hpp:95-150 | such a 32-bit run is free of data races; each producer inside owns a slot for one unpopped claim, its own, and no two the same; popped entries are the first claims unaltered, and every later claim is in its slot or with its producer |
| LogQueueSolo.LaterLoadMisreads | include/dtCore/src/dtLog/dtLogQueue.hpp:102-119 | one position past the lag bound a push on an empty queue reports it full |
| LogQueueSolo.LaterSwapRaces | include/dtCore/src/dtLog/dtLogQueue.hpp:105-114 | a compare-and-swap 2^32 positions late succeeds and writes into the slot being read |
| LogQueueSolo.OneSlotLosesAnEntry | include/dtCore/src/dtLog/dtLogQueue.hpp:28-28 | with one slot two pushes succeed and the first entry is gone |
| LogQueueSolo.SoloPush | include/dtCore/src/dtLog/dtLogQueue.hpp:95-126 | an undisturbed call of TryPush appends its entry to the claims exactly when the ring is not full, and is rejected and changes nothing else when it is |
| LogQueueSolo.SoloPop | include/dtCore/src/dtLog/dtLogQueue.hpp:134-150 | an undisturbed call of TryPop takes the oldest claim out exactly when it is published, and changes nothing when it is not |
| LogQueueCells.Ring.constructor | include/dtCore/src/dtLog/dtLogQueue.hpp:72-81 | the stored ring starts as the machine's initial state |
| LogQueueCells.Ring.TryPush | include/dtCore/src/dtLog/dtLogQueue.hpp:95-126 | over words and arrays: succeeds exactly when not full and is the machine's push |
| LogQueueCells.Ring.Continue | include/dtCore/src/dtLog/dtLogQueue.hpp:99-125 | the retry loop from any stale head within the lag bound ends in the same push or rejection |
| LogQueueCells.Ring.TryPop | include/dtCore/src/dtLog/dtLogQueue.hpp:134-150 | over words and arrays: succeeds exactly when the oldest position is published, and is the machine's pop |
| LogQueueCells.Ring.ApproxSize | include/dtCore/src/dtLog/dtLogQueue.hpp:161-167 | the wrapped difference of the words is the number of claimed positions |
| RtLog.LogRunKeepsInv | src/core/log/dtRtLog.cpp:446-482 | every interleaving of Enqueue, Poll, Sync, Terminate and the ring's own steps keeps the logger's invariant |
| RtLog.HandshakeIsMonotone | src/core/log/dtRtLog.cpp:459-482 | acknowledgements never exceed requests, both only grow, and a Sync that returned acknowledged had its own request acknowledged |
| RtLog.SyncFlushesIff | src/core/log/dtRtLog.cpp:629-648 | whatever follows, a Sync that registers now returns acknowledged only with every entry flushed, in order, that was published by then with no unpublished claim ahead of it: exactly when the polling thread is not between the end of its drain and its load of the request counter with some of them unflushed |
| RtLog.SecondSyncFlushes | src/core/log/dtRtLog.cpp:459-482 | of two calls of Sync in a row the second always returns with the entries flushed that were due at the first |
| RtLog.GapIsReached | src/core/log/dtRtLog.cpp:638-647 | from every fresh logger a run leads to a state in which a Sync does not keep its promise |
| RtLog.SyncIsAnswered | src/core/log/dtRtLog.cpp:459-482 | wherever the polling thread stands, its own steps bring it to acknowledge any waiting request, and the caller returns at its next look |
| RtLog.StoppedSyncGivesUp | src/core/log/dtRtLog.cpp:469-474 | once the thread is being stopped, a Sync that is not acknowledged returns within two steps |
| RtLog.TerminateFlushes | src/core/log/dtRtLog.cpp:243-253 | from Terminate's join on, whatever producers still do: when the last flush is over, every entry is flushed, in order, that was published at the join with no unpublished claim ahead of it |
| RtLog.TerminateCompletes | src/core/log/dtRtLog.cpp:243-253 | from every state of a logger there is a run through Stop, the thread's exit and the join to the end of the last flush; with nobody copying, every claim is then flushed, in order |
| RtLog.CallsAreConserved | src/core/log/dtRtLog.cpp:838-847 | at every point what is flushed and held is the first claims; each call of Enqueue is claimed, rejected or undecided, and per producer in order; the drop counter is the rejections counted plus the lines and entries that could not be formatted |
| RtLog.FailuresAreCounted | src/core/log/dtRtLog.cpp:751-756 | over every run, the lines and entries that could not be formatted are counted, each once |
| RtLog.FinalDrainEmpties | src/core/log/dtRtLog.cpp:243-253 | over every run from a fresh logger, the step that ends Terminate's own drain with no push in progress leaves the ring empty and every claim flushed |
| RtLog.PublishedStays | include/dtCore/src/dtLog/dtLogQueue.hpp:110-112 | a published position stays published whatever any thread does, until it is popped |
| RtLogWords.LogRunRefines | src/core/log/dtRtLog.cpp:446-482 | the logger around the 32-bit ring is the one around unbounded counters, on every run whose producers act in time |
| RtLogWords.WordSyncFlushesIff | src/core/log/dtRtLog.cpp:629-648 | the exact condition for Sync's promise, for the 32-bit logger after any run in time |
| RtLogWords.WordCallsAreConserved | src/core/log/dtRtLog.cpp:838-847 | conservation, the order of the handshake's counters and the safety of the ring, for the 32-bit logger |
| RtLogWords.WordFinalDrainEmpties | src/core/log/dtRtLog.cpp:243-253 | Terminate's own drain of the 32-bit ring has flushed every claim |
| RtLogWords.WordTerminateFlushes | src/core/log/dtRtLog.cpp:243-253 | from Terminate's join on the 32-bit logger, in time, flushes everything that was due at the join before its last flush is over |
| DrainLoop.DrainAll | src/core/log/dtRtLog.cpp:446-457 | the loop over the stored ring pops from the tail to the first unpublished position and hands each entry on in order |
| DrainLoop.DrainAtTermination | src/core/log/dtRtLog.cpp:247-253 | with nobody copying an entry in, ring and line buffer end empty, and all text has come out |
| ContLines.Assembler.FlushEntry | src/core/log/dtRtLog.cpp:698-757 | the in-place buffer is the value-level step, with its bound and without a newline left in it |
| ContLines.Assembler.FlushContLines | src/core/log/dtRtLog.cpp:775-836 | the search, emit and slide loops give exactly the lines, and the tail too when forced |
| ContLines.OutputIsRendered | src/core/log/dtRtLog.cpp:698-738 | for every stream that fits, the output is each run's lines, indented by 21 spaces, its tail before the next ordinary entry, and that entry for the logger it names if there is one, else for the default logger |
| ContLines.ChunkingIsInvisible | src/core/log/dtRtLog.cpp:775-836 | two such streams that read the same give the same output however their text is cut into entries |
| ContRouting.EachLoggerGetsItsOwn | src/core/log/dtRtLog.cpp:712-749 | over any stream: a logger that is there gets, in order, exactly the ordinary entries that name it, and the default logger all others, or nobody when there is none |
| ContRouting.LinesAreTheText | src/core/log/dtRtLog.cpp:780-824 | no line and no tail holds a newline, and put together again they are the text |
| ContRouting.LinesHaveTheirLevels | src/core/log/dtRtLog.cpp:701-716 | for every stream that fits, each line is logged at the level of the entry with its newline, an unfinished one at that of the last LOG_CONT entry |
| ContRouting.NoDefaultKeepsText | src/core/log/dtRtLog.cpp:778-778 | without a default logger no line comes out, and the buffer keeps the first 4096 characters of all LOG_CONT text |
| ContLines.DropsNothingIffFits | src/core/log/dtRtLog.cpp:703-706 | no character is thrown away exactly when each entry fits behind the unfinished line |
| ContLines.TakenAsTrimmed | src/core/log/dtRtLog.cpp:703-706 | any stream is taken like one that fits: what is cut off each entry is what lies beyond the buffer's room, and nothing else |
| ContLines.FullBufferSwallows | src/core/log/dtRtLog.cpp:703-709 | a full buffer without a newline stays as it is under any LOG_CONT text |
| StdoutSink.ColorStdoutSink.FlushBuffer | include/dtCore/src/dtLog/dtRtLog.hpp:257-303 | writes until the device takes no more and slides the rest to the front |
| StdoutSink.ColorStdoutSink.AppendData | include/dtCore/src/dtLog/dtRtLog.hpp:224-255 | keeps the tail of a long message, flushes when there is no room, drops the oldest bytes when there still is none |
| StdoutSink.SentIsAccepted | include/dtCore/src/dtLog/dtRtLog.hpp:267-292 | a flush gets rid of all the device accepts before a write fails or takes nothing, interrupted writes being repeated |
| StdoutAccounting.EveryByteIsAccounted | include/dtCore/src/dtLog/dtRtLog.hpp:224-303 | over every history and device: each byte accepted is written, dropped or held, once; output is in order; none is written after a later one; the buffer is in bounds; and as many are dropped as the buffer and the device leave no room for, no more |
| StdoutAccounting.BufferIsSuffix | include/dtCore/src/dtLog/dtRtLog.hpp:246-254 | with no message as long as the buffer, the buffer is always the end of what was accepted |
| StdoutAccounting.AppendAccounts | include/dtCore/src/dtLog/dtRtLog.hpp:224-255 | one append keeps the account, drops exactly the bytes cut off a long message and those for which a full buffer has no room after all is written that the device accepts, and keeps the held bytes the last ones exactly when the data is shorter than the buffer or nothing older is retained |
| StdoutAccounting.AppendMeans | include/dtCore/src/dtLog/dtRtLog.hpp:224-255 | data that fits is only buffered; otherwise the device gets what it accepts, and of the rest only the oldest bytes go, so that the buffer is full afterwards |
| StdoutAccounting.NothingDropped | include/dtCore/src/dtLog/dtRtLog.hpp:257-303 | when nothing was dropped, output followed by buffer is everything accepted |
| StdoutAccounting.LongMessageBreaksSuffix | include/dtCore/src/dtLog/dtRtLog.hpp:233-237 | a message as long as the buffer behind one retained byte leaves a buffer that is not the end of what was accepted |
| FileSink.BasicFileSink.constructor | include/dtCore/src/dtLog/dtRtLog.hpp:423-431 | a maximum of no files means one; the counter starts at the length of the opened file |
| FileSink.BasicFileSink.FlushBuffer | include/dtCore/src/dtLog/dtRtLog.hpp:552-595 | writes what it can, counts it, and discards the rest |
| FileSink.BasicFileSink.RotateFiles | include/dtCore/src/dtLog/dtRtLog.hpp:597-630 | flush, the rename chain from the highest index down, and a new file |
| FileSink.BasicFileSink.SinkIt | include/dtCore/src/dtLog/dtRtLog.hpp:454-503 | rotation test, direct write of long messages, buffering; and the size counter is the file's length afterwards, under any writes, opens and renames |
| FileSink.DirectSentIsAccepted | include/dtCore/src/dtLog/dtRtLog.hpp:474-489 | the direct write of a long message gets out all the device accepts before a write fails |
| FileSinkHistory.PathInjective | include/dtCore/src/dtLog/dtRtLog.hpp:613-621 | the numbered names of one base are all different |
| FileSinkHistory.PathStands | include/dtCore/src/dtLog/dtRtLog.hpp:613-621 | a backup's name is the log file's, a dot and its number in decimal |
| FileSinkHistory.RotationMoves | include/dtCore/src/dtLog/dtRtLog.hpp:611-622 | file i moves to i + 1 for every i, only the last backup is lost, the log file's place is free, other files are as they were |
| FileSinkHistory.RotationPlaces | include/dtCore/src/dtLog/dtRtLog.hpp:611-622 | whichever renames fail: what each place of the chain holds after a rotation, from the files before |
| FileSinkHistory.LogTotal | include/dtCore/src/dtLog/dtRtLog.hpp:454-503 | one message goes to the end of backups, log file and buffer taken together; only the oldest backup may go from the front, and only when log file, buffer and message are together beyond the limit |
| FileSinkHistory.LogWithinLimit | include/dtCore/src/dtLog/dtRtLog.hpp:454-503 | a message within the limit renames, opens and changes no other file; what is buffered, flushed or written directly, under any writes |
| FileSinkHistory.LogBeyondLimit | include/dtCore/src/dtLog/dtRtLog.hpp:464-503 | one beyond the limit starts a new log file with it, under any writes, renames and opens |
| FileSinkHistory.NoRotationWithinLimit | include/dtCore/src/dtLog/dtRtLog.hpp:464-468 | while the start's log file and buffer and all input are within the limit, no backup changes, nothing is renamed or opened, and nothing is lost unless a write fails |
| FileSinkHistory.ChainIsSuffix | include/dtCore/src/dtLog/dtRtLog.hpp:454-631 | while writes, renames and opens succeed, the chain and the buffer are the end of all there was and all logged, and all of it without a size limit |
| FileSinkHistory.OverlongIsSingle | include/dtCore/src/dtLog/dtRtLog.hpp:465-468 | whatever the disk does, a file over the limit holds one logged message or a first part of it, or was inherited; and the whole message while writes, renames and opens succeed |
| FileSinkHistory.OthersUntouched | include/dtCore/src/dtLog/dtRtLog.hpp:597-630 | files outside the chain are never touched |
| StatePublisher.StatePublisherGrpc.Publish | include/dtCore/src/dtDAQ/grpc/dtStatePublisherGrpc.hpp:274-280 | every session is offered the message, once |
| StatePublisher.StatePublisherGrpc.OnEvent | include/dtCore/src/dtDAQ/grpc/dtStatePublisherGrpc.hpp:366-378 | a turn of the dispatcher: handler or cancel, and a new session for a connection |
| StatePublisher.StatePublisherGrpc.Stop | include/dtCore/src/dtDAQ/grpc/dtStatePublisherGrpc.hpp:300-313 | every connected session is cancelled |
| StatePublisherSafety.SubscriberIsServed | include/dtCore/src/dtDAQ/grpc/dtStatePublisherGrpc.hpp:166-248 | over every history of a session: its writes are an in-order part of what was published from the completion of its request until a completion fails or the server stops, its queue is the end of that and within a limit that is not negative, and without a limit the two are all of it |
| StatePublisherSafety.HeardIsPublished | include/dtCore/src/dtDAQ/grpc/dtStatePublisherGrpc.hpp:166-248 | over every run a session is connected exactly from the success of its request to a failed completion or the stop, and hears exactly what is published meanwhile |
| StatePublisherSafety.ConnectionIsServed | include/dtCore/src/dtDAQ/grpc/dtStatePublisherGrpc.hpp:168-219 | in every reachable state, a session whose request completes writes the next message published, at once |
| StatePublisherSafety.ClosedIsSilent | include/dtCore/src/dtDAQ/grpc/dtStatePublisherGrpc.hpp:230-248 | a session that was cancelled never writes or queues again |
| StatePublisherSafety.LosesOnlyWhenFull | include/dtCore/src/dtDAQ/grpc/dtStatePublisherGrpc.hpp:204-214 | a step loses a message exactly when one is published behind a write in flight and the queue is at its limit |
| StatePublisherSafety.QueueDrains | include/dtCore/src/dtDAQ/grpc/dtStatePublisherGrpc.hpp:176-187 | when publishing pauses and writes succeed, the whole queue is written, in order |
| StatePublisherSafety.AtMostOneOperation | include/dtCore/src/dtDAQ/grpc/dtStatePublisherGrpc.hpp:166-221 | no session ever has two operations outstanding |
| StatePublisherSafety.OneSessionWaits | include/dtCore/src/dtDAQ/grpc/dtStatePublisherGrpc.hpp:283-289 | until the server stops exactly one session, the newest, waits for a connection with its request pending |
| StatePublisherSafety.SessionsAreNeverRemoved | include/dtCore/src/dtDAQ/grpc/dtStatePublisherGrpc.hpp:188-192 | the state that would remove a session is unreachable |
| StatePublisherSafety.StepIsLocal | include/dtCore/src/dtDAQ/grpc/dtStatePublisherGrpc.hpp:166-248 | a session is changed only by publishing, stopping and its own completions |
| ServiceListener.ServiceListenerGrpc.OnEvent | include/dtCore/src/dtDAQ/grpc/dtServiceListenerGrpc.hpp:95-106 | a turn of the dispatcher: the handler, and cancel and removal when it returns false |
| ServiceListenerSafety.TagsMatchSessions | include/dtCore/src/dtDAQ/grpc/dtServiceListenerGrpc.hpp:95-106 | a session that is there has exactly one operation outstanding, one that is gone has none, and an empty queue means no session |
| ServiceListenerSafety.AlwaysReadyForTheNextCall | examples/example_grpc_service_listener/example_grpc_service_listener.cpp:36-53 | until the server stops, each procedure has as many sessions waiting as were registered for it |
| ServiceListenerSafety.SessionsAreCounted | include/dtCore/src/dtDAQ/grpc/dtServiceListenerGrpc.hpp:95-146 | over every run, each registration and each matched call adds one session and each other completion removes one |
| ServiceListenerSafety.StopDrainsIff | include/dtCore/src/dtDAQ/grpc/dtServiceListenerGrpc.hpp:114-146 | after Stop, with nothing registered any more, the sessions only go, one for each completion, exactly when no call is dispatched that was matched before the server shut down |
| ServiceListenerSafety.OnlyGoesIffNoneWaits | include/dtCore/src/dtDAQ/grpc/dtServiceListenerGrpc.hpp:114-146 | as it stands at any moment, such as at Stop: with nothing registered any more, no continuation adds a session exactly when no session waits for a call |
| ServiceListenerSafety.StopAddsSession | include/dtCore/src/dtDAQ/grpc/dtServiceListenerGrpc.hpp:114-127 | a run in which a call matched before Stop adds a session after it |
| ServiceListenerSafety.StopCancelsNothing | include/dtCore/src/dtDAQ/grpc/dtServiceListenerGrpc.hpp:188-204 | the cancel in Stop changes no session of the shipped kind |
| StateSubscriber.Session.OnEvent | include/dtCore/src/dtDAQ/grpc/dtStateSubscriberGrpc.hpp:186-198 | a turn of the receiving loop and its decision to leave |
| StateSubscriberSafety.SubscriberIsOrderly | include/dtCore/src/dtDAQ/grpc/dtStateSubscriberGrpc.hpp:186-277 | over every interleaving with Stop: one start, then reads, then at most one finish and no read after it; never two reads outstanding; what the handler got is, in order, what was received since it was registered, but for at most the last message |
| StateSubscriberSafety.LoopLeavesIff | include/dtCore/src/dtDAQ/grpc/dtStateSubscriberGrpc.hpp:186-258 | a completion ends the loop exactly when it failed or the call was finishing; otherwise the next read is issued and the message handed on |
| StateSubscriberSafety.CancelFinishesIff | include/dtCore/src/dtDAQ/grpc/dtStateSubscriberGrpc.hpp:261-277 | cancelling, by the loop or by Stop, finishes a call that is being read, and no other |
| StateSubscriberSafety.ShutIsFinalIffInactive | include/dtCore/src/dtDAQ/grpc/dtStateSubscriberGrpc.hpp:280-298 | shutting the queue ends all operations exactly when the call is neither being read nor yet to start |
| StateSubscriberSafety.StopBeforeStartReadsLate | include/dtCore/src/dtDAQ/grpc/dtStateSubscriberGrpc.hpp:280-283 | a trace in which a read is issued on a queue that has been shut |
| McapFraming.ParseSubfile | examples/example_mcap_filesink/analysis_mcap.py:15-81 | the loop gives the scan's end offset, counts and flag, or the exception |
| McapFraming.ParseMcap | examples/example_mcap_filesink/analysis_mcap.py:98-118 | the loop over sub-files gives the totals |
| McapFraming.Unpack | examples/example_mcap_filesink/analysis_mcap.py:45-46 | eight bytes as a number, the lowest first |
| McapFraming.Scan | examples/example_mcap_filesink/analysis_mcap.py:25-81 | the offset always moves on and never past the end, and an unclosed sub-file reaches the end |
| McapRoundTrip.CountsAreRecovered | examples/example_mcap_filesink/analysis_mcap.py:84-123 | analysing the encoding of any sub-files, whatever their payloads, recovers the numbers of sub-files, records and chunks |
| McapRoundTrip.CutFileCountsWholeRecords | examples/example_mcap_filesink/analysis_mcap.py:33-81 | for a cut anywhere behind the last leading magic: failure exactly when it is in a footer before its offsets end, else exactly the whole records, and a cut chunk among the chunks |
| McapRoundTrip.CutMeans | examples/example_mcap_filesink/analysis_mcap.py:49-73 | which record the cut is in, and what that means for the counts |
| McapRoundTrip.DamageEndsCount | examples/example_mcap_filesink/analysis_mcap.py:38-43 | a sub-file damaged behind any records: those are counted, and nothing of what follows is |
| McapRoundTrip.TrailingIsIgnored | examples/example_mcap_filesink/analysis_mcap.py:98-108 | bytes behind the last sub-file that are no magic end the analysis with the counts so far |
| McapFileWriter.FileWriterCustom.HandleWrite | include/dtCore/src/dtDAQ/mcap/dtDataSinkPBMcap.hpp:81-102 | what is written is the front of the data, as much of it as the device accepts before a write fails, and the size is the file's length under any writes |
| DescriptorSet.BuildFileDescriptorSet | include/dtCore/src/dtDAQ/mcap/dtDataSinkPBMcap.hpp:237-260 | ends on every finite graph, cyclic or not; top file first, no name twice, only reachable files, and all of them when names identify files; breadth first: the result is what it itself mentions, file by file, each where it comes up first |
| FileNames.DirectorySplit | src/core/utils/dtFileHelper.cpp:47-64 | the split is the only one at the last separator, and joining restores any path |
| FileNames.ExtensionSplit | src/core/utils/dtFileHelper.cpp:79-96 | the parts make up any name; there is an extension exactly when one can be split off, and then in one way |
| FileNames.IndexedInjective | src/core/utils/dtFileHelper.cpp:124-137 | numbered names are pairwise different for every name and all 32-bit numbers |
| FileNames.IndexedStands | src/core/utils/dtFileHelper.cpp:124-137 | the number, in decimal, stands behind a dot before the extension, or at the end of a name without one; number 0 is not shown |
| FileNames.IndexesRepeat | src/core/utils/dtFileHelper.cpp:134-134 | from 2^32 on the printed numbers repeat |
| McapRotator.DataSinkPBMcapRotator.Rotate | include/dtCore/src/dtDAQ/mcap/dtDataSinkPBMcapRotator.hpp:90-115 | the shift from the highest index down, the removal before each rename, the new file, the exception |
| McapRotator.DataSinkPBMcapRotator.Publish | include/dtCore/src/dtDAQ/mcap/dtDataSinkPBMcapRotator.hpp:49-67 | rotates when the estimate would exceed the maximum, and throws exactly when a rename fails |
| McapRotatorHistory.PublishMeans | include/dtCore/src/dtDAQ/mcap/dtDataSinkPBMcapRotator.hpp:49-67 | within the maximum only the current file changes; beyond it the message is the first of a new file, and a failed rotation stores it nowhere |
| McapRotatorHistory.RotationMovesUp | include/dtCore/src/dtDAQ/mcap/dtDataSinkPBMcapRotator.hpp:97-114 | from any files, under the names of any rotator and with successful renames: where each file is afterwards |
| McapRotatorHistory.ContiguousMovesUp | include/dtCore/src/dtDAQ/mcap/dtDataSinkPBMcapRotator.hpp:97-111 | from files 0 to m, file i moves to i + 1, the range stays contiguous within the maximum, and only the last can be overwritten |
| McapRotatorHistory.FailedRotation | include/dtCore/src/dtDAQ/mcap/dtDataSinkPBMcapRotator.hpp:104-114 | a rotation with a failing rename: lower files unmoved, higher ones moved, its target gone, and what the base name held replaced by the new file, if that can be opened |
| McapRotatorHistory.SizesAreBounded | include/dtCore/src/dtDAQ/mcap/dtDataSinkPBMcapRotator.hpp:49-87 | from the constructor on, over any files and whatever fails: each file is within the maximum, holds a single message, or was there before; and the estimate is never below the current file's size and above the maximum only for one message |
| McapRotatorHistory.EstimateIsExact | include/dtCore/src/dtDAQ/mcap/dtDataSinkPBMcapRotator.hpp:49-87 | over every run in which no rotation fails and each leaves an open file, an exact estimate stays exact |
| McapRotatorHistory.PublishIsExact | include/dtCore/src/dtDAQ/mcap/dtDataSinkPBMcapRotator.hpp:54-66 | a rotation that succeeds makes the estimate exact, whatever it was |
| McapRotatorHistory.ChainIsSuffix | include/dtCore/src/dtDAQ/mcap/dtDataSinkPBMcapRotator.hpp:49-115 | while renames and opens succeed, the files from the oldest on are the end of all there was and all published |
| ConfMerge.MergeNodes | include/dtCore/src/dtUtils/dtConf.hpp:220-256 | the recursion with its loops over entries and items gives the merge, or what the library refuses |
| ConfMerge.Conf.Append | include/dtCore/src/dtUtils/dtConf.hpp:79-104 | which of return value, exception and new tree an append gives |
| ConfMergeLaws.MergedAt | include/dtCore/src/dtUtils/dtConf.hpp:231-255 | what is at every key path of the merge, from the two trees at that path; two lists there are joined in order when they are concatenated, and of anything but two maps the overriding one stays |
| ConfMergeLaws.MergedUnderKey | include/dtCore/src/dtUtils/dtConf.hpp:231-239 | for any trees, nulls included: each key holds the merge of what both hold, or what the base holds alone |
| ConfMergeLaws.KeysOver | include/dtCore/src/dtUtils/dtConf.hpp:231-239 | the keys of a merge are those of the base in their order, and behind them the new ones in theirs |
| ConfMergeLaws.RefusedIff | include/dtCore/src/dtUtils/dtConf.hpp:234-238 | a merge is refused exactly when the overriding tree holds null at a path whose last key the base lacks |
| ConfMergeLaws.MergeIsClean | include/dtCore/src/dtUtils/dtConf.hpp:220-256 | merging trees without nulls under keys is never refused and gives such a tree |
| ConfMergeLaws.MergedTwice | include/dtCore/src/dtUtils/dtConf.hpp:220-256 | in override mode, merging the same tree again changes nothing, order of keys included |
| ConfMergeLaws.MergingInTurn | include/dtCore/src/dtUtils/dtConf.hpp:220-256 | three trees may be merged in either order exactly when no sandwich hides anything, in both modes |
| ConfMergeLaws.SandwichHides | include/dtCore/src/dtUtils/dtConf.hpp:251-255 | three trees whose merge depends on the order |
| TuiHistory.RtTui.Tick | src/core/log/dtRtTui.cpp:417-440 | the ring always holds the newest entries in order, and the offset follows or stays with the view |
| TuiHistory.RtTui.RenderLines | src/core/log/dtRtTui.cpp:671-712 | the lines drawn are the entries of the window |
| TuiHistory.FollowingIsAtTheEnd | src/core/log/dtRtTui.cpp:753-834 | for every history of arrivals and keys, a view that follows has offset 0 |
| TuiHistory.FollowingShowsNewest | src/core/log/dtRtTui.cpp:671-681 | such a view shows the newest entries, as many as fit |
| TuiHistory.PausedStaysPut | src/core/log/dtRtTui.cpp:421-439 | while paused, any number of arrivals leaves the first entry shown where it is, or at the oldest kept, for every window height |
| TuiHistory.DownsMove | src/core/log/dtRtTui.cpp:779-788 | the down key, any number of times and from any state: presses that take back an overshoot leave the window, each further one moves it by a line, until it shows the newest |
| TuiHistory.DownMovesIff | src/core/log/dtRtTui.cpp:779-788 | one press moves the window exactly when the offset is one the window can show |
| TuiHistory.UpMoves | src/core/log/dtRtTui.cpp:774-777 | the up key moves the window one line towards the oldest entry kept, from any state, and stops the view |
| TuiHistory.PageUpMoves | src/core/log/dtRtTui.cpp:790-796 | Page Up moves it by a page, as far as the oldest entry kept, and stops the view |
| TuiHistory.PageDownMoves | src/core/log/dtRtTui.cpp:798-815 | Page Down moves it by a page less an overshoot, as far as the newest entry, and which presses make the view follow |
| TuiHistory.HomeAndEndMove | src/core/log/dtRtTui.cpp:817-825 | Home shows the oldest entries kept and stops the view, End the newest and makes it follow |
| TuiHistory.OtherKeysStay | src/core/log/dtRtTui.cpp:753-834 | no other input moves the window or changes whether it follows |

## Handlers

Single handlers, each tied to the function on values that the results above are about:

| member | source | states |
|---|---|---|
| FileSink.BasicFileSink.OpenFile | include/dtCore/src/dtLog/dtRtLog.hpp:520-550 | opens for appending, or truncates, and takes the size from what was there |
| StatePublisher.Session.Publish | include/dtCore/src/dtDAQ/grpc/dtStatePublisherGrpc.hpp:200-221 | queues behind a write in flight, dropping the oldest when full, or starts a write |
| StatePublisher.Session.OnCompletionEvent | include/dtCore/src/dtDAQ/grpc/dtStatePublisherGrpc.hpp:166-198 | the call-state steps on a completed operation |
| ServiceListener.Session.OnCompletionEvent | examples/example_grpc_service_listener/example_grpc_service_listener.cpp:24-73 | every branch of the handler: state, return value and whether Finish is issued |
| ServiceListener.Session.TryCancelCallAndShutdown | include/dtCore/src/dtDAQ/grpc/dtServiceListenerGrpc.hpp:188-204 | which states a cancel changes |
| StateSubscriber.Session.OnCompletionEvent | include/dtCore/src/dtDAQ/grpc/dtStateSubscriberGrpc.hpp:210-258 | the call-state steps: first read, delivery and next read, end |
| StateSubscriber.Session.TryCancelCallAndShutdown | include/dtCore/src/dtDAQ/grpc/dtStateSubscriberGrpc.hpp:261-277 | Finish is issued unless the call has not started or is already finishing |
| TuiHistory.RtTui.HandleKey | src/core/log/dtRtTui.cpp:753-834 | what each scroll key does to offset and mode |

## Left out

- Weak memory: atomic steps are in sequentially consistent order; a copy of an entry into a slot may
  become visible in parts.
- spdlog formatting, fmt, printf, syslog and the colour codes around a message: a formatted message is
  text.
- Clocks, sleeps, adaptive polling intervals, rate-limited flushes, thread creation and priorities.
- gRPC, protobuf, the MCAP writer and yaml-cpp internals: an issued operation completes at most once.
- ANSI drawing, column layout, the key reader, layout switching, the scrollbar and `FlushOutput`.
- Directory creation, date annotation and the 64-bit overflow of sizes, counters and session ids.
- RtLog.TerminateFlushes: assumes, like the other results on Terminate, that the join of the polling thread succeeded, since Terminate drains only then.
- ContLines.Assembler.FlushContLines: a formatting exception, which would leave the pattern changed, is not modelled.
- StdoutSink.ColorStdoutSink.FlushBuffer: every error but EINTR ends the flush, as in the code, so they are one case.
- FileSink.BasicFileSink.SinkIt: an open file always writes at its end; another process that truncates the file is not modelled.
- StatePublisher.StatePublisherGrpc.OnEvent: each handler is one step, so the unlocked reads of the call state in TryCancelCallAndShutdown do not race.
- ServiceListener.Session.OnCompletionEvent: is the shipped example's handler; other subclasses bring their own.
- StateSubscriber.Session.OnCompletionEvent: the status it tests is never anything but ok before Finish, so the two tests of it are not in the model.
- McapFraming.ParseMcap: printing and file reading are not modelled.
- McapFileWriter.FileWriterCustom.HandleWrite: a device that keeps accepting nothing keeps the loop going; the model's device does so finitely often.
- McapRotator.DataSinkPBMcapRotator.Publish: what a file holds is the messages given to it; headers, chunks and indexes of the MCAP writer, and write errors, are not modelled.
- FileNames.DirectorySplit: names hold no NUL character, and the only separator is the one used outside Windows when splitting.
- DescriptorSet.BuildFileDescriptorSet: a dependency is a position in the pool, so that a file's own descriptor is one object.
- ConfMerge.Conf.Append: says nothing of the tree after an exception, and nodes are values, because the library's nodes share their parts.
- TuiHistory.RtTui.HandleKey: keys other than the scroll keys change neither offset nor mode, and what else they do is not modelled.
