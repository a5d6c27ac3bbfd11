# Verification of the mmWave driver

A Dafny model of an ESP32 driver for the Seeed MR24HPC1 presence radar, with proofs of what it promises:

- **The streaming parser and frame builder** (`Protocol`, `ParserMachine`, `ParserSafety`, `Scanner`, `Chunking`,
  `Delivery`, `CallStatus`, `LimitedMemory`, `MmwaveCore`). `MmwaveCore` is the code in its own form: fields, a
  growing byte buffer written in place, a loop whose index goes both ways. Each of its methods is tied to a small-step
  machine over the absolute byte stream, and the theorems are about that machine: refinement of a recursive scanner,
  independence of chunk boundaries, exact delivery, round trips, cost. Where the code and its comments differ (the
  rewind after a rejected candidate) both variants are modelled.
- **The decoder and the event queues** (`Decoder`, `EventQueue`, `QueueThreads`, `EndToEnd`, `LostChunks`,
  `ExactPipeline`), up to end-to-end theorems from UART bytes to polled events.
- **The HAL's concurrency** (`Quota`, `Shutdown`, `Lifecycle`): the memory quota under any interleaving, the
  drain-then-stop handshake with its safety and its progress, and the life cycle over all call sequences.
- **The vendored WebSocket client** (`WsSend`, `WsReassembly`, `WsReceive`, `WsThreads`, `WsEnding`,
  `WsReactions`): fragmentation against a receiver that follows RFC 6455, receiving, the discipline of the two locks,
  the events of a connection, what the client does when something happens, and the end.

Everything the program cannot decide itself (bytes, chunk sizes, allocation, queue room, schedules, transport
answers) is a parameter, so the theorems hold for all of it. Concurrent parts are sequences of actions, one action a
step of one task; "in every interleaving" means for every such sequence.

What turned out false of the code is stated as it is, with a concrete witness and the exact condition under which
the promise holds:

- The comments ask a rejected candidate to cost two bytes; the length is cleared first, so it costs two plus the
  declared length (`RewindAsWrittenHidesAFrame`; exactly when: `FoundUnlessJumpedOver`).
- Splitting a stream into calls can lose frames (`SplittingCanLoseAFrame`), exactly when a rejection reaches back
  across the start of its chunk (`ChunkIndependence`).
- "No frames" is documented for calls whose bytes were all discarded; it is also returned in the middle of a frame
  (`NoFramesInMidFrame`; exactly when: `OldCandidateStandsIff`) and when good frames met a full queue
  (`FullQueueIsNeverTold`; exactly when: `StatusMeaning`).
- With an allocator that has a limit, three oversized headers in a row cost the parser its buffer
  (`ThreeHugeHeadersCrash`; exactly when: `LimitedStreamScans`).
- The decoder reports frames that are no report frames (`MisreadFramesAreReported`; exactly which:
  `ReportsAreReportFramesUnlessMisread`).
- Reports should come only from frames on the wire; but a chunk read and then dropped for want of memory leaves the
  parser where it was, and the chunks around it can join to a frame that was never on the wire
  (`DroppedChunkForgesAReport`; exactly when: `PolledEventsOnTheUart`; never for chunks dropped between frames:
  `IdleDropsHarmNothing`).
- The dispatcher can leave a received event unread when stopping (`StopCanStrandAnEvent`; exactly when:
  `WhatAStopLeavesBehind`).
- A system that was stopped and started again cannot receive, although the documented life cycle allows it, and its
  next stop deletes NULL mutexes (`RestartIsNotUsable`; exactly when: `RunningIsUsableIffStartedFromInit`,
  `NullMutexesAreDeletedBySecondStops`).
- A call that fails half-way can leave a system that no call can ever change again (`HalfDoneInitIsFatal`; exactly
  when: `LayersPartBy`, `StuckIffOutOfStep`).
- A stop that waits for its tasks need not end: a sender that keeps pace with the tx task holds it up
  (`BusySenderHoldsUpStop`; any slower sender does not: `StopTerminates`).
- There is no bound on DISCONNECTED events between two CONNECTED ones (`AnyNumberOfTerminals`; at most one exactly
  when: `TerminalsSinceConnected`).
- RFC 6455 forbids fragmented control frames and asks a PONG to repeat its PING; the client fragments long control
  bodies (`CloseThroughSmallBufferViolates`; exactly when: `ControlIsLawfulIffItFits`) and repeats a PING only when it
  was read at once (`PingInTwoReads`; exactly when: `PongIsFaithfulIffReadAtOnce`).

Check everything with `dafny verify dfyconfig.toml`.

## Model

| member | source | states |
|---|---|---|
| `Protocol.Wrap16` | components/mmwave/mmwave_core_seeed_studio.c:237-241 | Adding a byte in 16 bits keeps the low byte of the exact sum, whatever wraps. |
| `Protocol.Sum16LowByte` | components/mmwave/mmwave_core_seeed_studio.c:237-241 | The 16-bit checksum loop and the unbounded sum agree in the byte that is compared, for every length. |
| `Protocol.BuiltFrameIsWellFormed` | components/mmwave/mmwave_core_seeed_studio.c:324-359 | What the builder emits passes every check of the parser exactly when the payload fits the 16-bit length field, and the body the parser extracts is control word, command word and payload as given. |
| `Protocol.WellFormedIsBuilt` | components/mmwave/mmwave_core_seeed_studio.c:232-258 | Conversely, a byte string that passes the parser's checks is the builder's output for its own contents: the format has one encoding. |
| `ParserMachine.Step` | components/mmwave/mmwave_core_seeed_studio.c:163-294 | One loop iteration stays inside the chunk and, unless it crashes, either moves the start of the candidate forward or keeps it and consumes a byte: the measure by which the loop ends although its index goes backwards. |
| `ParserMachine.Drain` | components/mmwave/mmwave_core_seeed_studio.c:163-294 | A call, from any parser state and whatever the allocator answers, ends with the chunk used up (or dropped). |
| `ParserSafety.StepDecides` | components/mmwave/mmwave_core_seeed_studio.c:232-290 | When a candidate is complete the iteration records exactly one verdict about it and resumes where the code says, or gives the rest of the chunk up when the index would turn negative. |
| `ParserSafety.StepMoves` | components/mmwave/mmwave_core_seeed_studio.c:168-231 | An iteration that completes no candidate records nothing and never moves the candidate's start back. |
| `ParserSafety.ReadLengthKeepsCapacity` | components/mmwave/mmwave_core_seeed_studio.c:207-229 | After the length is read, by growing or by giving up on growing, the buffer has room for every byte of the candidate still to come. |
| `ParserSafety.StepIsSound` | components/mmwave/mmwave_core_seeed_studio.c:163-294 | Every iteration keeps the invariant: the buffer holds exactly the last bytes read, every write index is below the buffer size, the size is 20 while fewer than three big frames in a row were seen, and all recorded verdicts are true and in order. |
| `ParserSafety.DrainIsSound` | components/mmwave/mmwave_core_seeed_studio.c:163-294 | The invariant holds over whole calls, for every chunk, rewind and allocator. |
| `ParserSafety.StepSpendsCredit` | components/mmwave/mmwave_core_seeed_studio.c:279-289 | Each iteration spends credit although a rejection moves back by up to six bytes. |
| `ParserSafety.CallCost` | components/mmwave/mmwave_core_seeed_studio.c:163-294 | A call on n bytes makes at most 5n + 7 iterations from any parser state. |
| `Scanner.DrainScans` | components/mmwave/mmwave_core_seeed_studio.c:163-294 | Refinement: from any running state, on one buffer, the loop with rewinds delivers what a recursive scanner (find 53 59, read the length, accept and go on behind, or reject and resume) delivers, and is left holding the scanner's unfinished rest. For the rewind as written and for the one the comments describe. |
| `Scanner.WholeStreamScans` | components/mmwave/mmwave_core_seeed_studio.c:163-294 | From the initial state the events of the loop are those of the scanner on the whole stream. |
| `Scanner.ScanBounds` | components/mmwave/mmwave_core_seeed_studio.c:232-290 | Every decision of the scanner is about a complete candidate at the position it names. |
| `Scanner.FoundUnlessJumpedOver` | components/mmwave/mmwave_core_seeed_studio.c:279-289 | A genuine frame lying in the stream is found if and only if it begins before the unfinished last candidate and no decision jumped over its first byte. |
| `Scanner.FoundIfNothingReachesPast` | components/mmwave/mmwave_core_seeed_studio.c:163-294 | By the stream alone: a frame is found if no header before it declares a length reaching past its first byte. |
| `Scanner.IntendedLosesNothing` | components/mmwave/mmwave_core_seeed_studio.c:281-289 | With the rewind the comments describe, no rejection can hide a frame: only an accepted frame that overlaps it can. |
| `Chunking.DrainPrefix` | components/mmwave/mmwave_core_seeed_studio.c:163-294 | Parsing s followed by t begins with parsing s. |
| `Chunking.LoIrrelevant` | components/mmwave/mmwave_core_seeed_studio.c:163-294 | Where a chunk begins does not matter unless a rejection reaches back across that point. |
| `Chunking.ChunkIndependence` | components/mmwave/mmwave_core_seeed_studio.c:153-322 | For every stream, every split into calls, both rewinds and every behaviour of allocator and queue: nothing is dropped if and only if no rejection of the whole-stream parse reaches back across the start of the chunk it is decided in; and then events and final parser state equal those of one call. |
| `Chunking.EarlyRejectionDropsChunk` | components/mmwave/mmwave_core_seeed_studio.c:163-290 | A rejection at chunk index below 6 makes the index negative, ends the call and drops the rest of the chunk unread. |
| `Chunking.RunAppend` | components/mmwave/mmwave_core_seeed_studio.c:305-322 | One more call whose chunk was saved is one more drain, so any session of such calls is covered; a call whose chunk is refused leaves the parser alone. |
| `Delivery.EventsAreSegments` | components/mmwave/mmwave_core_seeed_studio.c:163-294 | For all bytes that reach the loop, all chunkings, all refusals inside the loop, lossy rewinds included: every verdict is about the segment of these bytes it names, accepts exactly a well-formed one, and verdicts come in order with nothing beginning inside an accepted frame, so accepted frames are disjoint. |
| `Delivery.ExactDelivery` | components/mmwave/mmwave_core_seeed_studio.c:168-273 | Frames separated by noise without an adjacent 53 59 are delivered completely, once, in order, however the stream is cut into calls and whatever header or footer bytes the payloads contain. |
| `Delivery.BuildParseRoundTrip` | components/mmwave/mmwave_core_seeed_studio.c:324-359 | Every frame built from a payload of at most 65535 bytes, fed in any pieces, comes out as exactly what went in, and the parser is idle again. |
| `Delivery.RewindAsWrittenHidesAFrame` | components/mmwave/mmwave_core_seeed_studio.c:279-282 | A concrete stream in which the rewind as written skips a genuine frame that the commented rewind finds. |
| `Delivery.SplittingCanLoseAFrame` | components/mmwave/mmwave_core_seeed_studio.c:279-282 | A concrete stream that loses its frame when cut into two calls and delivers it in one. |
| `CallStatus.StatusMeaning` | components/mmwave/mmwave_core_seeed_studio.c:153-299 | Whatever was refused, process_data returns FRAME_OK, QUEUE_FULL or MEMORY_PROBLEM if it delivered a frame; otherwise UNFINISHED exactly if it ends inside a candidate it began itself, and NO_FRAMES otherwise. |
| `CallStatus.StatusTellsLastFate` | components/mmwave/mmwave_core_seeed_studio.c:242-268 | If growing never fails, a call that delivered a frame tells the three values apart by the last good frame it met: FRAME_OK exactly if it was queued (the documentation promises it for any frame queued), QUEUE_FULL exactly if it had memory and no room, MEMORY_PROBLEM exactly if it had no memory. |
| `CallStatus.StatusTellsLastNotable` | components/mmwave/mmwave_core_seeed_studio.c:207-268 | Whatever was refused: a call that delivered a frame returns what the last notable thing it met calls for, be it the fate of a good frame or a refusal to grow for a long one (MEMORY_PROBLEM). |
| `CallStatus.FullQueueIsNeverTold` | components/mmwave/mmwave_core_seeed_studio.c:263-297 | While the frame queue stays full, no call ever returns QUEUE_FULL, whatever good frames it meets: lines 295-297 overwrite it. A statement about the core's status alone. |
| `CallStatus.IdleCallsTellTheTruth` | components/mmwave/mmwave_core_seeed_studio.c:295-297 | Called while the parser is idle, UNFINISHED means what is documented: a candidate is in building. |
| `CallStatus.OldCandidateStandsIff` | components/mmwave/mmwave_core_seeed_studio.c:171-197 | The other case, told before the call: the candidate of an earlier call is still being built, and NO_FRAMES returned, exactly if the bytes built before together with the chunk can still be a frame. |
| `CallStatus.NoFramesInMidFrame` | components/mmwave/mmwave_core_seeed_studio.c:295-298 | Two calls of one header byte each: the second returns NO_FRAMES with a frame in building. |
| `LimitedMemory.LimitedStreamScans` | components/mmwave/mmwave_core_seeed_studio.c:207-229 | On an allocator that refuses blocks beyond a limit, the loop delivers what a scanner finds that goes on six bytes behind an oversized header; it loses its buffer exactly at an oversized header that is the third big one in a row, and then crashes exactly if another header byte follows. |
| `LimitedMemory.LostDrains` | components/mmwave/mmwave_core_seeed_studio.c:168-179 | Without a buffer nothing more is decided, and the next header byte is written through NULL. |
| `LimitedMemory.ThreeHugeHeadersCrash` | components/mmwave/mmwave_core_seeed_studio.c:86-106 | Three headers declaring 65535 bytes and one more header byte crash the parser. |
| `LimitedMemory.TwoHugeHeadersAreSurvived` | components/mmwave/mmwave_core_seeed_studio.c:86-106 | Two such headers and then a genuine frame: the buffer is reallocated, nothing crashes and exactly that frame is delivered, for every limit from 20 to 65543. |
| `LimitedMemory.SomeAllocatorObeys` | components/my_hal/hal_mmwave_uart.c:108-126 | Such an allocator exists for every stream. |
| `MmwaveCore.Hal.AllocMem` | components/my_hal/hal_mmwave_uart.c:108-126 | The allocation callback hands out a fresh block of the size asked for, or nothing. |
| `MmwaveCore.Hal.FreeMem` | components/my_hal/hal_mmwave_uart.c:139-155 | The free callback takes back a live block; the size passed must be the size handed out, because the quota counter subtracts it. |
| `MmwaveCore.Hal.SaveFrame` | components/my_hal/hal_mmwave_uart.c:78-96 | A frame that is taken goes to the end of the frame queue and from then on belongs to the HAL. |
| `MmwaveCore.Core.RestartParser` | components/mmwave/mmwave_core_seeed_studio.c:86-106 | Resets the parser; with fewer than three big frames in a row the building buffer is given back and one of 20 bytes taken, or none if that is refused; with three or more it stays. No block leaks or is freed twice. |
| `MmwaveCore.Core.ExtendBuildingSpace` | components/mmwave/mmwave_core_seeed_studio.c:61-75 | A larger buffer with the same bytes built so far, the old one freed; or nothing, and nothing changed. |
| `MmwaveCore.Core.TakeLength` | components/mmwave/mmwave_core_seeed_studio.c:207-229 | A frame of length field + 9 bytes counts as big exactly if that reaches the buffer size, and anything smaller ends the count; it is kept exactly if it fits or growing is granted; the in-place handling equals the machine's ReadLength, and a refused extension leaks exactly the old buffer. |
| `MmwaveCore.Core.CheckFrame` | components/mmwave/mmwave_core_seeed_studio.c:232-241 | Footer test and 16-bit checksum loop decide exactly well-formedness. |
| `MmwaveCore.Core.HandOver` | components/mmwave/mmwave_core_seeed_studio.c:242-271 | The body of a good frame is copied out and queued if there is memory and room, freed if there is no room; the parser restarts either way. |
| `MmwaveCore.Core.Hunt` | components/mmwave/mmwave_core_seeed_studio.c:168-197 | Header search in place equals the machine's step and status update. |
| `MmwaveCore.Core.Collect` | components/mmwave/mmwave_core_seeed_studio.c:198-293 | Frame building in place equals the machine's step and status update. |
| `MmwaveCore.Core.ProcessData` | components/mmwave/mmwave_core_seeed_studio.c:153-299 | The imperative loop over the buffer, index moving both ways, ends in exactly the state, queue contents and status that the machine computes; besides its two buffers the core owns nothing new if growing never fails. |
| `MmwaveCore.Core.SaveChunk` | components/mmwave/mmwave_core_seeed_studio.c:310-320 | The bytes are copied into the internal buffer, which grows to fit; refused, buffer, size, bytes and all other blocks stay. |
| `MmwaveCore.Core.ParseData` | components/mmwave/mmwave_core_seeed_studio.c:305-322 | A whole call: unbound, or with a chunk that cannot be saved, it leaves the parser alone; otherwise parser state, delivered frames and status are those of the machine on the bytes parsed so far. MEMORY_PROBLEM is returned with nothing delivered exactly in the first two cases. |
| `MmwaveCore.Core.CoreInit` | components/mmwave/mmwave_core_seeed_studio.c:108-119 | Init leaves an idle parser with its starting buffer and reports whether it got one; the saving buffer and all other live blocks stay. |
| `MmwaveCore.Core.CoreStop` | components/mmwave/mmwave_core_seeed_studio.c:121-140 | Stop gives exactly the two buffers back, resets everything and unbinds the callbacks. |
| `MmwaveCore.Core.BuildFrame` | components/mmwave/mmwave_core_seeed_studio.c:324-359 | The builder writes exactly the frame of the protocol into a block of its own. |
| `MmwaveCore.TxSum` | components/mmwave/mmwave_core_seeed_studio.c:324-359 | The builder's 16-bit running sum has the low byte of the exact sum over header and payload. |
| `Decoder.ResponsesAreALookup` | components/app/app_mmwave_decoder.c:345-507 | Forty independent tests one after the other answer at most once, and as an independent lookup by control word, command word and length does. |
| `Decoder.ReportsAreNoResponses` | components/app/app_mmwave_decoder.c:155-507 | A frame that is a report triggers no response. |
| `Decoder.DecodingIsSingleValued` | components/app/app_mmwave_decoder.c:117-507 | Every frame body causes at most one callback; a report sets exactly one flag; a response has a known code and carries the payload unchanged. |
| `Decoder.ReportsMirrorFrames` | components/app/app_mmwave_decoder.c:155-344 | A report states what was in the frame; out-of-range codes leave the reset value. |
| `Decoder.ReportsAreReportFramesUnlessMisread` | components/app/app_mmwave_decoder.c:155-344 | A report comes out if and only if the frame is a report frame of the protocol constants (05/01 with the one byte 0F, 08/01 with five bytes, and the 80 reports with a named value), or is misread: control word 08 with five bytes under another command word, or 05/01 with anything but that byte. |
| `Decoder.MisreadFramesAreReported` | components/app/app_mmwave_decoder.c:156-221 | Four bodies that are no report frames by the constants and are reported all the same. |
| `Decoder.EchoDecodes` | components/app/app_mmwave_decoder.c:345-507 | The echo of each of the forty inquiries decodes to exactly the paired response with the payload sent. |
| `Decoder.EchoRoundTrip` | components/app/app_mmwave.c:65-407 | Build an inquiry, echo it over the wire in any pieces, parse it, decode it: exactly the response of the inquiry's kind with the payload that was sent. |
| `EventQueue.SendIsAccounted` | components/app/mmWave_manager.c:296-312 | Queueing an event keeps the account: the queue is the newest part of what was pushed; each older event was polled or dropped, never both, once, in order. |
| `EventQueue.TakeIsAccounted` | components/app/mmWave_manager.c:299-304 | Dropping or polling removes exactly the oldest queued event and keeps the account. |
| `EventQueue.AppQueue.OnEvent` | components/app/mmWave_manager.c:288-312 | A new event is queued, at the cost of the oldest if the queue is full; the branch behind a failing second send is unreachable; every heap block is freed at most once. |
| `EventQueue.AppQueue.GetEvent` | components/app/mmWave_manager.c:241-253 | Polling returns the oldest event and frees its block, or reports that there is none. |
| `EventQueue.AppQueue.DiscardOldest` | components/app/mmWave_manager.c:302-304 | The oldest block is taken out and freed; all other blocks stay. |
| `QueueThreads.EveryEventIsAccounted` | components/app/mmWave_manager.c:227-315 | In every interleaving of the decoder task and any number of pollers: at most 200 queued, pushed = polled + dropped + queued, and no second send ever fails. |
| `QueueThreads.PushedAreTheEventsBrought` | components/app/mmWave_manager.c:296-312 | What was pushed is exactly the events of the threads that got through, in the order in which they did. |
| `QueueThreads.NoCallIsLost` | components/app/mmWave_manager.c:288-312 | For each thread and in every interleaving, the events it was called with are those it got through, in order, and the one in hand. |
| `QueueThreads.StepDrops` | components/app/mmWave_manager.c:299-304 | An event is dropped only by a thread that finds 200 queued, and it is the oldest. |
| `QueueThreads.ThreadsAdvance` | components/app/mmWave_manager.c:227-315 | Each step of a thread that need not wait brings it nearer to the end of its call, no other thread sets it back, and its last step gives the mutex back. |
| `QueueThreads.PollAtRest` | components/app/mmWave_manager.c:241-253 | A poll made while nobody is inside returns the oldest event neither polled nor dropped, if there is one, and otherwise waits. |
| `QueueThreads.WaitingPollersWaitInVain` | components/app/mmWave_manager.c:241-253 | A poller keeps the mutex while it waits, so nothing can arrive meanwhile: it gets an event exactly when the queue was not empty as it took the mutex. |
| `EndToEnd.PolledEventsComeFromTheWire` | components/app/mmWave_manager.c:55-90 | In every interleaving of UART reads, parser iterations, decoder task and pollers, with any refusals: the reports polled, and the responses polled, are the decodings of disjoint well-formed segments of the bytes parsed, one each, in order; the bytes parsed are those read less the chunks dropped. |
| `LostChunks.BytesParsedAreBytesRead` | components/mmwave/mmwave_core_seeed_studio.c:305-322 | In every interleaving each byte parsed is the byte read at its recorded position, positions rise by one except across a dropped chunk, and bytes parsed and bytes read are the same exactly if no chunk was dropped. |
| `LostChunks.DroppedIffLongestYetAndNoRoom` | components/mmwave/mmwave_core_seeed_studio.c:310-320 | In every interleaving a chunk is dropped if and only if it is longer than every chunk kept before and gets no memory; otherwise it reaches the parser whole. |
| `LostChunks.UartSegmentIffNotTorn` | components/mmwave/mmwave_core_seeed_studio.c:310-313 | A segment of the bytes parsed was read as consecutive bytes if and only if no dropped chunk falls strictly inside it, and then it is that segment of the bytes read. |
| `LostChunks.PolledEventsOnTheUart` | components/mmwave/mmwave_core_seeed_studio.c:305-322 | In every interleaving, whatever is refused: the frames behind the events polled were read in order, one after the other, and each stood on the UART byte next to byte, as a frame that decodes to its event, if and only if no dropped chunk falls strictly inside it. |
| `LostChunks.IdleDropsHarmNothing` | components/mmwave/mmwave_core_seeed_studio.c:310-313 | A chunk refused while the parser is not inside a candidate harms nothing: if all refusals come then, every event polled is the decoding of a frame that stood on the UART. |
| `LostChunks.DroppedChunkForgesAReport` | components/mmwave/mmwave_core_seeed_studio.c:310-313 | 53 59 80 parsed, 02 02 02 02 dropped, 01 00 01 01 2F 54 43 parsed: a poller is told that someone is present, and no segment of what was read is a frame. |
| `EndToEnd.NoFrameGoesMissing` | components/app/mmWave_manager.c:55-90 | If the decoder task gets its memory, every frame the frame queue took is still under way, or its event was queued, or it decodes to nothing. |
| `EndToEnd.GoodFrameIsQueuedIffRoom` | components/my_hal/hal_mmwave_uart.c:78-96 | A good frame that got memory is queued if and only if fewer than 40 frames are in the frame queue. |
| `EndToEnd.PollGetsTheOldest` | components/app/mmWave_manager.c:227-253 | A poll hands out the oldest event that was neither polled nor dropped, if there is one. |
| `EndToEnd.PipelineDrains` | components/app/mmWave_manager.c:55-90 | Given its turns and its memory the decoder task gets through all frames under way. |
| `EndToEnd.WhatTheDecoderLoses` | components/app/mmWave_manager.c:73-82 | Without memory for its copy exactly the frame taken is lost, without memory for its event the frame in hand; events are dropped only from a queue of 200. |
| `ExactPipeline.SettledIsComplete` | components/app/mmWave_manager.c:255-315 | Once nothing is under way the two event queues have seen exactly the decodings of the frames taken, each once, in order. |
| `ExactPipeline.ExactlyTheStreamIsPushed` | components/app/mmWave_manager.c:55-90 | In every interleaving in which loop and decoder task get their memory, the frame queue does not overflow and no chunk is cut short: what was pushed is exactly the decodings of the frames the scanner finds in the bytes parsed, which are the bytes read exactly if no chunk was dropped. |
| `ExactPipeline.BuiltFramesArePushedExactly` | components/app/mmWave_manager.c:55-90 | For frames sent in quiet noise no chunk is ever cut short; so, if none is dropped, what was pushed is exactly the decodings of the frames read from the UART, whatever the chunks and the interleaving. |
| `EndToEnd.ParseAdds` | components/mmwave/mmwave_core_seeed_studio.c:242-271 | One parser iteration adds at most one frame to the frame queue, the body of the event it records. |
| `EndToEnd.DoIsGood` | components/my_hal/hal_mmwave_uart.c:78-96 | Every step of every task keeps the chain from stream segment to queued event intact. |
| `Quota.QuotaIsExact` | components/my_hal/hal_mmwave_uart.c:108-155 | After every step of every interleaving: the counter is the bytes of live blocks, plus frees in progress, plus TX blocks released behind its back, plus frees whose lock timed out; it never exceeds 32768; no subtraction wraps. |
| `Quota.RunIsSafe` | components/my_hal/hal_mmwave_uart.c:108-155 | The account and mutual exclusion hold in every state a run can reach. |
| `Quota.GrantedIffItFits` | components/my_hal/hal_mmwave_uart.c:113-126 | A request that has the mutex is granted, if the heap has the bytes, if and only if counter and bytes stay within 32768 and the bytes are at most 1024, whatever other tasks do between its steps: then there is one block of that size more and the counter has grown by it; otherwise it leaves and has changed nothing. |
| `Quota.RequestGetsTheMutex` | components/my_hal/hal_mmwave_uart.c:110-115 | A call for at most 2048 bytes waits for the mutex and gets it when it is free; a larger one returns at once. |
| `Quota.BytesAreConserved` | components/my_hal/hal_mmwave_uart.c:108-155 | In every interleaving the bytes granted are the bytes still live, freed or sent; every free of a live block and every TX release counts in full, and what timed-out frees forget is exactly their bytes. |
| `Quota.FreeIsSubtracted` | components/my_hal/hal_mmwave_uart.c:146-153 | A free that has the mutex takes exactly its bytes off the counter, whatever other tasks do between its steps. |
| `Quota.CallsAdvance` | components/my_hal/hal_mmwave_uart.c:108-155 | Each step of a task that need not wait brings its call nearer to its end, a wait that runs out or an empty heap ends it, the mutex is given back, and no other task sets it back. |
| `Quota.DoActsAlone` | components/my_hal/hal_mmwave_uart.c:108-155 | Only the task inside the mutex touches the counter. |
| `Quota.SpentQuotaStaysSpent` | components/my_hal/hal_mmwave_uart.c:225-249 | Once TX releases and timed-out frees add up to more than the quota less n, no request for n bytes is ever granted again. |
| `Shutdown.RunIsSafe` | components/my_hal/hal_mmwave_uart.c:172-249 | Every interleaving keeps the handshake's invariant: which flags are up at which point of which task, and that queues lose, duplicate and reorder nothing. |
| `Shutdown.EventsReachTheParser` | components/my_hal/hal_mmwave_uart.c:172-212 | In every interleaving and at every point: what the interrupt handler could queue was taken by the dispatcher or is queued; what it took was forwarded unless a ghost or without room, or is in its hands; what the rx task took was parsed if it was data and its read succeeded, or is in its hands. In order, and nothing else. |
| `Shutdown.SentIsWritten` | components/my_hal/hal_mmwave_uart.c:225-249 | Every frame sent before the HAL was stopped that found fewer than 40 queued is written, being written or queued, in order, and nothing else is written. |
| `Shutdown.NothingHappensBeforeTheStart` | components/my_hal/hal_mmwave_uart.c:176-179 | In every interleaving, until the start is through the rx and tx tasks wait: nothing is read, parsed, taken or written. |
| `Shutdown.RefusedStopChangesNothing` | components/my_hal/hal_mmwave_uart.c:349-353 | A stop that the driver refuses changes nothing. |
| `Shutdown.CoreStopsLast` | components/my_hal/hal_mmwave_uart.c:343-363 | mmwave_core_stop runs only after the rx task's last parse and the dispatcher's last post. By then, of what the dispatcher took, all but ghosts and what found 20 in the platform queue was forwarded, and every data event of these whose read succeeded was parsed, in order (all data events, if there was room and no read failed); and nothing is parsed or forwarded ever after. |
| `Shutdown.WhatAStopLeavesBehind` | components/platform/esp32/esp32_uart.c:135-165 | Exactly the UART events posted after the dispatcher last found its queue empty stay unread (none, were its two tests swapped); exactly the frames sent after the tx task last looked stay unsent. |
| `Shutdown.StopCanStrandAnEvent` | components/platform/esp32/esp32_uart.c:139-143 | A concrete run that stops with a received event unread, because the dispatcher looks at its queue before it reads the flag. |
| `Shutdown.DispatcherProgress` | components/platform/esp32/esp32_uart.c:139-164 | A ranking function over UART events and dispatcher positions decreases on every dispatcher step and never grows otherwise. |
| `Shutdown.RxProgress` | components/my_hal/hal_mmwave_uart.c:172-212 | The same for the rx task, over platform events. |
| `Shutdown.TxProgress` | components/my_hal/hal_mmwave_uart.c:225-249 | The same for the tx task, over queued frames: each of its steps lowers the rank by one until it is gone, and a frame sent meanwhile raises it by at most five. |
| `Shutdown.StopTerminates` | components/my_hal/hal_mmwave_uart.c:349-361 | Once the receiver is closed the stop ends in every interleaving that gives the dispatcher 204 steps, then rx 165 steps and tx 204 plus five for every frame sent meanwhile, then the caller 5. Any finite number of sends is harmless. |
| `Shutdown.StopCanBeHeldUp` | components/my_hal/hal_mmwave_uart.c:225-249 | The situation from which a sender can hold the stop up is reachable. |
| `Shutdown.BusySenderHoldsUpStop` | components/my_hal/hal_mmwave_uart.c:225-249 | The five is exact: a sender that keeps pace with the tx task, one send for every five of its steps, keeps it, and with it the stop, going for any number of rounds. |
| `Lifecycle.Manager.InitSys` | components/app/mmWave_manager.c:92-132 | Succeeds exactly on a system neither layer has initialised when everything can be created, and then nothing is missing; failing after the HAL has succeeded it leaves the HAL initialised and the application not. |
| `Lifecycle.Manager.StartSys` | components/app/mmWave_manager.c:134-154 | Succeeds exactly when both layers are initialised or both stopped and driver and task agree; the system is then usable exactly if it came from init. |
| `Lifecycle.Manager.StopSys` | components/app/mmWave_manager.c:156-184 | Succeeds exactly while running if the driver agrees; leaves nothing usable; hands two NULL mutexes to the kernel exactly if the running system was not usable. |
| `Lifecycle.Manager.DeinitSys` | components/app/mmWave_manager.c:186-202 | Succeeds exactly when both layers are initialised or both stopped and the driver agrees; both are then uninitialised and the callbacks gone. |
| `Lifecycle.RunningIsUsableIffStartedFromInit` | components/app/mmWave_manager.c:134-184 | For every sequence of calls and failures: successful calls follow the documented life cycle; and while running, frames can be parsed and events queued if and only if the system was started from init, not from stop. |
| `Lifecycle.NullMutexesAreDeletedBySecondStops` | components/app/mmWave_manager.c:171-180 | Over all sequences: two NULL mutexes are deleted for every stop that follows a start that follows a stop, and none otherwise. |
| `Lifecycle.RestartIsNotUsable` | components/app/mmWave_manager.c:134-184 | Init, start, stop, start: running and not usable; one more stop deletes two NULL mutexes. |
| `Lifecycle.LayersPartBy` | components/app/mmWave_manager.c:92-154 | The two layers fall out of step exactly by an allowed init or start in which the HAL succeeds and the application fails. |
| `Lifecycle.StuckIffOutOfStep` | components/app/mmWave_manager.c:92-202 | After any calls some call can still succeed if and only if the layers are in step; otherwise no call, deinit included, ever changes anything again. |
| `Lifecycle.HalfDoneInitIsFatal` | components/app/mmWave_manager.c:110-123 | A first init that cannot create its queues is such an end. |
| `WsSend.NextIsFirstPending` | managed_components/espressif__esp_websocket_client/esp_websocket_client.c:691-698 | The size and opcode byte chosen in a round of the loop are those of the first frame still to be sent, and the rest stays pending. |
| `WsSend.Client.AbortConnection` | managed_components/espressif__esp_websocket_client/esp_websocket_client.c:256-292 | Abort closes once: in closing, waiting or stopped states it does nothing; otherwise one DISCONNECTED, and the client waits to reconnect exactly if auto-reconnect is on. |
| `WsSend.Client.SendFragment` | managed_components/espressif__esp_websocket_client/esp_websocket_client.c:691-702 | One round fills the tx buffer and writes exactly the next frame. |
| `WsSend.Client.SendWithExactOpcode` | managed_components/espressif__esp_websocket_client/esp_websocket_client.c:655-746 | The send loop puts exactly the specified frames on the wire up to the first failure; it returns the length if all went through, otherwise the transport's error after aborting; refused arguments change nothing. |
| `WsReassembly.FragmentsAreTheMessage` | managed_components/espressif__esp_websocket_client/esp_websocket_client.c:691-738 | RFC 6455 section 5.4, for every data length and buffer size: a conforming receiver reassembles exactly the message, complete exactly when FIN was asked for. |
| `WsReassembly.FragmentsAreShaped` | managed_components/espressif__esp_websocket_client/esp_websocket_client.c:691-738 | The fragments concatenate to the data; only the first carries the opcode; FIN is on exactly the last when requested; all but the last are full. |
| `WsReassembly.FragmentCount` | managed_components/espressif__esp_websocket_client/esp_websocket_client.c:691-738 | There are max(1, ceil(len / size)) fragments. |
| `WsReassembly.CutMessageDeliversNothing` | managed_components/espressif__esp_websocket_client/esp_websocket_client.c:703-733 | A send that fails part-way completes no message at the receiver. |
| `WsReassembly.SendIsAllOrNothing` | managed_components/espressif__esp_websocket_client/esp_websocket_client.c:655-746 | Whatever the transport answers, the peer gets the whole message if the call reports its length and no message otherwise. |
| `WsReassembly.SendMessage` | managed_components/espressif__esp_websocket_client/esp_websocket_client.c:1493-1526 | send_text and send_bin: not connected, no transport, a negative length, bytes from nowhere, no lock or no buffer each give -1 and send nothing; otherwise the length is returned if and only if the transport takes every frame, and then the peer has exactly the message, and no message if not. |
| `WsReassembly.OpcodesAreThoseOfTheStandard` | managed_components/espressif__esp_websocket_client/esp_websocket_client.c:1427-1526 | The opcode bytes and the limit of 125 bytes are those of RFC 6455. |
| `WsReassembly.PartsAreOneMessage` | managed_components/espressif__esp_websocket_client/esp_websocket_client.c:1498-1521 | A partial text or binary send, any number of continuation sends and a final FIN are one message: the parts joined. |
| `WsReassembly.SendBetweenPartsViolates` | managed_components/espressif__esp_websocket_client/esp_websocket_client.c:677-687 | The lock covers one call only: a whole message sent between two parts breaks section 5.4. |
| `WsReassembly.ControlIsLawfulIffItFits` | managed_components/espressif__esp_websocket_client/esp_websocket_client.c:1427-1442 | A close, ping or pong sent through the loop is lawful by section 5.5 if and only if its body fits both the buffer and 125 bytes. |
| `WsReassembly.CloseThroughSmallBufferViolates` | managed_components/espressif__esp_websocket_client/esp_websocket_client.c:1427-1442 | A close frame with a status code, sent through a buffer of one byte, is a violation. |
| `WsReassembly.CallsArriveInOrder` | managed_components/espressif__esp_websocket_client/esp_websocket_client.c:677-746 | Any sequence of lawful calls arrives as exactly those messages, in order. |
| `WsReceive.Inbox.ReadFrame` | managed_components/espressif__esp_websocket_client/esp_websocket_client.c:1045-1067 | The receive loop makes exactly the reads, events and buffer content that the transport's answers determine. |
| `WsReceive.Inbox.Recv` | managed_components/espressif__esp_websocket_client/esp_websocket_client.c:1038-1117 | A whole call: its result, events, state and the exact PONG are determined by frame, buffer and answers; anything but a complete frame sends nothing and changes no state. |
| `WsReceive.EventsAreThePayload` | managed_components/espressif__esp_websocket_client/esp_websocket_client.c:1064-1067 | A handler that appends what the DATA events carry has the payload, byte for byte, as far as it was read. |
| `WsReceive.EventsSayWhereTheyBelong` | managed_components/espressif__esp_websocket_client/esp_websocket_client.c:1064-1067 | Each DATA event carries the offset behind the events before it, the bytes that stand there, and the length and kind of the payload. |
| `WsReceive.SuccessReadsAll` | managed_components/espressif__esp_websocket_client/esp_websocket_client.c:1045-1067 | A successful call has read the whole frame. |
| `WsReceive.SteadyReadsSucceed` | managed_components/espressif__esp_websocket_client/esp_websocket_client.c:1045-1067 | A frame whose bytes keep coming is received whole. |
| `WsReceive.FailingReadFails` | managed_components/espressif__esp_websocket_client/esp_websocket_client.c:1047-1058 | A read that fails before the frame is complete ends the call in failure, after exactly the bytes that came before. |
| `WsReceive.PongIsFaithfulIffReadAtOnce` | managed_components/espressif__esp_websocket_client/esp_websocket_client.c:1069-1102 | By the read lengths alone: the PONG repeats the PING for every payload if and only if the last read begins at the payload's first byte. |
| `WsReceive.PingInTwoReads` | managed_components/espressif__esp_websocket_client/esp_websocket_client.c:1069-1102 | A two-byte PING in two reads is answered with its second byte and stale buffer content. |
| `WsThreads.RunKeepsLocks` | managed_components/espressif__esp_websocket_client/esp_websocket_client.c:677-743 | In every interleaving each lock is held by exactly the thread whose position says so, and once. |
| `WsThreads.NoDeadlock` | managed_components/espressif__esp_websocket_client/esp_websocket_client.c:677-743 | No thread waits for the transmit lock while holding the client lock, and every chain of waiting threads ends after at most two with one that can step: no wait cycle is reachable. |
| `WsThreads.ErrandsEndWithLockHeldOnce` | managed_components/espressif__esp_websocket_client/esp_websocket_client.c:1075-1102 | Whichever way a PING, PONG or CLOSE goes (sent, timed out, connection gone), the task ends holding the client lock once and not the transmit lock. |
| `WsThreads.ErrandsAdvance` | managed_components/espressif__esp_websocket_client/esp_websocket_client.c:1229-1319 | On a PING, PONG or CLOSE path every step that is not held up at a lock lowers a rank, and no other thread sets it back. |
| `WsThreads.ErrandsComeBack` | managed_components/espressif__esp_websocket_client/esp_websocket_client.c:1229-1319 | So every such path returns, in every interleaving, after at most three steps that are not held up. |
| `WsThreads.AbortKeepsHistory` | managed_components/espressif__esp_websocket_client/esp_websocket_client.c:256-292 | An abort, by the task or a sender, in whatever state it comes, keeps the order of events. |
| `WsThreads.OneTerminalPerConnection` | managed_components/espressif__esp_websocket_client/esp_websocket_client.c:1121-1383 | In every interleaving a connection is announced only after the previous one has ended, gets at most one DISCONNECTED or CLOSED, and any further such event is sent while no connection exists. |
| `WsThreads.DoAdds` | managed_components/espressif__esp_websocket_client/esp_websocket_client.c:256-292 | A step adds a terminal event without a connection exactly if it aborts while the client state is INIT (a failed connect, or a sender too late). |
| `WsThreads.TerminalsSinceConnected` | managed_components/espressif__esp_websocket_client/esp_websocket_client.c:1121-1383 | Over runs: from a CONNECTED event up to the next, the terminal events are one for the connection (none if it was stopped) plus one for every step that aborts in INIT; so there is at most one if and only if no step does, or a single one after a stop. |
| `WsThreads.AnyNumberOfTerminals` | managed_components/espressif__esp_websocket_client/esp_websocket_client.c:1160-1174 | For every n, a run with n + 1 terminal events between two CONNECTED events, all by failed attempts to reconnect. |
| `WsEnding.StoppedTaskEnds` | managed_components/espressif__esp_websocket_client/esp_websocket_client.c:1145-1383 | Once a stop is requested the task ends, in every interleaving, after at most 20 steps that are not held up at a lock, and FINISH is the last event. |
| `WsEnding.CloseIsAnswered` | managed_components/espressif__esp_websocket_client/esp_websocket_client.c:1111-1379 | After a CLOSE from the peer, if nobody stops the client and the transmit lock comes in time: the client sends its own CLOSE frame, unless it had, and then the one event that ends the connection, within 15 steps that are not held up, in every interleaving. |
| `WsReactions.StopEndsTheTask` | managed_components/espressif__esp_websocket_client/esp_websocket_client.c:505-519 | A stop requested of a running client ends its task in every interleaving. |
| `WsReactions.PingIsAnswered` | managed_components/espressif__esp_websocket_client/esp_websocket_client.c:1069-1101 | A PING that arrives while connected brings the task to sending a PONG under both locks, in every interleaving in which the transmit lock comes in time, with the connection as it was unless an event has told of its end. |
| `WsReactions.PingIsSent` | managed_components/espressif__esp_websocket_client/esp_websocket_client.c:1229-1259 | The same for the client's own PING when its interval is over. |
| `WsReactions.PingsAreWatched` | managed_components/espressif__esp_websocket_client/esp_websocket_client.c:1229-1273 | Once the client has closed no PING is sent; right after its PING the task looks whether a PONG is overdue, with the transmit lock given back; a PONG in time ends nothing. |
| `WsReactions.Connecting` | managed_components/espressif__esp_websocket_client/esp_websocket_client.c:1202-1282 | A start has an effect only while the task is off and begins an attempt to connect; a successful one sends CONNECTED, and bytes that came with the handshake are read; when the time to wait is over the next attempt is made, and not before. |
| `WsReactions.DataIsRead` | managed_components/espressif__esp_websocket_client/esp_websocket_client.c:1335-1341 | Bytes there to be read are read under the client lock; once the connection has gone nothing more is read or answered. |
| `WsReactions.SendersGetThrough` | managed_components/espressif__esp_websocket_client/esp_websocket_client.c:667-741 | No send begins on a client that is not connected, a wait for the lock that runs out ends it, and one that gets the free lock and succeeds gives it back and changes nothing else. |
| `WsReactions.LatePongEnds` | managed_components/espressif__esp_websocket_client/esp_websocket_client.c:1075-1082 | A PONG whose wait for the transmit lock runs out ends the connection. |
| `WsReactions.FailuresEndTheConnection` | managed_components/espressif__esp_websocket_client/esp_websocket_client.c:1161-1273 | A PONG that fails to come, a read that fails and an attempt to connect that fails each send one event, and the client waits to reconnect exactly if auto-reconnect is on. |
| `WsReactions.PollErrorEnds` | managed_components/espressif__esp_websocket_client/esp_websocket_client.c:1320-1334 | An error of the poll ends the connection and gives the lock back. |
| `WsReactions.FailedSendEnds` | managed_components/espressif__esp_websocket_client/esp_websocket_client.c:703-728 | A send that fails ends the connection and gives both locks back. |

## Left out

- MmwaveCore.Hal.SaveFrame: follows the interface (false means not taken). The frame queue overflow path is not modelled: there `_saveFrame` frees the block itself and the core then frees it again (hal_mmwave_uart.c:89, mmwave_core_seeed_studio.c:265), so ownership, quota and end-to-end results speak of runs without overflow; CallStatus speaks of the status alone.
- MmwaveCore.Core.HandOver: for the same reason does not show the second free of a block the full queue refused.
- MmwaveCore.Hal.AllocMem: whether an allocation is granted is an input of every run (any answers at all); size limits, quota and the wait for the mutex are the subject of Quota and LimitedMemory.
- MmwaveCore.Hal.FreeMem: the quota counter and its lock timeout are the subject of Quota.
- A write through a missing building buffer (after a refused reallocation) is modelled as a run that stops there (`crashed`).
- Bytes lost inside the UART driver: the bytes read are what uart_read returns. Those of a chunk the core refuses are followed in EndToEnd and LostChunks; in the modules before them the stream is the bytes that reach the parser's loop. Event sizes above 512 and failed reads are skipped as in the source.
- Shutdown, Quota, QueueThreads, EndToEnd and WsThreads are step machines over values, because interleavings are the point; each step is one access to shared state, flags and queue lengths are read atomically, and memory is sequentially consistent.
- Quota.QuotaIsExact: a free is charged with the size the block was allocated with; MmwaveCore proves that the core passes that size.
- Start-up: the machine of Shutdown begins when hal_mmwave_start, called after an init, has created its tasks and the queues are empty. `dispatcher_stop`, which only a function nobody calls sets, is left out; so is the manager's `task_ended`, which a restart without deinit never resets, so that the next app_stop_sys does not wait for its task (mmWave_manager.c:129, 167).
- The decoder's init and deinit flags and its context check; the response reset; 64-byte arrays are the used part of a sequence.
- Distances and speeds in reports are integers in half units.
- Counters (`big_frames_count`, `finished_frames`, loop indices) are unbounded integers; the checksum and the length field wrap as in C.
- mmwave_parse_data without callbacks returns an enum value of another type; numerically it reads as MEMORY_PROBLEM, which is what the model returns.
- Argument ranges, mode gating and the wrappers around the inquiry table; report callbacks of the higher application.
- Event blocks still queued when app_stop_sys deletes the queues are not freed there; Lifecycle records only that the queues are gone. At a failing init the mutexes or queues already created are forgotten.
- Starting the WebSocket client while its task is still ending; calls of the client's API from its own event handlers; reads that succeed on a closed transport.
- In WsThreads an abort is one step under the lock, ERROR, DATA and FINISH payloads are not carried, and redirects, headers, TLS and transport creation are left out.
- WsSend.Client.SendWithExactOpcode: the transport takes a frame whole or fails; one that takes part of a frame leaves no frames on the wire to speak of. A buffer size of 0, which would make the send loop endless, is excluded.
- WsReceive.Inbox.Recv: a PING longer than the receive buffer is excluded, as the source's own remark says it is not supported.
- WsReassembly.SendIsAllOrNothing: for the same reason speaks of transports that take a frame whole or fail.
- What the kernel does with a NULL mutex is not part of this model; Lifecycle counts how often it is handed one. Frames left in the frame queue by a stop, which the decoder task would find after a restart, are not followed.
- LimitedMemory: one buffer, a fixed limit; the limit that other live blocks put on the quota is not combined with the parser.
- The loops that empty the frame queues in hal_mmwave_flush_frames and hal_mmwave_deinit, and the waits for tasks to end in deinit and app_stop_sys; Lifecycle treats each call as one step.
- WiFi, the network layers, the packet serializer, the system monitor and the dataset tooling: thin wrappers and fixed layouts that would add only easy members.
