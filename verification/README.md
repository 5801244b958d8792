# IoT platform: a verified model

The platform connects battery-powered devices (C firmware and an ESP32 build in
C++) to a server (Go, with a SQL and an in-memory repository) and to a small PHP
deployment of the same API. This project models its protocol code in Dafny and
proves what that code keeps over every input and every run.

| file | what it models |
|---|---|
| `Basics.dfy` | machine widths, conversions, the record `telemetry_data_t` |
| `Varints.dfy`, `Wire.dfy`, `GoReader.dfy`, `Decoder.dfy`, `DecoderLaws.dfy`, `Termination.dfy`, `Fields.dfy`, `Failures.dfy` | the Go decoder of the telemetry message: varints, the four field loops over a `bytes.Reader`, when they end, when they fail, and the laws of the format |
| `Encoder.dfy` | the C encoder with its scratch buffers, and the round trip |
| `BoundedFifo.dfy`, `Rings.dfy` | one meaning for the two ring buffers, and both rings |
| `WakeCycle.dfy` | the wake cycle of the firmware with its offline buffer |
| `OsalQueue.dfy`, `Monitor.dfy` | the message queue under its mutex, and all interleavings of its users |
| `Commands.dfy`, `Repositories.dfy`, `History.dfy`, `Handler.dfy` | commands, the two Go repositories, the summaries and histories they keep, and the handlers |
| `C2.dfy`, `C2Answers.dfy`, `Interleavings.dfy`, `InMemoryRuns.dfy` | the Go server with overlapping requests, one shared access at a time, and its runs on the in-memory repository |
| `Json.dfy`, `Scanner.dfy`, `Acknowledgement.dfy`, `Cloud.dfy` | the PHP endpoint, the text of its replies, and the device that scans them by substring |
| `CloudRuns.dfy`, `CloudAcks.dfy`, `CloudInvariant.dfy`, `CloudResults.dfy`, `CloudExamples.dfy` | the PHP endpoint with every SQL statement a step of its own, failing statements, lost replies, travelling acknowledgements and resets of the device |

How to read it. Code that changes things step by step is a method, proved against
a function of the inputs or of the old state (`Decoded`, `RequestBytes`, `Cycle`,
`PendingOf`, `ScannedInterval` and others); the laws are lemmas about those
functions. Interleaved behaviour is a state machine (`Enabled`, `Next`) and its
results hold after every run.

Where an obvious claim is false of the code, the code is kept as it is and the
exact condition is proved:

- The decoder loops do not always end: a skipped length of 2^63 or more seeks
  backwards (`Wire.StepProgress`, `Wire.RewindNeverEnds`). A loop never ends exactly
  when it comes back to where it stood (`Wire.NeverEndsIffComesRound`).
- Not every cut input is refused: a message that ends inside the value of an unlisted
  length-delimited field decodes, because the skip seeks past the end. Every other cut
  behind a tag is an error (`Failures.TruncatedMessage`, `Failures.TruncatedSubmessage`).
- The encoder's 64-byte header buffer is large enough for every record exactly when
  |device_id| + |firmware_version| is at most 42 (`Encoder.HeaderFitsIff`), although a
  ring slot can hold 31 + 15 characters.
- docs/02_edge_requirements.md:18-19 draws a flush in FIFO order before the live
  record. The code sends the live record after an interrupted flush as well, so
  delivery stays FIFO exactly when that does not happen (`WakeCycle.FifoExactly`,
  `WakeCycle.RunInOrder`, `WakeCycle.OvertakingRun`).
- The stored interval of a device can disagree with its queue when two of its
  telemetries overlap, when an insert fails, or when a command is acknowledged that
  was never delivered; each has its counterexample in `Interleavings.dfy`.
- The in-memory repository rolls the interval back when the newer of two commands
  is acknowledged first (`InMemoryRuns.NewestAckFirstRollsBack`).
- The PHP endpoint marks all pending rows, not the rows it selected. A command queued
  between the two statements counts as delivered and is never listed, and an interval
  it asks for is lost (`CloudResults.UnlistedIffInWindow`, `CloudExamples.RaceLosesUpdate`).
  A CONFIG_UPDATE queued later makes up for it, which is why `CloudResults.StoredInterval`
  speaks of the last one only.
- A comment at edge/middleware/serializer/protobuf_serializer.c:84 speaks of
  zigzag; the code sign-extends, and so does the model.
- A comment at edge/platform/esp32/main.cpp:262 has the device also find an
  interval inside a command; the first match is always the top-level one
  (`Scanner.ScanOfReply`).

## Model

| member | source | states |
|---|---|---|
| Basics.Conversions | server/core/telemetry/proto_decoder.go:101-119 | the Go and C conversions keep a value modulo their width and give one of the range of their type |
| Varints.ReadVarint | server/core/telemetry/proto_decoder.go:20 | reading inverts the encoder's varint for every 64-bit value, and leaves whatever follows unread |
| Varints.VarintLength | edge/middleware/serializer/protobuf_serializer.c:13-21 | the encoding takes at most n bytes if and only if the value is below 128^n |
| Varints.VarintWidths | edge/middleware/serializer/protobuf_serializer.c:13-21 | 1 to 10 bytes for 64-bit values, at most 5 for 32-bit ones |
| Varints.ReadMinimal | server/core/telemetry/proto_decoder.go:20 | nothing the reader accepts is shorter than the encoder's form; re-encoding gives back the same bytes exactly when the input was minimal |
| Varints.PrefixFree | edge/middleware/serializer/protobuf_serializer.c:13-21 | a stream of varints splits in only one way |
| Varints.ReadsExactly | server/core/telemetry/proto_decoder.go:20 | a varint is read exactly where its bytes stand - all but the last at least 128, at most ten, the tenth at most 1 - with the sum of its 7-bit groups as value; anything else is an error |
| Wire.StepProgress | server/core/telemetry/proto_decoder.go:248-269 | an iteration shortens the unread input if and only if it is not a length-delimited skip whose length, as int64, rewinds to the field's start or before |
| Wire.ShortSkipsTerminate | server/core/telemetry/proto_decoder.go:19-77 | each of the four loops ends when every skip it reaches has a length below 2^63 |
| Wire.NeverEndsIffComesRound | server/core/telemetry/proto_decoder.go:19-77 | a loop never ends if and only if, within as many iterations as there are bytes, it comes back to a position where it already stood |
| Wire.UnfinishedIsForever | server/core/telemetry/proto_decoder.go:19-77 | a loop that has not ended after as many iterations as there are bytes never ends |
| Wire.RewindNeverEnds | server/core/telemetry/proto_decoder.go:256-262 | an input on which no number of iterations is enough |
| Wire.RunConcat | server/core/telemetry/proto_decoder.go:19-77 | the loop over a well-formed part followed by any part whose skips stay inside runs as the one loop and then the other |
| GoReader.Reader.ReadUvarint | server/core/telemetry/proto_decoder.go:20 | at most ten bytes, the tenth at most 1; value and new position |
| GoReader.Reader.ReadString | server/core/telemetry/proto_decoder.go:236-246 | a length and exactly that many bytes, or an error |
| GoReader.Reader.Seek | server/core/telemetry/proto_decoder.go:261 | signed offset, wrap at 2^63, negative targets refused, targets past the end accepted |
| GoReader.Reader.SkipField | server/core/telemetry/proto_decoder.go:248-269 | where each wire type leaves the reader, and which wire types fail |
| Decoder.HeaderIteration | server/core/telemetry/proto_decoder.go:84-128 | one iteration moves the reader to the next field and changes the header exactly as that field says, or aborts on a value it cannot read |
| Decoder.ParseHeader | server/core/telemetry/proto_decoder.go:82-130 | the loop computes the fold of its fields; a bad tag ends it silently, an unreadable value is an error |
| Decoder.MetricsIteration | server/core/telemetry/proto_decoder.go:134-185 | the same for one iteration on the metrics, floats as raw bits |
| Decoder.ParseMetrics | server/core/telemetry/proto_decoder.go:132-187 | the loop computes the fold of its fields |
| Decoder.StatusIteration | server/core/telemetry/proto_decoder.go:191-232 | the same for one iteration on the status, enum numbers to names |
| Decoder.ParseStatus | server/core/telemetry/proto_decoder.go:189-234 | the loop computes the fold of its fields |
| Decoder.RequestIteration | server/core/telemetry/proto_decoder.go:20-76 | one top-level iteration: a submessage is parsed onto the record so far, an unlisted field is skipped, a bad tag is an error |
| Decoder.DecodeTelemetryProtobuf | server/core/telemetry/proto_decoder.go:13-80 | payload, error or endless loop, as the specification function has it, for every byte string; `Failures.dfy` says which inputs are errors |
| Termination.DecodingTerminates | server/core/telemetry/proto_decoder.go:13-80 | decoding as a whole ends, with a payload or an error, when every skip it reaches, in submessages too, has a length below 2^63 |
| Termination.HangsIffComesRound | server/core/telemetry/proto_decoder.go:13-80 | decoding as a whole does not end if and only if the first submessage loop that does not finish comes round, or all finish and the top-level loop does |
| Termination.BudgetIsEnough | server/core/telemetry/proto_decoder.go:13-80 | no larger iteration budget changes the outcome of decoding, so a hang stays a hang |
| DecoderLaws.MergeHeader | server/core/telemetry/proto_decoder.go:82-130 | header bytes a + b parse as b on top of the result of a |
| DecoderLaws.MergeMetrics | server/core/telemetry/proto_decoder.go:132-187 | the same for metrics |
| DecoderLaws.MergeStatus | server/core/telemetry/proto_decoder.go:189-234 | the same for the status |
| DecoderLaws.MergeRequest | server/core/telemetry/proto_decoder.go:19-77 | the same for whole messages, errors included |
| DecoderLaws.MergeParts | server/core/telemetry/proto_decoder.go:19-77 | any number of well-formed parts joined together decode one on top of the other |
| DecoderLaws.AdjacentSubmessages | server/core/telemetry/proto_decoder.go:32-69 | two adjacent occurrences of a submessage act as one holding both contents, errors included |
| DecoderLaws.HeaderLastOneWins | server/core/telemetry/proto_decoder.go:92-124 | whatever bytes were parsed: each header field is its last occurrence in them, or as it was |
| DecoderLaws.MetricsLastOneWins | server/core/telemetry/proto_decoder.go:142-181 | the same for metrics |
| DecoderLaws.StatusLastOneWins | server/core/telemetry/proto_decoder.go:199-228 | the same for the status |
| DecoderLaws.UnlistedInHeader | server/core/telemetry/proto_decoder.go:82-130 | an unlisted field inserted at any field boundary of a header changes nothing |
| DecoderLaws.UnlistedInMetrics | server/core/telemetry/proto_decoder.go:132-187 | the same in metrics, for example custom_metrics |
| DecoderLaws.UnlistedInStatus | server/core/telemetry/proto_decoder.go:189-234 | the same in the status |
| DecoderLaws.UnlistedInRequest | server/core/telemetry/proto_decoder.go:71-76 | the same at top level |
| Fields.EncodedUnlisted | server/core/telemetry/proto_decoder.go:248-269 | every encoded field of wire type 0, 1, 2 or 5 with an unlisted number is such a field |
| Fields.UnlistedInSubmessage | docs/schemas/iot_message.proto:24 | an unlisted field inside a submessage of a whole message leaves the decoded payload unchanged |
| Fields.EncodedField | server/core/telemetry/proto_decoder.go:20-76 | an encoded field standing anywhere in the input is taken by one iteration, which stops right behind it |
| Fields.RepeatedSubmessageMerges | server/core/telemetry/proto_decoder.go:32-69 | a message with a submessage sent twice, other fields in between, decodes like the message with both contents in one, or neither decodes |
| Failures.IterationFails | server/core/telemetry/proto_decoder.go:84-128 | an iteration fails if and only if a tag can be read and its value cannot - a bad varint, a length beyond the end, fewer than 4 or 8 bytes left, wire type 3, 4, 6 or 7, a seek before the start - or, at top level, the tag itself is bad; spelled out on bytes |
| Failures.LoopFailsIff | server/core/telemetry/proto_decoder.go:19-77 | each of the four loops ends in an error if and only if it reaches such a position |
| Failures.DecodingFailsIff | server/core/telemetry/proto_decoder.go:13-80 | decoding is an error if and only if a submessage loop fails before any endless one, or all submessages end and the top-level loop fails |
| Failures.TruncatedMessage | server/core/telemetry/proto_decoder.go:20-76 | whole fields followed by an encoded field cut anywhere behind its tag decode to an error, but for the value of an unlisted length-delimited field cut behind its length, which changes nothing |
| Failures.TruncatedSubmessage | server/core/telemetry/proto_decoder.go:92-124 | the same for each submessage loop |
| Failures.TruncatedInside | server/core/telemetry/proto_decoder.go:32-69 | a submessage cut like that makes the whole message an error, whatever stands before and behind it |
| Encoder.RoundTrip | edge/middleware/serializer/protobuf_serializer.c:58-124 | decoding the encoder's bytes gives every record back, field by field: its own device id and firmware version or "UNKNOWN" and "1.0.0" for null strings, LOW_POWER, WARNING and ERROR as they are and any other state as NORMAL, negative rssi, all float bits |
| Encoder.HeaderRoundTrip | edge/middleware/serializer/protobuf_serializer.c:67-75 | the header alone, onto any previous header |
| Encoder.MetricsRoundTrip | edge/middleware/serializer/protobuf_serializer.c:77-87 | the metrics alone |
| Encoder.StatusRoundTrip | edge/middleware/serializer/protobuf_serializer.c:90-100 | the status alone |
| Encoder.SentSurvives | edge/middleware/serializer/protobuf_serializer.c:71-100 | each field of the record the decoder should see is that field of the record given to the encoder |
| Encoder.HeaderLayout | edge/middleware/serializer/protobuf_serializer.c:71-75 | the header bytes are fields 1 to 5 in this order, with their literal tags |
| Encoder.MetricsLayout | edge/middleware/serializer/protobuf_serializer.c:80-87 | the metrics bytes are fields 1 to 6 in this order, with their literal tags |
| Encoder.StatusLayout | edge/middleware/serializer/protobuf_serializer.c:93-100 | the status bytes are fields 1 to 3, the state as 1, 2, 3 or 0 |
| Encoder.RequestLayout | edge/middleware/serializer/protobuf_serializer.c:105-121 | the message is tag, length and bytes of header, metrics and status |
| Encoder.HeaderLength | edge/middleware/serializer/protobuf_serializer.c:69-75 | the exact length of the header |
| Encoder.ScratchBounds | edge/middleware/serializer/protobuf_serializer.c:63-123 | with the two strings of the record (7 and 5 bytes in place of null ones) at most 42 long together, header, metrics, status and message take at most 64, 38, 14 and 122 bytes |
| Encoder.HeaderFitsIff | edge/middleware/serializer/protobuf_serializer.c:69-75 | the header fits its 64 bytes for every clock, sequence number and boot count if and only if the two strings together have at most 42 bytes |
| Encoder.FortyThreeOverflows | edge/middleware/serializer/protobuf_serializer.c:69 | one character more needs 65 bytes for some record |
| Encoder.EncodeVarint | edge/middleware/serializer/protobuf_serializer.c:13-21 | appends the varint at the offset and touches nothing else |
| Encoder.EncodeStringField | edge/middleware/serializer/protobuf_serializer.c:37-44 | appends tag, length and the bytes of the string |
| Encoder.EncodeVarintField | edge/middleware/serializer/protobuf_serializer.c:46-50 | appends tag and varint |
| Encoder.EncodeFloatField | edge/middleware/serializer/protobuf_serializer.c:52-56 | appends tag and the four bytes, least significant first |
| Encoder.SerializeHeader | edge/middleware/serializer/protobuf_serializer.c:69-75 | fills the header buffer with the specified bytes, inside its 64 bytes |
| Encoder.SerializeMetrics | edge/middleware/serializer/protobuf_serializer.c:78-87 | the same for the metrics buffer |
| Encoder.SerializeStatus | edge/middleware/serializer/protobuf_serializer.c:91-100 | the same for the 32-byte status buffer |
| Encoder.SerializeTelemetryProtobuf | edge/middleware/serializer/protobuf_serializer.c:58-124 | -1 exactly for a null argument or a buffer under 128 bytes, with the buffer untouched; otherwise the message and nothing behind it, and every field of the record survives decoding it |
| BoundedFifo.PushesKeepLast | edge/middleware/telemetry/telemetry_buffer.c:17-46 | any pushes leave exactly the last min(capacity, n) elements in order; both rings refine this FIFO |
| Rings.StrNCpy | edge/middleware/telemetry/telemetry_buffer.c:31 | the copied row reads back as the clipped string, whatever the slot held before |
| Rings.ClipMeans | edge/middleware/telemetry/telemetry_buffer.c:26-41 | a stored record keeps the first 31, 15 and 15 bytes of its strings, null pointers and every number |
| Rings.TelemetryRing.Push | edge/middleware/telemetry/telemetry_buffer.c:17-46 | a push of the record with its strings clipped to 31, 15 and 15 characters |
| Rings.TelemetryRing.Store | edge/middleware/telemetry/telemetry_buffer.c:26-41 | exactly one slot changes |
| Rings.TelemetryRing.Peek | edge/middleware/telemetry/telemetry_buffer.c:48-52 | the oldest record, or none |
| Rings.TelemetryRing.Pop | edge/middleware/telemetry/telemetry_buffer.c:54-59 | drops the oldest record, or reports an empty ring |
| Rings.TelemetryRing.IsEmpty | edge/middleware/telemetry/telemetry_buffer.c:65-67 | whether anything is stored |
| Rings.PsramRing.Push | edge/platform/esp32/main.cpp:167-176 | the same FIFO push under the other head and tail convention, for any capacity, and nothing without storage |
| WakeCycle.Conservation | edge/app/src/app_state_machine.c:108-183 | over every run and every network outcome: issued is the disjoint sum of confirmed, buffered and evicted; landed exceeds confirmed by the lost replies |
| WakeCycle.ExactlyOnePlace | edge/app/src/app_state_machine.c:108-183 | from power-on each issued record is exactly once in exactly one of the three places |
| WakeCycle.CycleFacts | edge/app/src/app_state_machine.c:140-171 | which records one cycle moves where |
| WakeCycle.CycleMeans | edge/app/src/app_state_machine.c:108-183 | one cycle, told by the fates of its POSTs alone: the oldest records up to the first one not confirmed leave the buffer, the live record goes out with the next POST and is buffered unless that was confirmed, and only a full buffer of 32 evicts |
| WakeCycle.SomeDelivers | edge/app/src/app_state_machine.c:143-158 | for every buffer and network there is such a first POST, or all are confirmed, so that this covers every cycle |
| WakeCycle.RunIssues | edge/app/src/app_state_machine.c:115-136 | over every run the j-th record issued holds the j-th reading, unchanged, under the next sequence number modulo 2^32 |
| WakeCycle.LandedFacts | edge/app/src/app_state_machine.c:80-87 | which records reach the server, including those whose reply was lost |
| WakeCycle.EvictsOldest | edge/app/src/app_state_machine.c:161-171 | over every run, what was evicted is older than all that is kept |
| WakeCycle.FifoExactly | edge/app/src/app_state_machine.c:143-165 | a cycle keeps delivery FIFO if and only if it does not confirm the live record after an interrupted flush |
| WakeCycle.RunInOrder | edge/app/src/app_state_machine.c:108-183 | over every run, delivery is FIFO throughout if and only if no cycle does that |
| WakeCycle.OvertakingRun | edge/app/src/app_state_machine.c:143-165 | a run from power-on that delivers out of order |
| WakeCycle.App.BootBody | edge/app/src/app_state_machine.c:108-183 | the body of case STATE_BOOT on any ring is one cycle |
| WakeCycle.App.Flush | edge/app/src/app_state_machine.c:143-158 | the flush loop ends, and delivers oldest first up to the first failure |
| OsalQueue.MockQueue.SendPass | edge/osal/mock/osal_mock.c:199-212 | one pass under the mutex appends the message if there is room; without room it sleeps when it may wait, and otherwise gives up with ResourceBusy |
| OsalQueue.MockQueue.ReceivePass | edge/osal/mock/osal_mock.c:245-257 | one pass takes the oldest message if there is one; without one it sleeps when it may wait, and otherwise gives up with Timeout |
| OsalQueue.MockQueue.WriteCell | edge/osal/mock/osal_mock.c:208 | the copy fills exactly one slot |
| OsalQueue.Create | edge/osal/mock/osal_mock.c:143-175 | an empty queue, or a refusal for a zero size, no place for the handle, or no memory |
| Monitor.StepKeepsInv | edge/osal/mock/osal_mock.c:198-257 | every pass and every spurious wake-up keeps the invariant |
| Monitor.NobodySleepsOnAnAvailableQueue | edge/osal/mock/osal_mock.c:198-257 | in every run with any number of threads: while a receiver sleeps, messages do not outnumber woken receivers; the same for senders and slots; messages are neither lost, doubled nor reordered |
| Monitor.WhoSleeps | edge/osal/mock/osal_mock.c:198-257 | in every run: behind its pass a thread that does not wait is neither asleep nor woken, and one that waits is asleep exactly if the queue was not available, or else has delivered or taken its message |
| Commands.MarkSelected | server/storage/sql_repository.go:376-382 | marking the selected ids one statement at a time dispatches exactly the pending rows of the device |
| Commands.SelectPending | server/storage/sql_repository.go:363-374 | the loop over the selected rows collects exactly the pending commands of the device |
| Commands.LastUpdateConcat | server/api/handlers/telemetry_handler.go:143-151 | the later of two lists decides the interval |
| Commands.LastUpdateMeans | server/api/handlers/telemetry_handler.go:143-151 | the interval a list asks for is the whole number of seconds, as 32 bits hold it, of its last CONFIG_UPDATE with a positive sleep_interval_sec; without such a command there is none |
| Repositories.SqlCommands.QueueCommand | server/storage/sql_repository.go:337-346 | one pending row more, or a refusal for a known id |
| Repositories.SqlCommands.GetPendingCommands | server/storage/sql_repository.go:348-385 | the pending commands in queue order, all of them then SENT |
| Repositories.SqlCommands.AckCommand | server/storage/sql_repository.go:387-393 | exactly the named row becomes ACKED |
| Repositories.InMemoryCommands.GetPendingCommands | server/storage/repository.go:121-133 | the whole queue, which stays |
| Repositories.InMemoryCommands.AckCommand | server/storage/repository.go:135-147 | the queue without that id |
| Repositories.StepRelated | server/storage/repository.go:114-147 | the in-memory queue is always the unacknowledged rows of the SQL table |
| Repositories.AnswersAgree | server/storage/sql_repository.go:348-385 | one poll is answered alike by both if and only if everything sent is acknowledged |
| Repositories.SameRepliesIffPrompt | server/storage/repository.go:114-147 | over every run with fresh ids both answer every poll alike if and only if devices acknowledge everything before they poll again |
| Repositories.FreshRepliesIffPrompt | server/storage/repository.go:114-147 | the same from fresh repositories |
| History.SqlLog.GetTelemetryHistory | server/storage/sql_repository.go:293-335 | newest first, the limit, 50 by default |
| History.InMemoryLog.SaveTelemetry | server/storage/repository.go:44-67 | the state object of that device and no other, and the log |
| History.InMemoryLog.GetTelemetryHistory | server/storage/repository.go:100-112 | the last `limit` records, or all |
| History.SummariesAgreeWithLog | server/storage/repository.go:44-67 | after any saves, in both repositories: known exactly if logged, total equals the number of records, and sequence number, firmware and readings are those of the last record |
| History.LogsHoldReports | server/storage/sql_repository.go:144-157 | both logs hold exactly the records saved for a device, in order; in SQL as the stored columns of each |
| History.OrderDescSorts | server/storage/sql_repository.go:303 | the ordering used is sorted newest first |
| History.OrderPermutes | server/storage/sql_repository.go:303 | and loses or doubles nothing |
| History.ReversedIffIncreasing | server/storage/sql_repository.go:297-305 | the SQL order is the exact reverse of the log if and only if timestamps strictly increase |
| History.HistoriesMirror | server/storage/repository.go:100-112 | for strictly increasing timestamps and limit > 0 the SQL history is the in-memory one reversed, up to the column SQL does not keep |
| History.HistoryIsNewest | server/storage/sql_repository.go:293-335 | for every log and limit the answer holds min(limit, count) of the saved reports of that device, 50 for a limit <= 0; its timestamps never increase, and no omitted report is newer than a returned one |
| History.MemoryHistoryIsLast | server/storage/repository.go:100-112 | for every log and limit the in-memory answer is the last limit reports of the device, or all |
| Handler.ApiHandler.HandleTelemetry | server/api/handlers/telemetry_handler.go:131-158 | commands handed out and rows dispatched; spelled out on the list: the last CONFIG_UPDATE with a positive number of seconds v is stored and replied as its integer part (modulo 2^32), without one the map stays and the reply is the stored interval or 60; 300 below 20 % battery |
| Handler.ApiHandler.HandleQueueCommand | server/api/handlers/telemetry_handler.go:190-226 | the same test and conversion on the queued command; the map is written first and stays written when the insert is refused |
| Handler.ApiHandler.HandleAckCommand | server/api/handlers/telemetry_handler.go:229-244 | exactly the named row |
| Handler.IntervalPersists | server/api/handlers/telemetry_handler.go:131-158 | over every sequence of telemetries of a device, each reply repeats the last CONFIG_UPDATE picked up at any earlier one, unless the battery is low; an old interval of zero counts as none |
| C2.QuiescentInterval | server/api/handlers/telemetry_handler.go:131-158 | over every orderly interleaving: whenever no call for a device is in flight and nothing is pending, its stored interval is the integer part of the last CONFIG_UPDATE with a positive number of seconds inserted, and absent without one |
| C2.OrderedAtMostOnce | server/storage/sql_repository.go:337-393 | over every orderly interleaving: the commands delivered to a device are a prefix of its queue log, without repeats |
| C2.StatusMovesForward | server/storage/sql_repository.go:376-393 | each row only moves PENDING, SENT, ACKED, one at a time |
| C2Answers.RepliesWanted | server/api/handlers/telemetry_handler.go:131-158 | over every orderly interleaving: a telemetry during which no queue call for its device is in flight replies the integer part of the last CONFIG_UPDATE with a positive number of seconds inserted, 60 without one, 300 below 20 % battery |
| C2.StepKeepsInv | server/api/handlers/telemetry_handler.go:131-158 | every step of every call keeps the split of the log and the interval's consistency, for each device |
| C2.PollWriteKeeps | server/api/handlers/telemetry_handler.go:143-151 | the step that writes the map: once the last held update is written, it is the last one inserted |
| C2.FifoStep | server/storage/sql_repository.go:348-385 | every step keeps the log split into delivered, held and pending |
| Interleavings.UninterruptedPoll | server/api/handlers/telemetry_handler.go:131-158 | an uninterrupted telemetry has the effect of the sequential handler and replies the same interval |
| Interleavings.UninterruptedQueue | server/api/handlers/telemetry_handler.go:202-216 | the same for a queue call |
| Interleavings.DeliveredAndAcked | server/api/handlers/telemetry_handler.go:131-244 | an orderly run from a fresh server that queues, delivers, replies and acknowledges a CONFIG_UPDATE of 30 seconds |
| Interleavings.OverlappingPollsDeliverTwice | server/storage/sql_repository.go:348-385 | two telemetries of one device in flight can deliver everything pending twice |
| Interleavings.OverlappingPollsRollBack | server/api/handlers/telemetry_handler.go:143-151 | and can leave the older interval stored for good |
| Interleavings.RefusedInsert | server/api/handlers/telemetry_handler.go:202-216 | a refused insert leaves the interval right if and only if the command asked for nothing new |
| Interleavings.UndeliveredAcksDiverge | server/storage/sql_repository.go:387-393 | acknowledging undelivered commands can leave the wrong interval stored |
| InMemoryRuns.SecondPollKeepsInterval | server/storage/repository.go:121-147 | in memory, one acknowledgement between two polls: the interval survives if and only if the id is not that of the last CONFIG_UPDATE in the queue, or the updates before it ask for none or for the same |
| InMemoryRuns.OldestFirstKeepsInterval | server/storage/repository.go:114-147 | over every run in which acknowledgements name the oldest command, the stored interval is always the last CONFIG_UPDATE queued, and absent without one |
| InMemoryRuns.NewestAckFirstRollsBack | server/storage/repository.go:135-147 | a run from a fresh server in which acknowledging the newer command first rolls the interval back |
| InMemoryRuns.OldestAckFirstKeeps | server/storage/repository.go:135-147 | a run from a fresh server that meets that condition, in which the interval stays the newer one |
| Json.ValueOfDigits | iot_gmo_package/api.php:175-181 | a printed number reads back as itself |
| Json.DecimalDigits | iot_gmo_package/api.php:175-181 | the ten digits, and how numbers are composed of them |
| Json.StringRoundTrip | iot_gmo_package/api.php:175-181 | every string survives printing with escapes and reading, surrogate pairs included |
| Json.EscapeTable | iot_gmo_package/api.php:175-181 | the short escapes, and which characters stand for themselves |
| Json.UnicodeTable | iot_gmo_package/api.php:175-181 | control characters and characters outside ASCII as \u escapes, beyond 2^16 as surrogate pairs |
| Json.LoneSurrogate | iot_gmo_package/api.php:317-319 | half of a surrogate pair alone is not read |
| Scanner.ReplySpelled | iot_gmo_package/api.php:175-181 | the text of a reply, literally |
| Scanner.ItemsSpelled | iot_gmo_package/api.php:154-158 | the text of the listed commands, literally |
| Scanner.FindsFirst | edge/platform/esp32/main.cpp:237 | the search gives position p if and only if the key stands there and nowhere before |
| Scanner.Device.ScanNumber | edge/platform/esp32/main.cpp:237-248 | the scanning loops read what the specification reads, from any text |
| Scanner.Device.ProcessServerResponse | edge/platform/esp32/main.cpp:235-305 | clock, interval and acknowledged id after any response text |
| Scanner.ScanOfText | edge/platform/esp32/main.cpp:237-281 | from any text: what the digits behind the first server_time and the first sleep_interval_sec do, with the thresholds 10^9, 1 and 86400, and that nothing changes without the key |
| Scanner.StandsOrNowhere | edge/platform/esp32/main.cpp:237-281 | in any text the key is absent or such positions exist, so that this covers every text |
| Scanner.IdOfText | edge/platform/esp32/main.cpp:286-292 | from any text: the id is what stands between the first command_id key and the next quote, if anything does |
| Scanner.SkipHead | iot_gmo_package/api.php:175-181 | no key can match before the numbers of a reply |
| Scanner.ReadsDecimal | edge/platform/esp32/main.cpp:243-248 | a printed number is read back, saturated at 2^31 - 1, and a negative one not at all |
| Scanner.ScanOfReply | edge/platform/esp32/main.cpp:235-305 | from every printed reply, whatever its commands contain: the server time if it is more than 10^9, the top-level interval if and only if it is in 1..86400, and the id text of exactly the first command |
| Acknowledgement.AckIdentifies | iot_gmo_package/api.php:317-330 | the acknowledgement names exactly the scanned command if its id holds no quote and is neither empty nor "0", and nothing otherwise |
| Acknowledgement.AckSpelled | edge/platform/esp32/main.cpp:299 | the text of the body the device posts, literally |
| Acknowledgement.WholeBody | edge/platform/esp32/main.cpp:299 | the spliced body decodes to the three members meant |
| Acknowledgement.BrokenBody | edge/platform/esp32/main.cpp:299 | with a quote in the id it does not decode at all |
| Acknowledgement.GeneratedIdsAreAcknowledged | iot_gmo_package/api.php:300 | every id the queue endpoint generates is acknowledged as itself |
| Cloud.ChosenMeans | iot_gmo_package/api.php:160-164 | the interval a list asks for is that of its last CONFIG_UPDATE with a sleep_interval_sec, truncated toward zero; without such a command it is the one it starts from |
| Cloud.CloudApi.Telemetry | iot_gmo_package/api.php:123-171 | commands listed and rows marked; spelled out on the list: the last CONFIG_UPDATE with a number of seconds is stored and replied, truncated toward zero; without one the stored interval is replied if positive and else the reported one, which a new device also stores |
| Cloud.CloudApi.Queue | iot_gmo_package/api.php:289-314 | one pending row with the id "cmd-" and the milliseconds, or a refusal for an empty or "0" device or action or a known id |
| Cloud.CloudApi.Ack | iot_gmo_package/api.php:317-330 | exactly the named row, and none for an empty or "0" device or id |
| CloudExamples.UninterruptedTelemetry | iot_gmo_package/api.php:123-181 | with each SQL statement a step of its own, an uninterrupted telemetry does what the sequential endpoint does |
| CloudExamples.RecoversAfterFailures | iot_gmo_package/api.php:123-181 | a fair run from the start in which a statement fails, the device resets and a reply is lost, and the next reply brings the device to the stored interval |
| CloudExamples.ListedAndAcked | iot_gmo_package/api.php:317-330 | a fair run from the start in which a command is queued, listed, acknowledged by the device and then ACKED |
| CloudRuns.ReplyTextLists | iot_gmo_package/api.php:154-181 | a reply lists id, action and parameters of each selected command, in order |
| CloudInvariant.StepKeepsInv | iot_gmo_package/api.php:123-181 | every statement of every overlapping request keeps each device's view: log, picks, stored interval and the reply being prepared |
| CloudResults.AgreeIffInRange | iot_gmo_package/api.php:123-181 | over every interleaving, after an arrived reply device and server agree if and only if the stored interval is in 1..86400 |
| CloudResults.Converges | edge/platform/esp32/main.cpp:262-283 | over every interleaving, lost replies, failing statements and resets included: with CONFIG_UPDATEs in range the next arrived reply leaves the device on the stored interval |
| CloudResults.StoredInterval | iot_gmo_package/api.php:147-171 | over every interleaving, when a device is idle: the stored interval is that of the last CONFIG_UPDATE listed, truncated toward zero, and 15 without one; it is that of the last one queued if and only if that one was not marked unlisted or asks for the same as the last listed one |
| CloudResults.UnlistedIffInWindow | iot_gmo_package/api.php:147-171 | a telemetry marks, unlisted, exactly the commands queued between its SELECT and its UPDATE, and nothing if it selected nothing |
| CloudExamples.RaceLosesUpdate | iot_gmo_package/api.php:147-171 | a run from the start in which a CONFIG_UPDATE queued in that window is never listed and never stored |
| CloudExamples.LaterUpdateRepairs | iot_gmo_package/api.php:147-171 | a fair run that ends idle in which a CONFIG_UPDATE is lost in that window and the last one queued is nevertheless stored in the end |
| CloudResults.CalmForever | edge/platform/esp32/main.cpp:262-283 | from agreement, or from a stored interval out of range, neither the stored interval nor the one in use changes in any run without a new CONFIG_UPDATE or a reset of the device, whichever replies are lost |
| CloudResults.OutOfRangeForever | edge/platform/esp32/main.cpp:275-281 | an out-of-range interval that was stored parts device and server in every such run |
| CloudResults.ListedOnceInOrder | iot_gmo_package/api.php:147-171 | over every interleaving with one telemetry of a device in flight, replies list its commands in queue order and without repeats |
| CloudExamples.OverlapListsTwice | iot_gmo_package/api.php:147-171 | two telemetries of one device in flight list everything pending twice |
| CloudAcks.PostOfReply | edge/platform/esp32/main.cpp:286-304 | an arrived reply makes the device post one acknowledgement, for the first command listed, or none |
| CloudAcks.AckedExactly | iot_gmo_package/api.php:317-330 | over every run a row is ACKED if and only if an acknowledgement has arrived for a reply that listed it first and its id holds no quote and is neither empty nor "0" |

## Left out

- HTTP, TLS, certificates, authentication, routing, configuration and deployment scripts: input, output and library plumbing.
- Dashboards, e-paper drawing, Wi-Fi provisioning, GPIO, ADC and sleep drivers, OTA, the rule engine and webhooks.
- Floats are their raw 32-bit patterns; the Go decoder's widening to float64 and the `%.2f` JSON the firmware also prints are not modelled.
- The SQL engine: tables are sequences and maps of rows and each statement is atomic. `created_at` order is taken as insertion order, and equal timestamps in a history keep their row order.
- The parser of incoming JSON: decoded values are given, and a `sleep_interval_sec` is a number or absent. Only the reply PHP prints and the acknowledgement body are modelled as text. `uint32(v)` of a float64 is taken as the conversion through int64, which holds for v below 2^63.
- Memory: allocation failure, and a length beyond the remaining input, which is an error here before anything is allocated. Slices and buffers are shorter than 2^63 bytes.
- Aliasing of pointers that are handed out: a peeked record is read at once, before the ring changes; the PSRAM ring copies records whole, so the strings behind its pointers are outside the model; the in-memory repository's `GetDevice` hands out a shared pointer.
- `LastSeenAt`, `sent_at`, `acked_at`, ONLINE flags, custom value columns and the event log: written and never read by the code modelled.
- The Windows branch of the queue with its timed wait, and the send from an interrupt, which is a send without waiting.
- Monitor.Next: a woken sender may resume with any message, which allows more runs than the code has.
- Wall-clock time and the generation of command ids in Go: ids are given, and unique where `C2.Orderly` and `FreshIds` say so.
- WakeCycle.App.Transmit: the fate of a POST is given as one of three outcomes; the payload, HAL status and status code behind it are not modelled.
- WakeCycle.App.BootBody: runs repeat the body of case STATE_BOOT on the ring it leaves. In the code as written the event loop returns after one pass and `app_state_machine_init` clears the ring; docs/02_edge_requirements.md:11-28 describes the repeated cycle.
- WakeCycle.ExactlyOnePlace: stated for fewer than 2^32 - 1 cycles, because the sequence number then wraps and records can become equal; `Conservation` has no such bound.
- Encoder.SerializeTelemetryProtobuf: requires a header of at most 64 bytes, because the C code has no check and would write past its buffer.
- Decoder.DecodeTelemetryProtobuf: the loop carries an iteration budget equal to the input length, and reports that the Go loop never ends when the budget is used up; `Termination.BudgetIsEnough` shows that no larger budget gives another outcome.
- Fields.RepeatedSubmessageMerges: does not say which of an error and an endless loop is reported when neither message decodes, because merging changes which submessage comes first.
- CloudRuns.Fair: the results on the PHP endpoint assume one telemetry per device in flight, and device names without quotes, backslashes, slashes or control characters; `CloudExamples.OverlapListsTwice` shows what fails without the first. Only the devices' own acknowledgements are posted.
- CloudRuns.Abort: a request one of whose SQL statements throws ends without a reply; the body of the error response is not scanned. A device that resets during its telemetry is taken to reset when that request is over.
- C2.Orderly: the interleaved results assume that inserts succeed, one telemetry per device in flight, and acknowledgements only of delivered commands; `Interleavings.dfy` shows what fails without each.
- Scanner.Device.ProcessServerResponse: `String.toInt` saturates at 2^31 - 1, as on a platform with a 32-bit long.
- Cloud.CloudApi.Queue: a PHP exception from a duplicate key is a refusal; ids are the decimal milliseconds, which PHP prints without an exponent below 10^15.
- Json.Escape: characters are Unicode scalar values, so the error of `json_encode` on malformed UTF-8 does not arise.
