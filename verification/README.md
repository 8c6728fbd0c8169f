# Remote device console: a verified model

The repository is a small telemetry system. Devices send `STATUS` lines over TCP
to a single-threaded epoll server; the server keeps the latest status per device,
answers lines that ask for it with an `ACK`, relays accepted lines to the clients
that registered as viewers, and once a second sends them a `METRICS` line. A load
generator drives the server with many stop-and-wait connections and measures the
time from `STATUS` to `ACK`. A viewer shows the relayed statuses in a table and
on a map.

This project models those programs in Dafny and proves what they are for. The
programs that change state in place are classes and loops, each method proved
against a function on states; what holds over whole runs is proved about those
functions. Everything the operating system decides (clock readings, descriptor
numbers, readiness, how a stream is cut into chunks, what `send` answers, the
order in which a hash table is walked) is a free parameter of the theorems.

| file | contents |
|---|---|
| `Text.dfy`, `Decimal.dfy`, `Fields.dfy` | line framing, decimal numbers, the `key=value` grammar |
| `StatusCodec.dfy`, `MetricsCodec.dfy` | the two line formats: parsers as loops, their meaning as folds |
| `StatusStore.dfy` | the device registry |
| `ServerSpec.dfy`, `TelemetryServer.dfy` | the server as functions on states, and as the class with the event loop |
| `ServerInvariant.dfy`, `ServerReports.dfy`, `ServerRuns.dfy` | what every step, report, batch and run keeps |
| `ServerBytes.dfy` | which bytes belong to which connection, from the events alone |
| `ServerTheorems.dfy`, `ServerCounters.dfy` | what follows for the server's users |
| `LoadgenClient.dfy`, `TrafficLoop.dfy`, `LoadGenerator.dfy` | the load generator: one client, the traffic phase, the class |
| `AckSystem.dfy`, `AckRoundTrip.dfy` | the server and any number of load generator clients over FIFO channels; one complete round |
| `Percentile.dfy` | the latency summary |
| `ViewerNetwork.dfy`, `ViewerConsole.dfy`, `FleetMap.dfy` | the viewer: framing, the batched table, the map |
| `Replica.dfy` | the viewer against the server's store |

The main results, hardest first:

1. In every run of the server, any number of load generator clients and anybody
   else, under any chunking, delay and truncated or dropped acknowledgement, every
   latency sample is taken on the whole ACK of that client's latest STATUS, although
   the client only looks for the prefix `ACK `
   (`AckSystem.EverySampleBelongsToTheLatestStatus`).
2. The event loop, with descriptors reused arbitrarily and accepts and disconnects
   inside a batch, is a line-at-a-time server: every connection is offered exactly
   the messages that the global order of complete lines owes it
   (`ServerTheorems.RunRefinesLineSpec`, `ServerBytes.RunRecordsArrivals`,
   `TelemetryServer.Server.RunEventLoop`).
3. A viewer that is sent every message whole shows, after a flush, the server's
   store exactly when every device that reported before it registered has reported
   again since (`Replica.ReplicaEqualsStore`).
4. The traffic loop conserves messages, spends exactly the credit the clock earned,
   is fair, and is left exactly when nothing is owed; a waiting client that is
   closed keeps it from ever being left (`TrafficLoop.TurnInv`,
   `TrafficLoop.CreditIsExactlyEarned`, `TrafficLoop.LostAnswerNeverExits`).
5. Every METRICS line reads back as a snapshot that balances, and its counters are
   what happened on the wire (`ServerTheorems.EveryReportBalances`,
   `ServerCounters.RunCountersMatchWire`).
6. Auto-fit chooses the largest allowed scale at which the bounds fit; all devices
   then lie in the plot area exactly when two pixels per unit of span fit in both
   directions, and while auto-fit is on the view is never stale
   (`FleetMap.FitIsBest`, `FleetMap.AutoFitContains`, `FleetMap.FleetMapWidget.AutoFitNeverStale`).

Some facts about the programs that the proofs brought out, none of them
contradicted by the project's documents:

- An acknowledgement of which only a part was written counts as sent
  (apps/server/main.cpp:292-299).
- When connecting times out, every client still in the table is counted as an error,
  the connected ones too, and the traffic phase starts with whatever is there
  (apps/loadgen/main.cpp:339-343).
- Once a client that waits for an answer has been closed, the drain loop cannot end
  (apps/loadgen/main.cpp:394, 445-448).
- The scale is never below 2, so a fleet spread over more than half the plot area's
  pixels does not fit, auto-fit or not (apps/viewer/fleet_map_widget.cpp:149).

## Model

| member | source | states |
|---|---|---|
| AckSystem.EverySampleBelongsToTheLatestStatus | apps/loadgen/main.cpp:222-270 | in every run of the composed system the k-th sample of a client was taken on an ACK line naming that client's id and the sequence number of its k-th STATUS, measures the time since that STATUS was stamped, and at most one STATUS is unanswered |
| AckSystem.ReadsOneLine | apps/loadgen/main.cpp:171-181 | when what can be read lies within one ACK line, the wait ends exactly when that whole line has been read, and otherwise every byte read is kept |
| AckSystem.OffersOwnAcks | apps/server/main.cpp:463-478 | whatever else the server does, it offers a load generator client one ACK per STATUS received from it, in order, and nothing else |
| AckSystem.MoveInv | apps/loadgen/main.cpp:404-444 | every move of the server or of a client keeps stop-and-wait, FIFO and the pairing of samples with acknowledgements |
| AckRoundTrip.OneRound | apps/loadgen/main.cpp:222-270 | there is a possible run, move by move, in which a client sends one STATUS and takes one sample on its ACK |
| AckSystem.AckTextIdentifies | apps/server/main.cpp:280-290 | two equal ACK lines name the same device, the same sequence number and the same server time |
| AckSystem.AnswerTellsTheTime | apps/server/main.cpp:280-292 | the answer to a STATUS is the tag and exactly three fields: its device, its sequence number and the clock reading taken for it |
| TelemetryServer.Server.RunEventLoop | apps/server/main.cpp:423-492 | the loop over any possible batches reaches exactly the state the specification reaches, with the invariant, and has recorded exactly the bytes that arrived |
| TelemetryServer.Server.HandleEvent | apps/server/main.cpp:445-488 | one event changes the whole state as its specification says; a readable event receives all its chunks on its own connection and no other, and closes it exactly at the end of the stream |
| TelemetryServer.Server.HandleBufferedLines | apps/server/main.cpp:463-478 | the loop handles exactly the complete lines of the buffer in order and leaves the rest |
| TelemetryServer.Server.HandleOneLine | apps/server/main.cpp:464-477 | HELLO lines register, bad lines are counted, good ones are stored, answered if asked and relayed |
| TelemetryServer.Server.HandleHelloLine | apps/server/main.cpp:409-421 | exactly the lines starting with `HELLO ` are taken, and exactly those containing `role=viewer` register |
| TelemetryServer.Server.HandleStatusLine | apps/server/main.cpp:302-330 | an accepted line is stored and counted, a rejected one counted, nothing else changes |
| TelemetryServer.Server.BroadcastToViewers | apps/server/main.cpp:345-360 | walking the viewers in any order sends the message once to each but the source and counts the hard failures |
| TelemetryServer.Server.SendLine | apps/server/main.cpp:332-343 | one attempt on one descriptor; only a hard error is counted |
| TelemetryServer.Server.SendAck | apps/server/main.cpp:280-300 | the bytes sent are the ACK of this status with a fresh clock reading; success means something could be written |
| TelemetryServer.Server.TakeNextLine | apps/server/main.cpp:261-271 | the first complete line and what follows it, or nothing |
| TelemetryServer.Server.ReceiveAvailableData | apps/server/main.cpp:238-259 | the buffer grows by all chunks, in order |
| TelemetryServer.Server.AcceptReadyClients | apps/server/main.cpp:201-236 | every accepted connection gets an empty buffer and is counted |
| TelemetryServer.Server.CloseClient | apps/server/main.cpp:480-487 | closing removes the connection from all three collections and counts it |
| TelemetryServer.Server.MakeMetricsLine | apps/server/main.cpp:362-385 | the line is the text of the snapshot of the counters, none of the subtractions underflows |
| TelemetryServer.Server.PrintMetricsIfDue | apps/server/main.cpp:387-407 | nothing before 1000 ms have passed; then one report to every viewer and a new window |
| ServerTheorems.RunRefinesLineSpec | apps/server/main.cpp:423-492 | in every run each connection was offered exactly the messages owed by the order of lines, the store and counters are those of the lines, the three collections agree and accepted is disconnected plus active |
| ServerTheorems.RunHandlesEveryByteInOrder | apps/server/main.cpp:460-478 | the lines handled followed by the buffer are exactly the chunks that arrived on the connection in all its events, and no complete line waits |
| ServerTheorems.RunHandlesLinesBeforeClosing | apps/server/main.cpp:460-487 | a closed connection had all complete lines of what arrived on it handled |
| ServerBytes.ReadableReceivesAll | apps/server/main.cpp:460-487 | every byte of every chunk of a readable event is received on that connection and on no other; after the end of the stream the descriptor is in none of the three collections and one more disconnect is counted |
| ServerBytes.RunRecordsArrivals | apps/server/main.cpp:434-488 | over whole runs, what is recorded as received on a connection is what the events brought for it, and descriptors belong to the connections the events say, by functions of the events alone |
| ServerBytes.StepRecords | apps/server/main.cpp:445-488 | every event keeps that |
| ServerTheorems.ChunkingDoesNotShow | apps/server/main.cpp:238-271 | two runs with the same global order of complete lines end with the same store and line counters |
| ServerTheorems.SplittingAReadIsInvisible | apps/server/main.cpp:460-478 | two readable events have the effect, sends included, of one carrying their bytes together |
| ServerTheorems.OnlyOwnAcks | apps/server/main.cpp:345-360 | a connection that never said it is a viewer is owed one ACK per own STATUS that asks for it and nothing else |
| ServerTheorems.NoEcho | apps/server/main.cpp:353-356 | nothing is relayed to its source, and an ACK answers a line of the same connection |
| ServerTheorems.RunIsolatesConnections | apps/server/main.cpp:463-478 | the same about everything ever sent, over whole runs |
| ServerTheorems.ViewerHelloExactly | apps/server/main.cpp:409-421 | exactly the lines that start with `HELLO ` and say `role=viewer` after it register, the line the viewer sends among them |
| ServerTheorems.HelloExactly | apps/server/main.cpp:411-413 | HELLO lines are exactly those starting with the word and a space |
| ServerTheorems.EveryReportBalances | apps/server/main.cpp:362-385 | every METRICS line ever sent reads back as its snapshot; accepted is active plus disconnected, acknowledgements and devices do not exceed received, the rate is the truncated quotient of its window |
| ServerTheorems.LaterReportsCountMore | apps/server/main.cpp:376-379 | accepted, disconnected and received never decrease from one report to a later one |
| ServerTheorems.RunTilesTime | apps/server/main.cpp:387-407 | report windows tile the time since the first clock reading and their message counts add up to the count at the last report |
| ServerReports.RateIsTruncatedQuotient | apps/server/main.cpp:368-371 | the reported rate r satisfies r * elapsed <= 1000 * messages < (r + 1) * elapsed |
| ServerReports.SnapshotIsTruthful | apps/server/main.cpp:373-383 | every field of a snapshot is a fact about the trace before it |
| ServerReports.ReportTimed | apps/server/main.cpp:387-407 | a due report is at least 1000 ms after the previous one and starts the next window where it ends |
| ServerCounters.RunCountersMatchWire | apps/server/main.cpp:470-475 | in every run `ack_sent` is the number of acknowledgements of which something was written and `broadcast_errors` the number of relays and reports refused with a hard error |
| ServerCounters.ReportTellsTheWire | apps/server/main.cpp:380-382 | a report is made exactly when 1000 ms have passed, at the clock reading of that moment, and carries these two numbers as they are; otherwise nothing is recorded or sent |
| ServerCounters.HandleLineMatches | apps/server/main.cpp:332-360 | handling a line keeps both counters exact |
| ServerRuns.BatchMeetsNoUnknownDescriptor | apps/server/main.cpp:445-458 | in a batch of distinct registered descriptors the unknown-descriptor branch is never taken, and each descriptor still belongs to the connection it was reported for |
| ServerRuns.StepHealthy | apps/server/main.cpp:445-488 | every event the operating system can deliver keeps the invariant and loses no byte and no send |
| ServerRuns.RunHealthy | apps/server/main.cpp:434-491 | every reachable state satisfies the invariant |
| ServerInvariant.AcceptInv | apps/server/main.cpp:223-227 | a new connection starts without buffered bytes and is no viewer, whatever its descriptor was used for before |
| ServerInvariant.DisconnectInv | apps/server/main.cpp:480-487 | closing a connection whose lines are handled keeps the invariant |
| ServerInvariant.HandleLineInv | apps/server/main.cpp:463-478 | handling a line keeps sends, viewers, store and counters equal to what the trace says |
| ServerInvariant.HandleLineSends | apps/server/main.cpp:469-475 | the sends a line causes on a connection are exactly the ones it owes to it |
| ServerInvariant.PublishInv | apps/server/main.cpp:400-406 | publishing a report keeps the same |
| TrafficLoop.TurnInv | apps/loadgen/main.cpp:394-450 | every turn keeps the accounts: sent is answered plus waiting plus lost, credit plus sent is what was earned, credit is not negative, shares are fair; an exception leaves the accounts exact; the tick is the turn's clock reading, and credited exactly before the deadline |
| TrafficLoop.TurnsInv | apps/loadgen/main.cpp:389-450 | so does any number of turns from the start of the traffic phase |
| TrafficLoop.TurnsCredit | apps/loadgen/main.cpp:395-402 | over any number of turns the tick is the last clock reading, and time is credited up to the last reading before the deadline |
| TrafficLoop.CreditIsExactlyEarned | apps/loadgen/main.cpp:399-411 | credit in hand plus messages sent is exactly the rate times the time from connecting to that reading |
| TrafficLoop.SendLoopStops | apps/loadgen/main.cpp:404-416 | the sending loop ends only for want of credit, clients or time, at a client that is not ready, or after a failed attempt; every earlier attempt went and none is made after the deadline |
| TrafficLoop.QuietTurnSendsWhatIsDue | apps/loadgen/main.cpp:395-416 | a turn without reports leaves less than one credit unless one of those reasons holds |
| TrafficLoop.PollDecides | apps/loadgen/main.cpp:433-448 | a report removes its client and counts an error exactly when it failed or broke, records one latency and makes it ready exactly when it carries the answer, and touches no other client |
| TrafficLoop.TurnHandlesEveryReport | apps/loadgen/main.cpp:426-449 | in one turn every reported client meets its own report |
| TrafficLoop.ErrorsAreClosedClients | apps/loadgen/main.cpp:445-448 | in the traffic phase the errors counted are the clients closed, which are the clients missing from the table |
| TrafficLoop.ExitsExactlyWhenDrained | apps/loadgen/main.cpp:394 | the loop is left exactly when the deadline has passed, nobody waits and no waiting client was ever closed |
| TrafficLoop.LostAnswerNeverExits | apps/loadgen/main.cpp:394-448 | after a waiting client has been closed the loop condition holds at every later turn |
| TrafficLoop.SentWithinBudget | apps/loadgen/main.cpp:387-416 | sent is at most rate times the time since connecting and strictly less than rate times duration |
| TrafficLoop.LatencyIsElapsedTime | apps/loadgen/main.cpp:253-256 | a recorded latency is the time since the STATUS was stamped, without wrap-around |
| TrafficLoop.AckedNeverExceedsSent | apps/loadgen/main.cpp:440-443 | never more answers than messages |
| TrafficLoop.RoundRobinIsFair | apps/loadgen/main.cpp:404-416 | while no client is closed, each sequence number is the number of its successful sends and any two numbers differ by at most one |
| TrafficLoop.ShareOfNext | apps/loadgen/main.cpp:406-415 | advancing the cursor gives one more turn to the position under it and to no other |
| TrafficLoop.AttemptIsFair | apps/loadgen/main.cpp:222-243 | an attempt that would block is taken back completely; one that succeeds moves the cursor |
| TrafficLoop.PollInv | apps/loadgen/main.cpp:426-449 | every readiness report keeps the accounts, errors included |
| LoadGenerator.Generator.RunTraffic | apps/loadgen/main.cpp:389-450 | the loop as written reaches the specified state and, when left by its condition, has every message answered |
| LoadGenerator.Generator.LoopBody | apps/loadgen/main.cpp:395-449 | one turn: the tick becomes the clock reading, time before the deadline is credited, what is due is sent, the reports are handled |
| LoadGenerator.Generator.SendDue | apps/loadgen/main.cpp:404-416 | the sending loop stops at the first client that is not ready or cannot send |
| LoadGenerator.Generator.SendStatus | apps/loadgen/main.cpp:222-243 | sent whole: the client waits; would block: the sequence number is taken back; anything else ends the program |
| LoadGenerator.Generator.ReceiveAck | apps/loadgen/main.cpp:245-270 | chunks are read until an ACK line comes off the buffer; the latency is the time since the stamp |
| LoadGenerator.Generator.HandleEvent | apps/loadgen/main.cpp:426-449 | an error or a broken wait closes the client and is counted; an answer is recorded |
| LoadGenerator.Generator.CloseClient | apps/loadgen/main.cpp:445-448 | the client leaves the table, the others keep their order |
| LoadGenerator.Generator.ConnectClients | apps/loadgen/main.cpp:311-372 | the clients left are those the reports leave, errors plus clients left is the number of connections, plus, on a timeout, every client left once more; on success everybody left is ready, and giving up means somebody was not |
| LoadGenerator.Generator.HandleConnectEvent | apps/loadgen/main.cpp:345-370 | a failed client is dropped and counted once, a connecting writable one is ready exactly if it connected and dropped otherwise, no other client changes |
| LoadGenerator.ConnectDecides | apps/loadgen/main.cpp:355-369 | the same, case by case, without the table around it |
| LoadGenerator.Generator.AllReady | apps/loadgen/main.cpp:328-334 | the scan answers whether every client is ready |
| LoadgenClient.StatusRoundTrip | apps/loadgen/main.cpp:143-169 | every STATUS line the generator prints is one line and is parsed as exactly what it says, for every index, sequence number and time |
| LoadgenClient.StatusInFull | apps/loadgen/main.cpp:143-169 | the parsed status in full: id `load-<index>`, the coordinates from the index, the sequence number and time sent |
| LoadgenClient.MakeStatusLine | apps/loadgen/main.cpp:148-169 | the printer writes the nine fields in order |
| LoadgenClient.ReceiveAckUses | apps/loadgen/main.cpp:245-270 | waiting ends only on a line starting with `ACK `, and reading changes nothing but buffer and phase |
| LoadgenClient.ReceiveAckTakesLines | apps/loadgen/main.cpp:171-181 | waiting takes complete lines off the stream, at most one per chunk, drops those that are no ACK, ends at the first ACK or when the chunks are used up, and keeps every other byte |
| Percentile.PercentileIsTheRankedValue | apps/loadgen/main.cpp:272-281 | with k the whole part of (n - 1) * ratio, the percentile is the one value with more than k samples at or below it and at least n - k at or above it |
| Percentile.NoSamples | apps/loadgen/main.cpp:274-276 | zero without samples |
| Percentile.PercentileIgnoresOrder | apps/loadgen/main.cpp:278-280 | it does not depend on the order of the samples |
| Percentile.PercentileIsMonotone | apps/loadgen/main.cpp:306-308 | a larger ratio never gives a smaller value |
| Percentile.PercentileIsASample | apps/loadgen/main.cpp:272-281 | it is one of the samples |
| Percentile.RankInRange | apps/loadgen/main.cpp:279-280 | the index is in range for every ratio from 0 to 1 |
| StatusCodec.ParseStatusLine | libs/protocol/src/status_parser.cpp:96-147 | the loop over positions terminates and computes the fold of the field assignments over the tokens |
| StatusCodec.AcceptedExactly | libs/protocol/src/status_parser.cpp:96-147 | a line is accepted exactly when, without its ending, it is `STATUS ` and acceptable fields with a device id and a state among them, and then as its last fields |
| StatusCodec.AssignsAllowed | libs/protocol/src/status_parser.cpp:51-92 | a field is assigned exactly when its key may have its value |
| StatusCodec.BoolGrammar | libs/protocol/src/status_parser.cpp:36-49 | the words for true and false, and no others |
| StatusCodec.FoldIsLastFields | libs/protocol/src/status_parser.cpp:51-92 | the fold succeeds exactly when every token is a key, an equals sign and a value its key may have, by a table over keys and value grammars, and then each field has the value of the last token with its key |
| StatusCodec.ParseDependsOnLastValues | libs/protocol/src/status_parser.cpp:117-146 | two lines with acceptable tokens and the same last values parse alike |
| StatusCodec.UnknownFieldIsHarmless | libs/protocol/src/status_parser.cpp:91 | inserting a well-formed field with an unknown key anywhere changes nothing |
| StatusCodec.ReorderingIsHarmless | libs/protocol/src/status_parser.cpp:117-140 | reordering tokens with distinct keys changes nothing |
| StatusCodec.LineEndingIsHarmless | libs/protocol/src/status_parser.cpp:98-104 | LF, CR LF, CR and no ending are the same line |
| Fields.EndingOf | libs/protocol/src/status_parser.cpp:98-104 | what is read of a line, then one of the four endings, is the line |
| StatusCodec.ExtraSpaceIsHarmless | libs/protocol/src/status_parser.cpp:118-121 | doubling a space between fields changes nothing |
| MetricsCodec.MetricsRoundTrip | libs/protocol/src/server_metrics.cpp:65-137 | every snapshot of ten 64-bit values is recovered exactly from its line |
| MetricsCodec.MetricsTextIsInjective | libs/protocol/src/server_metrics.cpp:65-89 | different snapshots print differently |
| MetricsCodec.MetricsTextIsLine | libs/protocol/src/server_metrics.cpp:87 | a METRICS line has one newline, at its end |
| MetricsCodec.ParseMetricsLine | libs/protocol/src/server_metrics.cpp:91-137 | the loop computes the fold over the tokens |
| MetricsCodec.AcceptedExactly | libs/protocol/src/server_metrics.cpp:91-137 | a line is accepted exactly when, without its ending, it is the tag, bare or followed by acceptable fields, and then as its last fields |
| MetricsCodec.FoldIsLastFields | libs/protocol/src/server_metrics.cpp:18-61 | the fold succeeds exactly when every token is a key and a value, unsigned below 2^64 for the ten known keys, and then each field has its last value |
| MetricsCodec.FormatMetricsLine | libs/protocol/src/server_metrics.cpp:65-89 | the printer writes the ten fields in order |
| Decimal.U64RoundTrip | libs/protocol/src/server_metrics.cpp:10-16 | a printed number is read back as itself when below 2^64 and rejected otherwise |
| Decimal.I32RoundTrip | libs/protocol/src/status_parser.cpp:12-18 | the same for the 32-bit integer field |
| Decimal.U64Grammar | libs/protocol/src/status_parser.cpp:28-34 | over all texts: an unsigned number is read from digits with a value below 2^64, as that value, and from nothing else |
| Decimal.I32Grammar | libs/protocol/src/status_parser.cpp:12-18 | over all texts: a signed number is read from at most one minus and digits in range, and from nothing else |
| Decimal.DecimalGrammar | libs/protocol/src/status_parser.cpp:20-26 | over all texts: a decimal is read from at most one minus and digits with at most one point, as its value, and from nothing else |
| Decimal.ValueAppend | libs/protocol/src/status_parser.cpp:28-34 | the value of digits is positional |
| Fields.TokensSplit | libs/protocol/src/status_parser.cpp:117-126 | the tokens of a line cut at a space are those of its two sides |
| Fields.FoldRendered | libs/protocol/src/server_metrics.cpp:112-136 | parsing printed fields assigns exactly the printed pairs, in order |
| Text.LinesOfChunks | apps/server/main.cpp:261-271 | framing a stream in two pieces gives the lines of the whole stream |
| Text.LinesAreTheBuffer | apps/server/main.cpp:261-271 | the lines and the rest are the buffer, each line complete, the rest without newline |
| Text.LinesUnique | apps/server/main.cpp:261-271 | there is no other way to cut a buffer into lines and a rest |
| StatusStore.DeviceStatusStore.Upsert | libs/common/src/device_status_store.cpp:5-10 | the entry of this device is replaced, all others stay |
| StatusStore.DeviceStatusStore.Find | libs/common/src/device_status_store.cpp:12-20 | the entry, or nothing exactly when there is none |
| StatusStore.RegistryHoldsTheLatest | libs/common/src/device_status_store.cpp:5-10 | the registry holds exactly the ids reported, each with its last report |
| StatusStore.LastByIdAppend | libs/common/src/device_status_store.cpp:5-10 | later reports override the registry of the earlier ones |
| ViewerNetwork.NetworkWorker.ConsumeStatusLines | apps/viewer/network_worker.cpp:79-101 | the loop posts the signals of the complete lines in order and keeps the rest |
| ViewerNetwork.NetworkWorker.Run | apps/viewer/network_worker.cpp:55-77 | however the data arrives, the signals posted are those of each connection's whole stream, and half a line never leaks into the next connection |
| ViewerNetwork.SignalsExactly | apps/viewer/network_worker.cpp:92-99 | a line is posted as a status exactly when it is accepted as that status, as metrics exactly when it starts with `METRICS `, never both |
| ViewerConsole.Console.Run | apps/viewer/main.cpp:199-229 | after any arrivals and timers the table and the map both hold what immediate updates up to the last flush would have left, and known devices keep their rows |
| ViewerConsole.Console.Flush | apps/viewer/main.cpp:204-221 | a flush, in any order of the pending map, brings table and map to the unbatched state and stamps exactly the pending devices |
| ViewerConsole.Console.SetDeviceRow | apps/viewer/main.cpp:95-118 | a new device gets the next row, a known one keeps its own; its cells are the status's own values and the age is fresh; devices and rows stay in one-to-one correspondence |
| ViewerConsole.Console.OnStatusReceived | apps/viewer/main.cpp:267-269 | an arrival replaces what is pending for its device |
| ViewerConsole.Console.RefreshTableAges | apps/viewer/main.cpp:120-132 | every row shows its own device's values, its age in whole seconds, and `STALE` instead of the state exactly beyond 5000 ms |
| Replica.ReplicaEqualsStore | apps/viewer/main.cpp:204-221 | a viewer that caught up agrees with the server on every device it knows, and shows the whole store exactly when every device that reported before it registered has reported again |
| Replica.EarlyViewerShowsTheStore | apps/server/main.cpp:468-476 | a viewer registered before the first STATUS shows the server's store |
| Replica.ViewerReadsEveryStatus | apps/viewer/network_worker.cpp:79-101 | the statuses read from the bytes sent to a viewer are the ones the server accepted since it registered, one for one and in order |
| Replica.SameStatus | apps/viewer/network_worker.cpp:92-98 | the viewer accepts exactly the relayed lines the server accepted, as the same statuses, and takes reports for reports |
| Replica.OwedEveryStatus | apps/server/main.cpp:475 | a watching connection that sends no STATUS is owed every line accepted since it registered exactly once |
| Replica.LateReplica | apps/viewer/main.cpp:199-221 | exactly when a replica that missed the first reports is complete |
| FleetMap.AutoFitContains | apps/viewer/fleet_map_widget.cpp:138-156 | in the best view every device lies in the plot area, y flipped, exactly when two pixels per unit of span fit in both directions |
| FleetMap.FitIsBest | apps/viewer/fleet_map_widget.cpp:138-156 | the fitted view centres the bounds at the largest scale from 2 to 80 at which they fit, or at 2 when they fit at none, and no other view does |
| FleetMap.PaddedLeavesMargins | apps/viewer/fleet_map_widget.cpp:117-125 | the bounds are 1.24 times the span, at least 12.4, and leave 12 percent of it free around every device |
| FleetMap.UnraisedFitContains | apps/viewer/fleet_map_widget.cpp:145-149 | in particular whenever the padded bounds fit at some scale from 2 to 80 |
| FleetMap.RaisedFitLosesDevices | apps/viewer/fleet_map_widget.cpp:149 | a fleet for which even the best view leaves a device outside |
| FleetMap.ScreenAndWorldInvert | apps/viewer/fleet_map_widget.cpp:128-136 | screen and world coordinates invert each other at every non-zero scale |
| FleetMap.NorthIsUp | apps/viewer/fleet_map_widget.cpp:128-131 | larger x is drawn further right and larger y further up |
| FleetMap.AnchorHolds | apps/viewer/fleet_map_widget.cpp:151-155 | an anchored view draws that world point, and no other, at that screen point |
| FleetMap.FleetMapWidget.AutoFitNeverStale | apps/viewer/fleet_map_widget.cpp:73-91 | while auto-fit is on, every state of the widget has the best view for its devices and size, and shows all devices exactly under that condition |
| FleetMap.FleetMapWidget.UpdateAutoFit | apps/viewer/fleet_map_widget.cpp:138-156 | the view becomes the best one for the devices' extent, or for the default bounds; an area too small to draw in leaves it alone |
| FleetMap.FleetMapWidget.WorldBounds | apps/viewer/fleet_map_widget.cpp:98-126 | the padded smallest box around the devices, or the default one |
| FleetMap.FleetMapWidget.UpsertDevices | apps/viewer/fleet_map_widget.cpp:73-84 | the batch overrides the statuses of exactly its devices and stamps them, and the view stays valid |
| FleetMap.FleetMapWidget.NearestDeviceId | apps/viewer/fleet_map_widget.cpp:158-174 | the device drawn nearest to the point if one is within the hit radius, nothing otherwise, for every order of the table |
| FleetMap.FleetMapWidget.Wheel | apps/viewer/fleet_map_widget.cpp:333-343 | zooming keeps the scale within its clamps and the world point under the cursor where it is |
| FleetMap.FleetMapWidget.MouseMove | apps/viewer/fleet_map_widget.cpp:295-311 | dragging moves the view by the mouse's movement and turns auto-fit off, hovering looks for a device |
| FleetMap.FleetMapWidget.MousePress | apps/viewer/fleet_map_widget.cpp:285-293 | a press selects the device under it or starts dragging |
| FleetMap.FleetMapWidget.Resize | apps/viewer/fleet_map_widget.cpp:325-331 | a new size is fitted to while auto-fit is on |

## Left out

- Sockets, epoll registration, signals and the owning wrappers around descriptors: they appear only as the free choices listed above.
- Errors of `accept`, `recv` and `epoll_wait` that throw in the server: the program ends there, so a run is one that has met none of them.
- apps/server/mqtt_bridge.cpp, apps/simulator/main.cpp and src/main.cpp: a wrapper around a library, and two one-shot clients whose printer is an easier copy of the load generator's.
- Option parsing, logging and the printed summary, except for the percentiles in it.
- Widgets, painting, colours, tooltips, labels and the metrics chart.
- Texts of table cells that are numbers: a row holds the values, not their rounding to one digit.
- AckSystem.EverySampleBelongsToTheLatestStatus: an event of the server and a move of a client are one step each; a channel is a prefix relation between what one side wrote and what the other has read, so nothing is claimed about when bytes arrive, and a client may send whenever it is ready, which allows more than the token bucket does.
- StatusCodec.ParseStatusLine: coordinates are read as decimals with an optional sign and point into reals; exponents, infinities, not-a-number, hexadecimal forms and rounding to `double` are not modelled.
- Decimal.DecimalGrammar: the same subset of the floating-point grammar, over reals.
- ServerTheorems.EveryReportBalances: accepted connections and statuses are assumed to be fewer than 2^64 when the report is made; counters inside the server are unbounded and reduced modulo 2^64 on the wire.
- TelemetryServer.Server.HandleOneLine: the order of sends is kept per connection; between an ACK on one connection and relays on others it is not recorded.
- ServerReports.RateIsTruncatedQuotient: over reals; rounding of `double` is not modelled.
- TelemetryServer.Server.RunEventLoop: a finite sequence of batches, each of any length; the limit of 128 events per wait is not used, and an interrupted wait is no batch.
- TrafficLoop.SentWithinBudget: credit is a real number; rounding of `double` and the width of the `int` counter of messages are not modelled.
- TrafficLoop.RoundRobinIsFair: the table's iteration order is a parameter that closing a client does not change for the others.
- TrafficLoop.TurnHandlesEveryReport: one report per descriptor in a wait, as epoll gives them.
- LoadGenerator.Generator.ConnectClients: the sockets exist already, and which of them fail is given by the reports; a failing `getsockopt` is a failed connection.
- Liveness of the load generator when an acknowledgement is lost or the server stops: the code has no timeout there, so only the exit condition is exact.
- Percentile.PercentileIsTheRankedValue: the rank is computed over reals, and `std::sort` is an insertion into a sorted list.
- FleetMap.FleetMapWidget.NearestDeviceId: compares squared distances instead of calling `hypot`.
- FleetMap.FleetMapWidget.WorldBounds: the minimum starts from a first device instead of the largest `double`.
- ViewerConsole.Console.Run: queued signals between the two threads are a sequence of events in the window's thread.
