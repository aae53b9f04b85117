# NatStream, verified

NatStream listens to the kernel's connection-tracking events over netlink, keeps those with a NAT translation, and
exports them as IPFIX (RFC 7011, with the reverse elements of RFC 5103) or NetFlow v9 (RFC 3954) over UDP. This
project models its four stateful components in Dafny and proves what they promise together:

netlink bytes → NAT events → export messages → the flow records a collector holds.

| file | models |
|---|---|
| `Bytes.dfy`, `Event.dfy` | machine integers, byte order, alignment, buffer writes; the NAT event |
| `Template.dfy`, `Record.dfy` | profiles, template resolution, message capacity; the record body and counter clamping |
| `Message.dfy`, `Encoder.dfy` | an export message as a pure function; the encoder class that builds it in one reused buffer |
| `Collector.dfy`, `CollectorRefusals.dfy` | the repository's own collector, `tests/e2e/flowdecode.py`; exactly which datagrams it refuses |
| `RoundTrip.dfy`, `MessageRoundTrip.dfy` | collector after encoder is the identity on templates and reported values |
| `Netlink.dfy` | the parser's message loop and five attribute loops, each proved equal to a fold |
| `NetlinkLaws.dfy`, `NetlinkPrint.dfy`, `NetlinkNesting.dfy` | laws for arbitrary bytes; the printer `tests/support/netlink.rs` and its round trip; the laws inside nested attributes |
| `Worker.dfy`, `WorkerLoop.dfy` | the worker's event loop as a machine, and as the class that updates flags and encoder in place |
| `WorkerLaws.dfy`, `WorkerSchedule.dfy` | conservation, message log, clamp accounting; template schedule |
| `WorkerPolls.dfy`, `WorkerTiming.dfy` | what each poll result sends, reads and ends; the template timer against the clock |
| `EndToEnd.dfy` | whole runs: any delivery, restarts, agreement with a collector, sequence gaps, configuration |
| `Supervisor.dfy`, `SupervisorRestart.dfy`, `SupervisorTurns.dfy`, `SupervisorLoop.dfy` | the daemon's supervisor as a small-step machine with a safety monitor; when and after how long it restarts; what it does with each answer; its three loops as a class |

How to read it:

- Loops and objects of the source are methods and classes whose `ensures` tie them to a function; theorems are lemmas
  about those functions.
- What the outside world decides is an argument, so every theorem is for all of it: poll results, datagrams, clock
  readings, header times, send failures, lost messages, fork, wait and signal outcomes.
- Header integers of netlink are in the host's byte order; the order is a parameter (`Endian`) of everything that
  reads or prints them.
- `hide` statements only narrow what the verifier looks at inside one proof.
- A template is "due" when the worker's flag says so. The deadline is compared with the clock only at the top of the
  loop, so a drain may send several template-less messages between the deadline and the flag.

The main theorems are `EndToEnd.EntriesReachTheCollector`, `EndToEnd.RestartsAgree`, `EndToEnd.AnyDeliveryDecodes`,
`EndToEnd.SequenceGapCountsLoss`, `WorkerPolls.ShortMessagesHaveACause`, `WorkerTiming.RetransmitIsPrompt`,
`WorkerSchedule.TemplateSchedule`, `CollectorRefusals.DecodeFailsExactlyWhen`, `NetlinkLaws.TreeOrderIsIrrelevant`,
`NetlinkNesting.InvisibleInsideTuple`, `NetlinkPrint.PrintParse`, `MessageRoundTrip.MessageDecodes`,
`Template.GreedyVersusReported`, `Supervisor.RunIsSafe`, `SupervisorRestart.RestartsWaitOutTheBackoff` and
`SupervisorTurns.ExitIsActedOn`.

One promise of the source does not hold in general. The resolver's guard is meant to ensure that a message can hold its
template plus one record, but it counts exact padding while the encoder reserves the worst case;
`Template.GuardIsNotEnough` gives a template that passes the guard and exports nothing,
`Template.GuardGivesFirstRecord` says exactly when the guard suffices, and `Template.ResolveSucceedsExactlyWhen` that it
does for every template the program can resolve.

## Model

| member | source | states |
|---|---|---|
| `Bytes.WeightOfBytes` | src/export/encoder.rs:9-19 | network order puts the heaviest byte first, little-endian order last, for every width |
| `Template.ShapesAreConsistent` | src/export/template.rs:165-179 | true exactly when every declared width is the one its source is written at |
| `Template.ResolvedSizes` | src/export/template.rs:106-161 | field count, record size and template size of every profile, width and protocol are the documented ones |
| `Template.ResolveSucceedsExactlyWhen` | src/export/template.rs:339-398 | resolution fails exactly for template ids below 256; the result carries the id, protocol, profile and width asked for and is safe to encode with |
| `Template.DocumentedOrder` | src/export/template.rs:106-161 | every template announces the element ids of the README's layout table in its order, reply counters as reverse elements under IPFIX and as types 23 and 24 under v9 |
| `Template.MaxRecordsPerMessage` | src/export/template.rs:434-443 | the loop finds the greatest record count whose padded set fits, which is a closed-form quotient |
| `Template.AcceptedUpToLimit` | src/export/encoder.rs:100-111 | for any template greedy filling accepts the n-th record exactly up to a closed-form limit |
| `Template.GreedyVersusReported` | src/export/template.rs:418-443 | for any template the achieved capacity never exceeds the reported one, equals it exactly when nothing is reported or the padding reserve fits the remainder, and is otherwise one fewer if a record is no shorter than the reserve |
| `Template.GuardGivesFirstRecord` | src/export/template.rs:385-395 | behind the resolver's size guard the first record is accepted exactly unless, under v9, that record's set fills the message with fewer than three padding bytes; a record accepted beside the template is accepted without it |
| `Template.GuardIsNotEnough` | src/export/template.rs:385-395 | the guard's promise fails in general: a v9 template of 120 eight-byte counters passes it, is reported as one record per message, and has every record refused |
| `Template.ResolvedCapacityIsExact` | src/export/template.rs:434-443 | for every template the program can run with, reported and achieved capacity are equal |
| `Record.ClampIsMin` | src/export/record.rs:38-45 | clamping is min(value, 2^(8·width) − 1), and a counter is oversized exactly when its width cannot hold it |
| `Record.WriteField` | src/export/record.rs:60-94 | one field's bytes are written in place, the rest of the buffer is untouched, an oversized counter is reported |
| `Record.WriteRecord` | src/export/record.rs:52-97 | the buffer is overwritten by exactly the record's bytes and the clamp count is the number of oversized counters |
| `Record.FieldAtItsOffset` | src/export/record.rs:47-97 | a record has exactly the advertised size and each field sits at the offset the template implies |
| `Record.SaturationsAreOversizedCounters` | src/export/record.rs:80-96 | for every resolved template the clamp count of an event is how many of its four counters exceed the width |
| `Record.RecordBodyIsProtocolIndependent` | src/export/record.rs:1-5 | IPFIX and v9 records of one profile and width are byte-identical |
| `Message.TemplateSetLen` | src/export/template.rs:400-415 | the template set written field by field has the size announced before it is written |
| `Message.DataSetLen` | src/export/template.rs:417-423 | a data set of n records has the predicted size |
| `Message.MessageIsTiled` | src/export/encoder.rs:152-214 | header, template set and data set tile the message exactly |
| `Message.SetsAreAlignedAndFit` | src/export/encoder.rs:216-221 | any message whose last record was accepted fits 1472 bytes, v9 sets begin and end on 4-byte boundaries, aligning offset or length agrees |
| `Message.CountFitsSixteenBits` | src/export/encoder.rs:193-195 | the v9 record total never overflows its field |
| `Encoder.Encoder.constructor` | src/export/encoder.rs:53-67 | a new encoder holds no events, sequence number 0 and no clamped counters |
| `Encoder.Encoder.Put` | src/export/encoder.rs:9-19 | writing at the cursor appends to what the message holds |
| `Encoder.Encoder.PadSet` | src/export/encoder.rs:216-221 | zeros are appended up to the alignment of the message offset |
| `Encoder.Encoder.PutSpecifiers` | src/export/encoder.rs:246-256 | the loop appends every field specifier in order |
| `Encoder.Encoder.WriteTemplateSet` | src/export/encoder.rs:223-260 | what is written is exactly the template set, and it ends where its announced size says |
| `Encoder.Encoder.BeginMessage` | src/export/encoder.rs:85-96 | a fresh message holds the template set or nothing, whatever the buffer held before |
| `Encoder.Encoder.AddRecord` | src/export/encoder.rs:98-133 | a record is accepted exactly when it fits with worst-case padding; acceptance appends the event and counts its clamps; refusal changes nothing |
| `Encoder.Encoder.CloseDataSet` | src/export/encoder.rs:153-160 | the zero length placeholder is patched and the set padded into the final body |
| `Encoder.Encoder.WriteIpfixHeader` | src/export/encoder.rs:171-183 | the first 16 bytes become the IPFIX header and nothing else changes |
| `Encoder.Encoder.WriteNetflow9Header` | src/export/encoder.rs:171-207 | the first 20 bytes become the v9 header and nothing else changes |
| `Encoder.Encoder.Finalize` | src/export/encoder.rs:146-214 | for any history of earlier messages the emitted bytes are a pure function of this one, at most 1472 long, and the sequence number advances by records or packets |
| `Collector.ParseTemplateFields` | tests/e2e/flowdecode.py:151-173 | the specifier loop parses the announced number of fields or reports the first bad one |
| `Collector.ParseTemplateSet` | tests/e2e/flowdecode.py:142-177 | the nested loops parse all templates of a set or report the first error |
| `Collector.ParseRecord` | tests/e2e/flowdecode.py:189-194 | the field loop decodes one record, repeated names overwriting, or reports the first bad field |
| `Collector.ParseDataSet` | tests/e2e/flowdecode.py:180-196 | the record loop decodes exactly the whole records of a payload |
| `Collector.RegisterAll` | tests/e2e/flowdecode.py:243-245 | every parsed template is registered, later ones replacing earlier ones of the same id |
| `Collector.Decode` | tests/e2e/flowdecode.py:199-259 | header checks and the walk over the sets, including which templates stay registered after an error |
| `CollectorRefusals.HeadRefusals` | tests/e2e/flowdecode.py:204-229 | for which bytes a header is refused, with which error, and that all others are accepted |
| `CollectorRefusals.SpecifierRefusals` | tests/e2e/flowdecode.py:152-170 | for which bytes a field specifier is refused, with which error, and that all others are accepted |
| `CollectorRefusals.DataSetRefusedExactlyWhen` | tests/e2e/flowdecode.py:180-196 | a data set is refused exactly when its record size is zero or it holds a record with an address field not four bytes long |
| `CollectorRefusals.OneSetRead` | tests/e2e/flowdecode.py:234-256 | a set that is short, overruns, has a reserved id or does not parse stops the walk and keeps what was gathered; any other adds its own contents |
| `CollectorRefusals.DecodeFailsExactlyWhen` | tests/e2e/flowdecode.py:199-259 | a datagram is refused exactly when its header is or the walk over its sets comes to a refused one |
| `CollectorRefusals.NamesAreDistinct` | tests/e2e/flowdecode.py:121-131 | two elements share a name only if they share id and enterprise number, registered or not |
| `CollectorRefusals.UnregisteredNames` | tests/e2e/flowdecode.py:128-131 | an element outside the registry is named by its own id and enterprise number |
| `RoundTrip.ResolvedIsUnderstood` | src/export/template.rs:242-248 | every resolved field is announced under an id and enterprise number the collector maps back to its source |
| `RoundTrip.FieldRoundTrip` | tests/e2e/flowdecode.py:134-139 | each written field decodes to the event's value under its name, counters clamped |
| `RoundTrip.RecordRoundTrip` | src/export/record.rs:52-97 | a record decodes to exactly the event's reported values |
| `RoundTrip.ResolvedNames` | src/export/template.rs:111-161 | each profile carries exactly its documented names |
| `RoundTrip.ResolvedNamesAreDistinct` | src/export/template.rs:349-367 | no two fields of a template share a name or an (id, enterprise number) pair |
| `RoundTrip.NarrowerProfilesRestrict` | src/export/template.rs:128-161 | `nat-source` and `flow-only` report the full record restricted to their own names, across protocols |
| `MessageRoundTrip.TemplateSetRoundTrip` | tests/e2e/flowdecode.py:142-177 | a template record followed by any run of padding zeros decodes to the template and nothing else |
| `MessageRoundTrip.PaddingIsNoRecord` | tests/e2e/flowdecode.py:187-188 | set padding never decodes as an extra record |
| `MessageRoundTrip.DataSetRoundTrip` | tests/e2e/flowdecode.py:180-196 | a data set decodes to exactly its events' flows, in order |
| `MessageRoundTrip.HeadRoundTrip` | src/export/encoder.rs:171-210 | the collector reads back every header field it looks at as it was written |
| `MessageRoundTrip.HeaderOnTheWire` | src/export/encoder.rs:171-210 | every header field of the emitted bytes, sysUpTime included, stands at its offset under either protocol |
| `MessageRoundTrip.PaddingIsZero` | src/export/encoder.rs:216-221 | what follows the last record is zeros, fewer than the alignment |
| `MessageRoundTrip.MessageDecodes` | tests/e2e/flowdecode.py:199-259 | decoding a message yields its template, exactly its accepted records, its header values, and under v9 a count of templates plus records; without the template the records are skipped |
| `Netlink.SplitAt` | src/netlink/parser.rs:95-101 | one turn of any attribute loop takes exactly one attribute off what is left, keeps the offset aligned and moves forward |
| `Netlink.ParseTupleIp` | src/netlink/parser.rs:211-235 | equals a fold over the attributes, for arbitrary bytes |
| `Netlink.ParseTupleProto` | src/netlink/parser.rs:238-259 | equals a fold over the attributes, for arbitrary bytes |
| `Netlink.ParseCounters` | src/netlink/parser.rs:262-282 | equals a fold over the attributes, for arbitrary bytes |
| `Netlink.ParseTuple` | src/netlink/parser.rs:177-208 | equals a fold over the attributes, for arbitrary bytes |
| `Netlink.ReadTreeAttr` | src/netlink/parser.rs:105-147 | each top-level attribute updates only its own part of the connection, the reply's protocol being dropped |
| `Netlink.ParseNlaTree` | src/netlink/parser.rs:77-174 | equals the filtered event of a fold over the attributes, for arbitrary bytes |
| `Netlink.ReadMessage` | src/netlink/parser.rs:35-70 | one message yields its event or nothing |
| `Netlink.ParseConntrackMessages` | src/netlink/parser.rs:19-74 | the events are those of all complete messages, in order, for arbitrary bytes |
| `NetlinkLaws.FoldByType` | src/netlink/parser.rs:94-150 | a fold whose steps commute across types depends only on what the attributes of each known type do, in their own order |
| `NetlinkLaws.TreeOrderIsIrrelevant` | src/netlink/parser.rs:77-174 | reordering attributes of different types at any depth, and adding unknown ones, leaves the event unchanged |
| `NetlinkLaws.TupleOrderIsIrrelevant` | src/netlink/parser.rs:177-208 | the same for a tuple and the attributes nested in it, from any state |
| `NetlinkLaws.LeafOrderIsIrrelevant` | src/netlink/parser.rs:211-282 | the same for addresses, ports and counters, from any state |
| `NetlinkLaws.UnknownAttributesAreInvisible` | src/netlink/parser.rs:146-149 | complete attributes of unknown types inserted at any boundary are invisible to each of the five loops, from any state |
| `NetlinkLaws.TruncationKeepsAPrefix` | src/netlink/parser.rs:26-33 | for every cut point the events of the cut buffer are a prefix of the whole one's |
| `NetlinkLaws.ParseAppend` | src/netlink/parser.rs:26-73 | parsing distributes over concatenation behind a fully consumed run of messages |
| `NetlinkLaws.DamagedAttributeEndsTheLoop` | src/netlink/parser.rs:95-101 | behind complete attributes a short, undersized or overrunning one ends any attribute loop with what was read |
| `NetlinkLaws.DamagedMessageEndsTheDatagram` | src/netlink/parser.rs:26-33 | behind complete messages a short, undersized or overrunning one ends the datagram with the events read |
| `NetlinkPrint.PadOut` | tests/support/netlink.rs:9-11 | zeros are pushed exactly up to the next multiple of four |
| `NetlinkPrint.BuildAttr` | tests/support/netlink.rs:3-13 | builds the printed attribute |
| `NetlinkPrint.BuildMessage` | tests/support/netlink.rs:56-72 | builds the printed message |
| `NetlinkPrint.SplitPrinted` | tests/support/netlink.rs:3-17 | a printed attribute reads back as its masked type and payload, whatever follows |
| `NetlinkPrint.TupleRoundTrip` | tests/support/netlink.rs:19-44 | a printed tuple reads back, whatever was there before |
| `NetlinkPrint.CountersRoundTrip` | tests/support/netlink.rs:46-54 | printed counters read back, whatever was there before |
| `NetlinkPrint.NatMaskBits` | src/netlink/constants.rs:60-62 | the status filter sees exactly the SRC_NAT and DST_NAT bits |
| `NetlinkPrint.OnlyIpv4NewOrDelete` | src/netlink/parser.rs:35-62 | only IPv4 conntrack NEW and DELETE messages yield an event, of the matching kind |
| `NetlinkPrint.EntryRoundTrip` | tests/support/netlink.rs:74-80 | an entry's message carries its event exactly when it is IPv4, NEW or DELETE, with a NAT bit |
| `NetlinkPrint.PrintParse` | src/netlink/parser.rs:19-174 | parsing any list of printed entries yields exactly its NAT events in order, the reply's ends swapped, on either byte order |
| `NetlinkNesting.PayloadMayChange` | src/netlink/parser.rs:104-144 | inside a message a payload may be exchanged for one that agrees with it type by type at every depth; the event stays the same |
| `NetlinkNesting.InvisibleInside` | src/netlink/parser.rs:177-282 | unknown attributes inserted at any boundary inside a tuple or counters attribute leave the event unchanged |
| `NetlinkNesting.InvisibleInsideTuple` | src/netlink/parser.rs:211-259 | the same two levels down, inside the address or protocol attribute of either tuple |
| `WorkerLaws.FlushKeepsLog` | src/main.rs:403-428 | flushing moves the buffered events to the log; every logged message is the encoding of its events under the right sequence number |
| `WorkerLaws.RetryAlwaysFits` | src/main.rs:367-370 | the error branch after a refused retry is unreachable |
| `WorkerLaws.RolloverKeeps` | src/main.rs:356-367 | sending a full message and starting the next neither adds nor drops an event, and the sent one is full |
| `WorkerLaws.AddEventKeeps` | src/main.rs:353-372 | each parsed event is accounted for exactly once, and its clamped counters once even when retried; when it is sent is `WorkerPolls.RoomMeansNoSend` |
| `WorkerLaws.QuietPollEmptiesTheBuffer` | src/main.rs:287-303 | a poll timeout sends exactly what was buffered and leaves no message active |
| `WorkerLaws.RetransmitIsNoticed` | src/main.rs:206-255 | at the top of the loop, and only there, a retransmit found due goes out alone at once or waits for the active message; otherwise nothing but a clock reading happens |
| `WorkerLaws.RunAccounts` | src/main.rs:205-396 | from any good state, messages sent followed by the buffer are exactly what was read, in order |
| `WorkerLaws.WorkerConserves` | src/main.rs:179-396 | the same for every run from start-up, with sequence numbers, full messages, send errors and clamp count as promised |
| `WorkerSchedule.BeforePollSchedule` | src/main.rs:205-255 | whenever `poll` is entered with the due flag set a message is active |
| `WorkerSchedule.TemplateSchedule` | src/main.rs:181-418 | first message carries the template, at most one template-less message goes out while the due flag is set, template messages are at least the interval apart |
| `WorkerPolls.RoomMeansNoSend` | src/main.rs:353-356 | with fewer records buffered than the limit an event is appended and nothing is sent |
| `WorkerPolls.NoRoomMeansOneSend` | src/main.rs:356-371 | at the limit exactly the buffered message goes out, and the event alone starts the next one, with the template if it is still due |
| `WorkerPolls.ReadyPollSendsFullOnly` | src/main.rs:306-379 | a poll with data to read sends only messages holding exactly the limit, leaves a message active if it read anything from the kernel, and otherwise changes nothing |
| `WorkerPolls.QuietPollSends` | src/main.rs:287-303 | a poll with nothing to read sends the active message, whole and alone, and closes it |
| `WorkerPolls.TopOfLoopSends` | src/main.rs:206-255 | the top of the loop sends at most one message: the template, alone, when due and no message is active |
| `WorkerPolls.ShortMessagesHaveACause` | src/main.rs:204-396 | in every run a message not holding exactly its limit was sent by a due template, a poll with nothing to read, or the signal that ended the run |
| `WorkerPolls.EndingByPolls` | src/main.rs:263-285 | the first poll that reads a signal shuts the run down, the first that fails fails it, and without either it goes on |
| `WorkerPolls.ShutDownExactlyWhen` | src/main.rs:277-285 | a run is shut down exactly when a signal ends it |
| `WorkerPolls.EndingSends` | src/main.rs:383-395 | after its last top of loop a failed run sends nothing, and a signalled one exactly the active message |
| `WorkerPolls.PollReads` | src/main.rs:306-379 | a poll takes in every datagram of its receives up to the first that does not fill sixteen slots, and of sixty-four at most |
| `WorkerPolls.RunReads` | src/main.rs:204-396 | a run reads what its polls take in up to the one that ends it |
| `WorkerTiming.LoggedTimesAreReadings` | src/main.rs:415-418 | in every run the timer stands at the latest template, and every template's time is a clock reading the run made |
| `WorkerTiming.TemplateIsTimedBySend` | src/main.rs:411-418 | sending a message with the template reads the clock once, restarts the timer at that reading and clears the due flag |
| `WorkerTiming.PlainMessageIsNotTimed` | src/main.rs:411-418 | sending one without it leaves clock, timer and flag alone |
| `WorkerTiming.RetransmitIsPrompt` | src/main.rs:206-255 | once the deadline has passed at a top of loop, the first or the second message sent from there on carries the template |
| `WorkerTiming.EveryRunSends` | src/main.rs:181-255 | a run that gets as far as its first `poll` has sent the template |
| `WorkerLoop.WorkerProcess.constructor` | src/main.rs:178-184 | the initial state, with a template due |
| `WorkerLoop.WorkerProcess.Transmit` | src/main.rs:420-427 | finalises, logs and counts a failed send |
| `WorkerLoop.WorkerProcess.FlushMessage` | src/main.rs:403-428 | in-place flush equals the machine's flush |
| `WorkerLoop.WorkerProcess.OnEvent` | src/main.rs:353-372 | the record callback equals the machine's step |
| `WorkerLoop.WorkerProcess.OnDatagram` | src/main.rs:324-373 | one datagram equals the machine's step |
| `WorkerLoop.WorkerProcess.OnBatch` | src/main.rs:324-373 | one batch equals the machine's step |
| `WorkerLoop.WorkerProcess.DrainSocket` | src/main.rs:306-379 | the bounded drain loop equals the machine's |
| `WorkerLoop.WorkerProcess.CheckTimers` | src/main.rs:206-255 | the loop body up to `poll` equals the machine's |
| `WorkerLoop.WorkerProcess.RunWorker` | src/main.rs:204-396 | the whole loop, on any sequence of poll results, ends where the machine does and with its status |
| `EndToEnd.RestartsAgree` | src/main.rs:458-506 | a collector that receives all messages of any number of worker lives, one after the other, never fails and holds exactly the flows they report, in order; each life reports exactly what it read less what it held when it ended |
| `EndToEnd.CollectorAgrees` | src/main.rs:204-396 | for every run the collector never fails and holds exactly the flows of what was read, in order, less those buffered |
| `EndToEnd.AnyDeliveryDecodes` | tests/e2e/flowdecode.py:262-340 | whatever is lost, duplicated or reordered, from any number of worker lives under one configuration, the collector never fails and, from the first template it receives, holds every flow of every message it receives |
| `EndToEnd.SequenceGapCountsLoss` | src/export/encoder.rs:174-211 | from the decoded sequence numbers of two messages of one life, and the records of the first, the collector obtains how many records, or v9 packets, were sent between them, mod 2^32 |
| `EndToEnd.SaturationsAreOversized` | src/export/encoder.rs:73-77 | over any events the clamp total is the number of counters too wide for the configured width |
| `EndToEnd.ConfigureAcceptsExactly` | src/main.rs:133-145 | a configuration is accepted exactly when interval, width and template id are in range, the first that is not is reported, and what is accepted is what was asked for and understood by the collector |
| `EndToEnd.EntriesReachTheCollector` | src/main.rs:133-396 | for every accepted configuration, kernel entries delivered in any cut until a poll brings a signal leave the collector with one template under the configured id and exactly their NAT flows, in messages of the configured protocol and domain, and the clamp counter with exactly the oversized counters |
| `Supervisor.TimeoutNeverOvershoots` | src/main.rs:615-619 | a poll timeout is in range, never past the deadline, and short of it by less than a millisecond unless clamped |
| `Supervisor.RestartExactlyAfterFailure` | src/main.rs:621-627 | which wait statuses call for a restart: a non-zero exit or a fatal signal, not a clean exit or a stop; the run-level theorems below are stated with it |
| `Supervisor.RunIsSafe` | src/main.rs:458-597 | every run keeps the safety monitor satisfied and the supervisor's variables in step with it |
| `Supervisor.ForksAreExclusive` | src/main.rs:458-506 | a fork finds no unreaped worker, and none follows a shutdown signal that was read |
| `Supervisor.SignalsReachTheLiveWorker` | src/main.rs:521-568 | SIGTERM and SIGKILL go only to the unreaped worker |
| `Supervisor.OneTermOneKill` | src/main.rs:545-566 | between two SIGTERMs, or two SIGKILLs, the worker was reaped |
| `Supervisor.KillWaitsForGrace` | src/main.rs:553-566 | SIGKILL follows a SIGTERM to the same unreaped worker by at least the grace period |
| `Supervisor.ShutdownIsForwarded` | src/main.rs:545-559 | a shutdown signal read while a worker runs has been forwarded to it |
| `Supervisor.OverdueWorkerIsKilled` | src/main.rs:560-566 | a worker past its grace period and not yet killed is killed at the next timeout |
| `Supervisor.StopsAfterReaping` | src/main.rs:488-495 | shutdown or a clean stop is reported only when no worker is left |
| `SupervisorRestart.BackoffSchedule` | src/main.rs:457-503 | the delay decided on after the k-th further short-lived failure is min(2^k, 60) seconds for every k and run, a worker up for a minute since its fork restarting at k = 0 |
| `SupervisorRestart.RestartsFollowFailures` | src/main.rs:488-503 | in every run each fork but the first comes straight after one delay, and that straight after the reaping of a worker whose status calls for a restart |
| `SupervisorRestart.CleanExitExactlyWhen` | src/main.rs:488-495 | in every run the supervisor stops on a clean exit exactly when no shutdown signal was read and the last reaped status calls for no restart |
| `SupervisorRestart.RestartsWaitOutTheBackoff` | src/main.rs:572-583 | on a clock that never goes backwards a restart comes at least min(2^k, 60) seconds after the start of its pause, for every k and run |
| `SupervisorRestart.PauseEnds` | src/main.rs:572-583 | a pause does not outlast its deadline: the first pass at or after it leads to the next fork |
| `SupervisorTurns.ForkTurn` | src/main.rs:459-467 | a fork is logged with its pid and the reading taken before it; a failed one ends the supervisor |
| `SupervisorTurns.SignalWhileWatching` | src/main.rs:543-559 | in every run a signal other than 17 read while watching is recorded, the first is sent on to the live worker as SIGTERM, and 17 alone changes nothing |
| `SupervisorTurns.OtherWatchTurns` | src/main.rs:523-566 | failures end the supervisor, interruptions and timeouts before a shutdown change nothing |
| `SupervisorTurns.GraceTurn` | src/main.rs:560-566 | a timeout kills the worker ten seconds after its SIGTERM, once, and does nothing earlier |
| `SupervisorTurns.ReapTurn` | src/main.rs:526-532 | an exit is recorded with the live pid and its status; after a shutdown signal it ends the supervisor |
| `SupervisorTurns.ExitIsActedOn` | src/main.rs:488-503 | in every run an exit without shutdown leads in the next turn to the pause its status and crash loop call for, or to a clean stop |
| `SupervisorTurns.PauseTurn` | src/main.rs:572-597 | in every run a signal other than 17 read during a pause ends the supervisor at once; 17, interruptions and timeouts leave the pause as it is; failures end it |
| `SupervisorLoop.SupervisorProcess.constructor` | src/main.rs:457 | the initial state |
| `SupervisorLoop.SupervisorProcess.OnSignals` | src/main.rs:547-559 | only the first shutdown signal is forwarded and sets the deadline |
| `SupervisorLoop.SupervisorProcess.SuperviseChild` | src/main.rs:521-568 | the watch loop follows the machine and ends in the phase it reports |
| `SupervisorLoop.SupervisorProcess.WaitBeforeRestart` | src/main.rs:572-597 | the pause loop follows the machine and ends in the phase it reports |
| `SupervisorLoop.SupervisorProcess.FindShutdown` | src/main.rs:586-591 | finds a signal other than SIGCHLD exactly when there is one |
| `SupervisorLoop.SupervisorProcess.RunSupervisor` | src/main.rs:456-506 | the main loop ends where the machine does on every sequence of answers |

## Left out

- System calls themselves: `recvmmsg`, `poll`, `signalfd`, `fork`, `waitpid`, `kill` and UDP `send` are arguments and trace entries; src/netlink/socket.rs and src/signals.rs are not part of this model.
- Liveness: with netlink data that holds no NAT event arriving without pause nothing forces a flush, so schedule properties are safety properties; poll timeout values do not enter the worker's machine.
- Periodic statistics, the truncated and foreign datagram counters, logging, sysctl handling, stdio redirection, daemonising and socket options: plumbing without a hard property.
- Export time and sysUpTime values: arbitrary 32-bit inputs of each message.
- Overflow of the 64-bit clamp and send error counters, which are unbounded here.
- The parser's callback: events are returned as a list and handled in the same order, the callback having no influence on parsing.
- The collector's formatted names for unknown elements and its dotted address strings: distinct constructors and the four octets stand for them.
- The collector's socket, command line and `describe`, the benchmarks, packaging and virtual-machine harness: no hard property.
