# A verified model of skewer

Skewer collects log messages, keeps them in a persistent store and forwards them to destinations. It
promises at-least-once delivery. This project models the code that keeps the promise, and the wire formats
that feed it, and proves what the code does over every input, every run and every interleaving.

`dafny verify dfyconfig.toml` checks everything.

## The parts

**The message store.** `StoreState` is a state machine whose steps are the badger transactions of
`store/store.go`, the separate updates of the reference counts, crashes, and the four stages of startup.
Ingest, the ACK path and the purge are cut into their sub-steps, so runs interleave them freely and a crash may
come anywhere. `StoreInvariant` proves one inductive invariant over all seventeen kinds of step. From it
follow no loss and no invention (`StoreTheorems`), safe purging, recovery after a crash at any point
(`StoreRecovery`), and a conservation law for the reference counts (`StoreCounts`). `MessageStore` and
`RefCount` are the same operations as classes with fields that methods update. A method that is one transaction is
proved to make that transition, and to log what the object then holds. For the methods that are several, `StoreTrace`
compares what was logged with the states of a legal run of the machine, one by one. `StoreFailures` adds startups that go
on after a failing transaction. `Retrieve` is the batch fetch with its in-place filter, `Handoff` the slot
between the retriever and a forward loop, `Forwarder` the sorting of a batch.

**Ordered acknowledgement.** `Relp` (answers in the order of receipt), `Kafka` (offsets marked without gaps),
`Semaphore`, `Window` and `SendWindow` (a counting semaphore, the RELP client's send window, and the two together) are
machines whose steps are single queue operations, writes or atomic operations.

**Codecs.** `Scanner` is the theory of split functions: reading in other pieces gives the same tokens.
`PluginFraming`, `RelpFraming`, `TcpFraming` and `LineFraming` are the framings. `Wire`, `Protobuf`, `ProtobufMessage` and
`ProtobufBuffer` are the protobuf messages, down to filling a buffer of the announced size. `Avro` and `AvroMessage`
are the Avro records. `Unicode` and `Rfc5424`, `Rfc5424Printer`, `Rfc5424Listener` and `Rfc5424Encoder` are the RFC 5424
printer, the grammar and the listener behind it. `Gelf` is chunk reassembly. `Varint`, `Decimal`, `Text`, `Conv` and
`Listings` hold what they share; a `Listing` is a map in the order in which it happens to be iterated over, and
statements about all listings are statements about all iteration orders.

## What the code turns out to do

Some properties one would expect hold only under a condition. Each is stated with its exact condition.

- A stored message whose content is empty or does not decode is dropped by the retrieve that meets it:
  `BadContentStaysInReady`, `BadContentIsDropped`. All other messages are never lost, failing startups aside (see below).
- Reference counts stay above the number of queue entries if and only if no ACK is repeated and each concerns an
  entry in Sent: `OneVerdictPerDelivery`. The store does not check this.
- A batch without a single usable content is taken for the end of the queue. The retrieve loop empties a queue if and only
  if no batch before the last is such a batch: `RetrieveUntilIdle`, `StallsWhen`, `EmptyContentStalls`.
- `prune` looks at three of the four queues. It is safe because recovery empties Sent first (`CrashRecovery`). But a
  failing reset is only logged, and startup goes on: then contents are lost and counts fall short exactly by the entries that
  stayed in Sent (`StartExact`, `FailedResetLoses`). All other uids keep every guarantee, then and in whatever follows
  (`NoLossButStranded`, `PurgeSafeButStranded`).
- `PurgeBadger` never commits the transaction in which it deletes (`store/store.go:1078-1087`), so the model lets
  a purge commit or not.
- Kafka offsets are marked safely exactly when the first one acknowledged is the lowest fetched: `SafeWhen`.
- A RELP message over the size limit gets no verdict, and nothing after it is ever answered (`OversizedStops`); at rest
  everything before it is (`OthersAreAnswered`).
- A uid put into the RELP client's table behind the cursor of the final sweep, or after the sweep, gets no verdict:
  `OneVerdictEach`.
- A plugin frame of ten thousand million bytes or more is refused by its own reader: `PluginRoundTrip`. An
  encrypted one has its header cut: `EncryptRoundTrip`.
- Octet counting and RELP trim what they carry; it comes back unchanged if and only if it has no white space at either end:
  `OctetRoundTrip`, `RelpRoundTrip`. The line feed of an empty RELP frame is left for the next frame.
- With a configured delimiter that is not a blank, a blank message stops the stream: `AllReadWhen` has the exact condition.
- Identifiers that are not sixteen bytes long change on their way through protobuf: `FullRoundTrip`.
- Avro strings over 31 bits of length are written and refused when read: `StringRoundTrip`.
- The RFC 5424 printer accepts empty names and negative priorities, which the grammar refuses: `DecodePrinted`. Long names
  are cut, fractions of a second and the raw structured data are not printed, the generated time is always replaced by the
  time of decoding, bytes of the text that are not UTF-8 come back as U+FFFD, lone hyphens and leading spaces do not survive,
  and values keep their escapes. `UnchangedWhen` has the exact condition under which the decoder gives back the message that
  was encoded.

## Model

| member | source | states |
|---|---|---|
| StoreInvariant.StepInv | store/store.go:834-1471 | every step of the store, of a purge, of a crash and of recovery keeps the invariant: queues disjoint, every committed entry placed, contents present, timestamps readable, counts conserved |
| StoreInvariant.RunInv | store/store.go:456-1471 | the invariant holds after every legal run from a state that has it |
| StoreInvariant.RetryKeeps | store/store.go:958-1036 | resetting failures discards nothing, because every stored timestamp decodes; expired entries only move |
| StoreInvariant.RetrieveSplits | store/store.go:1180-1276 | a retrieve holds back exactly the entries whose ingested content is empty or does not decode |
| StoreInvariant.PruneData | store/store.go:834-885 | with Sent empty, pruning keeps the content of everything held |
| StoreInvariant.InitialCountIsLoad | store/store.go:748-804 | counting the queues one by one counts the entries of each uid |
| StoreTheorems.HistoryIsRun | store/store.go:1097-1371 | what the invariant calls ingested, committed and acknowledged is what the steps of the run did |
| StoreTheorems.NoLoss | store/store.go:910-1471 | after any run with crashes anywhere, a committed and not acknowledged entry with decodable content is in exactly one queue and its content is stored unchanged; an acknowledged one is in no queue |
| StoreTheorems.NoInvention | store/store.go:1097-1471 | an entry is in a queue only if it was committed and not acknowledged |
| StoreTheorems.BadContentStaysInReady | store/store.go:1207-1238 | an entry whose content is bad is never acknowledged and is in Ready or nowhere |
| StoreTheorems.BadContentIsDropped | store/store.go:1207-1276 | the retrieve that meets such an entry drops it |
| StoreTheorems.PurgeSafe | store/store.go:1060-1095 | a uid that GC selects is in no queue of any destination, then and after every continuation of the run |
| StoreRecovery.RecoveryRuns | store/store.go:456-483 | in every order of the destinations the four stages run to the end and bring the store up |
| StoreRecovery.CrashRecovery | store/store.go:456-483 | after any run and a crash, recovery loses no entry, empties Sent, keeps only referenced contents and makes each count its number of entries |
| StoreRecovery.RecoveredContents | store/store.go:834-885 | when all contents decode, the contents left are exactly those of referenced uids |
| StoreRecovery.StartExact | store/store.go:456-483 | after any run, a startup whose passes end early keeps every needed content if and only if each uid left in Sent has an entry that was not, and each count falls short by exactly the entries left there |
| StoreFailures.MirrorRuns | store/store.go:456-483 | after any events, with failing resets and failing pruning in any startup, the uids that no startup has left in Sent are where a legal run of the store without failures leaves them |
| StoreFailures.NoLossButStranded | store/store.go:456-1471 | of those uids nothing is lost: a committed and not acknowledged entry with decodable content is in exactly one queue and its content is stored unchanged |
| StoreFailures.PurgeSafeButStranded | store/store.go:456-1095 | such a uid that GC selects is in no queue, then and after whatever happens |
| StoreFailures.FailedResetLoses | store/store.go:461-480 | the exception is needed: after any events that leave the store up, a new message that is sent before a crash loses its content and its count when the next startup fails to reset Sent |
| StoreCounts.CountConserved | store/store.go:1163-1177 | a count is its uid's queue entries plus decrements on their way plus what leaked since the last crash |
| StoreCounts.CountExact | store/store.go:1163-1371 | with no decrement overtaking its Ingest and decodable content nothing leaks, so a count is exactly its entries and the decrements on their way |
| StoreCounts.OvertakingShows | store/store.go:1136-1178 | whether a decrement overtakes its Ingest can be read off the order of the steps, both ways |
| StoreCounts.CountExactInOneGo | store/store.go:1136-1178 | counts are exact in every run in which nothing but a crash comes between the contents and the last count of an Ingest call |
| StoreTrace.IngestInOneGo | store/store.go:1136-1178 | the steps that an Ingest call takes, one after the other, keep a run of that kind |
| StoreCounts.OneVerdictPerDelivery | store/store.go:1331-1371 | counts stay at or above the entries if and only if a batch of ACKs has no repetition and concerns entries in Sent only |
| RefCount.RefCount.New | utils/refcount.go:17-22 | a positive count is set, and one that is not positive changes nothing |
| RefCount.RefCount.Dec | utils/refcount.go:24-30 | a known count goes down by one and the result tells whether it reached zero; an unknown uid changes nothing |
| RefCount.RefCount.Inc | utils/refcount.go:32-39 | a known count goes up by one and an unknown one starts at one |
| RefCount.RefCount.Remove | utils/refcount.go:41-43 | the uid is forgotten and no other |
| RefCount.RefCount.GC | utils/refcount.go:45-52 | exactly the uids whose count is not positive, each once |
| MessageStore.MessageStore.Ingest | store/store.go:1097-1178 | contents first, then the Ready queues up to the first that fails, then the counts, nothing when the contents cannot be stored; what the object has logged after each transaction and each count are the states of a legal run of Content, MakeReady per destination and CountNew per uid |
| MessageStore.MessageStore.TryRetrieve | store/store.go:1243-1276 | the first batch of ready keys leaves Ready, the usable ones enter Sent, and their messages come back aligned and in order |
| MessageStore.MessageStore.RetrieveUntilIdle | store/store.go:380-452 | batch after batch for one destination, until one yields no message: every key is taken once and in order, the messages are those of the contents at the start, all batches together are one retrieve, and the queue is empty if and only if no batch before the last was without a usable content |
| Retrieve.StallsWhen | store/store.go:436-452 | the recursion of the loop stops early if and only if some batch before the last has no usable content |
| Retrieve.EmptyContentStalls | store/store.go:1207-1218 | one empty content at the head of the queue leaves the rest of it waiting, with batches of one |
| MessageStore.MessageStore.DoACK | store/store.go:1331-1371 | the entries leave Sent and each ACK decrements once, nothing when the transaction fails; for ACKs that are due what the object has logged are the states of a legal run of Ack and one CountDec per ACK |
| MessageStore.MessageStore.DoNACK | store/store.go:1378-1420 | the entries move from Sent to Failed with the time as their stamp |
| MessageStore.MessageStore.DoPermanentError | store/store.go:1427-1471 | the entries move from Sent to PermErrors with the time |
| MessageStore.MessageStore.ResetStuckInSentByDest | store/store.go:928-941 | the Sent entries of one destination, and only they, go back to Ready |
| MessageStore.MessageStore.ScanFailed | store/store.go:968-1005 | the scan finds exactly the entries due again and exactly those without a readable stamp |
| MessageStore.MessageStore.ResetFailuresByDest | store/store.go:958-1058 | due entries return to Ready, unreadable ones are discarded, both are counted |
| MessageStore.MessageStore.Prune | store/store.go:834-885 | deletes exactly the contents that Ready, Failed and PermErrors do not refer to |
| MessageStore.MessageStore.InitGauge | store/store.go:748-804 | every count becomes the number of entries in the three queues |
| MessageStore.MessageStore.Recover | store/store.go:456-483 | the startup sequence, whichever resets fail and whether or not pruning does: a failure ends its pass only; without failures the object ends in the state that the recovery steps of the machine reach |
| MessageStore.MessageStore.ResetStuckInSent | store/store.go:887-908 | visits every destination once, in some order, up to the first that fails, and takes the steps of the machine |
| MessageStore.MessageStore.ResetFailures | store/store.go:947-956 | visits every destination once, in some order, up to the first that fails, and takes the steps of the machine |
| MessageStore.MessageStore.PurgeBadger | store/store.go:1060-1095 | the selected uids lose their counts and the disk does not change, nothing when the deletion reports an error; what the object has logged are the states of a legal run of PurgeSelect per uid, an uncommitted PurgeDelete and PurgeForget per uid |
| Retrieve.FetchKeys | store/store.go:1191-1201 | the first keys of the queue, as many as the batch size allows |
| Retrieve.Filter | store/store.go:1203-1241 | the filter that writes into the storage it reads from keeps every usable key in order, never overwrites a key not yet read, and reports the others |
| Retrieve.KeepReject | store/store.go:1203-1241 | kept and rejected keys split the batch by whether the content can be handed out |
| Retrieve.KeepInOrder | store/store.go:1203-1241 | kept keys are keys of the batch in batch order |
| Retrieve.Aligned | store/store.go:1203-1241 | the message at each position is the one of the uid at that position |
| Handoff.RunInv | store/store.go:297-454 | in every interleaving of the retriever and a forward loop, slot, hands and pool hold different slices and account for every batch |
| Handoff.DeliveredInOrder | store/store.go:308-378 | what has been delivered is a prefix of what was retrieved, each batch once |
| Handoff.StoreFindsEmptySlot | store/store.go:431-452 | a batch is stored only into an empty slot, when everything before it is delivered |
| Handoff.ShutdownSettlesAll | store/store.go:308-378 | after shutdown each batch was delivered or given back, never both, and at most one was given back |
| Handoff.PooledSlicesUnused | store/store.go:345-378 | a pooled slice is not in the slot, not held by either side and not the one delivered last |
| Forwarder.Forwarder.Classify | store/forwarder.go:137-205 | the fate of a message follows from its configuration and the filter's answer |
| Forwarder.Forwarder.FwdMsgs | store/forwarder.go:124-219 | the slots hold the passing messages in batch order and each verdict queue gets the uids with that fate; every position of the batch produces exactly one slot or one verdict entry that holds its message or uid, none if and only if it is skipped or its filter breaks, and there is no other slot or entry |
| Forwarder.BooksBalance | store/forwarder.go:124-219 | positions and places of a batch correspond one to one, for any filters |
| Forwarder.FateIsExact | store/forwarder.go:124-219 | a message is in the list of a fate if and only if that is its fate |
| Forwarder.ListsAgree | store/forwarder.go:124-219 | slots and verdicts are as many as the messages with their fate, and belong to them |
| Forwarder.SlotsInOrder | store/forwarder.go:124-219 | the slots are messages at increasing positions of the batch |
| Forwarder.BatchFits | store/forwarder.go:77-77 | a retrieved batch never exceeds the slots allocated for it |
| Relp.ReceivedIncrease | services/network/relp.go:522-637 | the transaction numbers a connection accepts grow strictly and are never negative |
| Relp.MessagesAreReceived | services/network/relp.go:522-637 | the accepted numbers are those of the frames that are received as messages, one for one |
| Relp.RunInv | services/network/relp.go:405-476 | in every interleaving of scanner, parsers and response loop: answered, pending and queued numbers are the received ones, and verdicts are switched off once answered |
| Relp.AnswersInOrder | services/network/relp.go:405-476 | answers followed by pending numbers equal the received ones, so answers are strictly increasing; each 200 or 500 is the first verdict taken |
| Relp.AnsweredPrefix | services/network/relp.go:413-475 | at rest the loop has answered exactly the longest prefix of received numbers that have a verdict |
| Relp.UnjudgedBlocks | services/network/relp.go:405-476 | in every run a number without a verdict holds back every later answer |
| Relp.OversizedStops | services/network/relp.go:589-637 | in every run the answers are at most as many as the messages before the first one over the size limit |
| Relp.OthersAreAnswered | services/network/relp.go:405-637 | at rest, with every other verdict taken, they are exactly as many, all of them when none is over the limit |
| Relp.CookIsSteps | services/network/relp.go:421-475 | the inner loop takes steps of the machine only and ends, with writes that succeed, time out or break the connection |
| Relp.Responder.Drain | services/network/relp.go:140-185 | at most one success and one failure move from the queues into the maps, a second verdict for the same number being ignored |
| Relp.Responder.Cook | services/network/directrelp.go:497-549 | the loop ends in the state in which nothing more can be answered or the connection is gone; a write that times out is tried again |
| Kafka.MarkingExplained | services/network/kafka.go:299-328 | for any order and repetition of acknowledgements the marks are the gap-free run from the first acknowledgement to the first offset without one |
| Kafka.ExplainedUnique | services/network/kafka.go:299-328 | that description determines the marks |
| Kafka.SafeWhen | services/network/kafka.go:299-328 | no offset is ever marked before everything fetched below it is processed, if and only if the first acknowledged offset is the lowest fetched |
| Kafka.MarksGrow | services/network/kafka.go:299-328 | a further acknowledgement only appends marks |
| Kafka.Acknowledger.Acknowledge | services/network/kafka.go:299-328 | one acknowledgement changes its partition as specified and no other, and the marks made are those of the partition |
| Semaphore.RunInv | utils/semaphore.go:21-54 | at every atomic operation of any number of threads at most one thread is between lock and unlock and the count tells permits and debt |
| Semaphore.PermitsBounded | utils/semaphore.go:21-54 | permits held never exceed the total, and count is total less held less one waiter at most |
| Semaphore.GrantsOnlyFree | utils/semaphore.go:21-54 | a permit is granted only when one is free and taken back only by a release |
| Window.RunInv | clients/relp.go:73-107 | every permit is accounted for by an entry of the table or a thread about to put or release one |
| Window.WindowBounded | clients/relp.go:73-107 | the table never holds more than the window |
| Window.OneVerdictEach | clients/relp.go:401-458 | once the loop is over a registered uid has exactly one verdict if it was registered before the sweep or ahead of its cursor, and none otherwise |
| Window.NeverTwice | clients/relp.go:401-458 | at no time has a transaction two verdicts, and each verdict carries the registered uid |
| SendWindow.TableBounded | clients/relp.go:73-107 | with the semaphore in place of a guard, in every interleaving of threads in Acquire, senders and response loop, table and senders on their way never exceed the window |
| SendWindow.WindowRefines | clients/relp.go:73-107 | every step of window and semaphore together is a step of the window, with its guards, or leaves it alone |
| Gelf.FromChunks | services/network/graylog.go:293-304 | the chunks in sequence order, or an error when one is missing |
| Gelf.Receiver.Receive | services/network/graylog.go:215-268 | one datagram changes the chunk table and the start times as specified: empty, oversized and late chunks included |
| Gelf.HoldsAlways | services/network/graylog.go:215-268 | whatever else the stream contains, the table holds exactly the chunks that came of a message since it was last complete or discarded for being late |
| Gelf.RebuiltExactly | services/network/graylog.go:215-304 | for any stream around it, any interleaving, repetition and times, a message comes out exactly when its last missing chunk arrives within 5 seconds of the first, and is its chunks in order |
| Gelf.FirstCompletion | services/network/graylog.go:215-304 | the first time all chunks of a message have come, none of them late, it comes out |
| Conv.Time2Bytes | utils/conv.go:23-30 | the stored form of a time, in the caller's buffer or a new one |
| Conv.Bytes2Time | utils/conv.go:32-39 | the time read back, or a count that is not positive |
| Conv.TimeRoundTrip | utils/conv.go:23-39 | every 64-bit time is read back whatever follows it |
| Varint.PutUvarint | utils/conv.go:23-30 | fills a buffer with the base-128 form and touches nothing after it |
| Varint.Uvarint | utils/conv.go:32-39 | reads the base-128 form; short and overlong input are told apart |
| Varint.UvarintRoundTrip | utils/conv.go:23-39 | a written 64-bit number is read back whatever follows it |
| Scanner.ChunksDoNotMatter | utils/split.go:221-287 | for a split function that never revises an answer, reading a stream in pieces gives the tokens, the rest and the failure of the whole |
| Scanner.SameStreamSameTokens | utils/split.go:221-287 | two ways of cutting up one stream give the same tokens |
| Scanner.StreamComesOut | utils/split.go:41-247 | frames recognised whatever follows them, as a token or as none, are read back one by one from any pieces |
| PluginFraming.PluginSplit | utils/split.go:221-246 | the digit-checking loop computes the specified cut |
| PluginFraming.PluginStable | utils/split.go:221-246 | a token or failure is never revised when more is read |
| PluginFraming.PluginRoundTrip | utils/split.go:151-246 | a message comes back if and only if its length has at most ten digits, and is refused otherwise |
| PluginFraming.PluginStream | utils/split.go:151-246 | any list of messages in any pieces is read back in order |
| PluginFraming.SignSplit | utils/split.go:69-114 | the two digit-checking loops compute the specified cut |
| PluginFraming.SignStable | utils/split.go:69-114 | never revised |
| PluginFraming.SignRoundTrip | utils/split.go:41-114 | a signed message is handed on unchanged if and only if both lengths have at most ten digits and its signature checks out, and refused otherwise |
| PluginFraming.SignStream | utils/split.go:41-114 | any list of signed messages in any pieces is read back in order |
| PluginFraming.DecryptStable | utils/split.go:193-214 | never revised |
| PluginFraming.EncryptRoundTrip | utils/split.go:151-214 | an encrypted message comes back, unless its length has more than ten digits and its header is cut |
| PluginFraming.EncryptStream | utils/split.go:151-214 | any list of encrypted messages in any pieces is read back in order |
| RelpFraming.NFields | utils/split.go:290-317 | the loop cuts the specified fields and counts the bytes they span |
| RelpFraming.FieldsStay | utils/split.go:290-323 | fields followed by a blank do not change when more is read |
| RelpFraming.RelpStable | utils/split.go:249-287 | never revised |
| RelpFraming.TrimLine | utils/split.go:280-285 | the line feed of a frame never shows in its data |
| RelpFraming.RelpRoundTrip | encoders/encoder.go:159-178 | an encoded frame is recognised after any blanks and before anything, with its number, command and trimmed data, which is unchanged if and only if it has no white space at either end |
| RelpFraming.RelpStream | utils/split.go:249-287 | any list of frames, with and without data, in any pieces is read back in order |
| TcpFraming.TcpStable | services/network/tcp.go:295-334 | neither framing revises an answer |
| TcpFraming.OctetRoundTrip | encoders/encoder.go:139-157 | a counted message comes back trimmed, and unchanged if and only if it has no blank at either end |
| TcpFraming.LineRoundTrip | services/network/tcp.go:295-314 | a line that starts with a priority comes back without the blanks at its end |
| TcpFraming.TcpStream | services/network/tcp.go:295-334 | lines and counted messages mixed in one stream are read back in order from any pieces, blank ones yielding nothing |
| LineFraming.LineStable | services/network/tcp.go:273-293 | never revised |
| LineFraming.LineStream | services/network/tcp.go:273-293 | what is read of any messages in any pieces: the trimmed messages, those from the first blank one on only when the delimiter is a blank |
| LineFraming.AllReadWhen | services/network/tcp.go:273-293 | the scan of a stream in any pieces yields every message that is not blank if and only if the delimiter is a blank or only blank messages follow the first blank one |
| Listings.TotalTake | model/types.pb.go:769-800 | a sum over a map does not depend on the order of iteration |
| Wire.SignRoundTrip | model/types.pb.go:598-632 | signed numbers survive the 64-bit form, negative ones taking ten bytes |
| Wire.DecodeVarint | model/types.pb.go:992-1007 | the reading loop fails on an eleventh byte or at the end of the data and else gives the low 64 bits |
| Wire.Sov | model/types.pb.go:886-895 | the counting loop gives the length of the written form |
| Wire.UnmarshalLoop | model/types.pb.go:987-1154 | the loop applies fields until the data is used up |
| Wire.ItemsRoundTrip | model/types.pb.go:987-1993 | written fields lead the reader through the messages they stand for, whatever follows |
| Wire.UnknownIsSkipped | model/types.pb.go:1994-2095 | a number or string field of unknown number is skipped |
| Protobuf.EntryRoundTrip | model/types.pb.go:1045-1133 | a map entry is read back though the reader looks beyond its end |
| Protobuf.InnerFrom | model/types.pb.go:987-1154 | a written inner map is added to the map that is there, in whatever order it was written |
| Protobuf.OuterFrom | model/types.pb.go:1155-1327 | the same for the outer map, nil values included |
| ProtobufMessage.SyslogRoundTrip | model/types.pb.go:1328-1695 | a written SyslogMessage is read back field by field for every order of its maps |
| ProtobufMessage.FullRoundTrip | model/types.pb.go:1696-1993 | a written FullMessage is read back, each identifier unchanged if and only if it has sixteen bytes |
| ProtobufBuffer.EncodeVarint | model/types.pb.go:760-768 | appends the base-128 form to what the buffer holds |
| ProtobufBuffer.SizeInner | model/types.pb.go:769-781 | the sum over the map, for every order |
| ProtobufBuffer.MarshalInnerTo | model/types.pb.go:517-540 | fills exactly the bytes Size announces, in whatever order, with a listing of the map |
| ProtobufBuffer.SizeOuter | model/types.pb.go:783-800 | the sum over the outer map, nil values included |
| ProtobufBuffer.MarshalOuterTo | model/types.pb.go:552-586 | fills exactly the announced bytes with a listing of the outer map |
| ProtobufBuffer.SizeSyslog | model/types.pb.go:802-850 | the size of the thirteen fields |
| ProtobufBuffer.MarshalSyslogTo | model/types.pb.go:598-678 | fills exactly the announced bytes, leaving out zeros and empty strings |
| ProtobufBuffer.SizeFull | model/types.pb.go:852-884 | the size of the nine fields |
| ProtobufBuffer.MarshalFullTo | model/types.pb.go:690-758 | fills exactly the announced bytes |
| ProtobufBuffer.Marshal | model/types.pb.go:680-688 | the result has the announced size and reading it gives the message back, identifiers made sixteen bytes long |
| Avro.EncodeInt | model/avro/primitive.go:25-69 | the loop writes the base-128 form |
| Avro.Accumulate | model/avro/primitive.go:102-134 | the reading loop gives the low 64 bits of any input or fails at its end |
| Avro.LongRoundTrip | model/avro/primitive.go:119-134 | every 64-bit number survives zigzag and base 128 |
| Avro.IntRoundTrip | model/avro/primitive.go:102-117 | every 32-bit number survives |
| Avro.StringRoundTrip | model/avro/primitive.go:200-218 | a string is read back if its length fits 31 bits and refused otherwise |
| Avro.EntriesRoundTrip | model/avro/primitive.go:181-195 | a block of entries is read back exactly when all of it fits |
| Avro.MapRoundTrip | model/avro/primitive.go:311-345 | a map written in any order is read back exactly when all of it fits |
| Avro.WriteMapString | model/avro/primitive.go:329-345 | the bytes are those of some listing of the map, every entry once |
| Avro.WriteMapMapString | model/avro/primitive.go:311-327 | the bytes are those of some listing of the outer map, each inner map in an order of its own |
| Avro.ReadBlock | model/avro/primitive.go:181-195 | the inner loop reads as many entries as the block announces |
| Avro.ReadMap | model/avro/primitive.go:136-198 | the block loop ends at an empty block; negative counts are followed by a size |
| AvroMessage.PropertiesRoundTrip | model/avro/primitive.go:136-198 | the nested maps are read back exactly when all of them fits |
| AvroMessage.SyslogRoundTrip | model/avro/primitive.go:220-265 | the record is read back exactly when all its strings fit, and what follows is left alone |
| AvroMessage.FullRoundTrip | model/avro/primitive.go:71-100 | the same for the whole message and every 32-bit port |
| AvroMessage.WriteFullMessage | model/avro/primitive.go:267-295 | whatever follows in the stream, the message with its maps is read back exactly when all its strings fit, and refused otherwise |
| Rfc5424.EscapeSDParam | encoders/rfc5424.go:84-110 | the escaped value |
| Rfc5424.CountSpecials | encoders/rfc5424.go:85-91 | the first pass counts the bytes to escape |
| Rfc5424.FillEscaped | encoders/rfc5424.go:96-109 | the second pass fills a buffer of the counted size to the last byte |
| Rfc5424.UnescapeUndoes | encoders/rfc5424.go:84-110 | undoing the escapes of section 6.3.3 of RFC 5424 gives the value back |
| Rfc5424.EscapeInjective | encoders/rfc5424.go:84-110 | different values are printed differently |
| Unicode.RunesKeeps | vendor/github.com/antlr/antlr4/runtime/Go/antlr/input_stream.go:14-28 | a string turned into characters and back is unchanged if and only if it is UTF-8 |
| Rfc5424Printer.EscapeUtf8 | encoders/rfc5424.go:84-110 | the escaped form of a UTF-8 value is UTF-8: no escape comes between the bytes of a character |
| Rfc5424Printer.RunesPrint | encoders/rfc5424.go:124-184 | of what is printed for a valid message, reading characters changes the text only |
| Rfc5424Printer.ValueIs | grammars/rfc5424/rfc5424_parser.go:3300-3440 | an escaped value is read to its closing quote and no further |
| Rfc5424Printer.ParamIs | grammars/rfc5424/rfc5424_parser.go:2892-2950 | a printed parameter is read back if and only if it has a name, cut to 32 bytes |
| Rfc5424Printer.ElementIs | grammars/rfc5424/rfc5424_parser.go:2649-2703 | a printed element is read back if and only if it and its parameters have names |
| Rfc5424Printer.StructuredIs | grammars/rfc5424/rfc5424_parser.go:2486-2536 | printed structured data is read back if and only if every name is there |
| Rfc5424Printer.PrintedIsRead | grammars/rfc5424/rfc5424_parser.go:307-665 | the grammar, reading characters, accepts what is printed for a valid message if and only if the priority is not negative and every name is there, and finds the printed parts, the text with its stray bytes replaced |
| Rfc5424Listener.Walk | decoders/rfc5424_format.go:26-51 | walking a tree gives the message it stands for, with the time of decoding as the generated time, or fails on a number of more than 63 bits or a time that does not parse |
| Rfc5424Listener.ElementsBuildMap | model/types.go:474-512 | clearing domains and setting properties one by one builds the nested map |
| Rfc5424Listener.DecodePrinted | decoders/rfc5424_format.go:26-51 | a valid message is printed and read back if and only if its priority is not negative and every name is there |
| Rfc5424Listener.MapsComeBack | decoders/rfc5424_format.go:194-223 | for every order of the maps, a message is accepted under exactly that condition; with names of at most 32 bytes every property comes back under its domain and name with its value escaped, and nothing else does |
| Rfc5424Listener.UnchangedWhen | encoders/rfc5424.go:124-184 | the decoder gives back the very message that was printed, for any order of its maps, if and only if it is accepted, its names have at most 32 bytes, its version is 1, its priority adds up, it was reported at a whole second and generated at the time of decoding, it has no raw structured data, no header field is a lone hyphen, the text is UTF-8 and does not start with a space, and no value needs an escape |
| Rfc5424Encoder.EncodeMsg5424 | encoders/rfc5424.go:124-184 | succeeds exactly on valid messages, values that are not UTF-8 being refused; what is written is accepted, decoded to the expected message, and decoded to the message itself, each under its exact condition |
| Rfc5424Encoder.PrintElements | encoders/rfc5424.go:152-171 | the bytes are those of some listing of the domains, each once, without repeated names |
| Rfc5424Encoder.PrintParams | encoders/rfc5424.go:157-165 | the bytes are those of some listing of the properties, each once |

## Left out

- Sockets, TLS, processes, journald, Consul, metrics and configuration loading: input and output.
- `services/plugincontrol.go` and `cmd/serve.go`: the lifecycle of processes.
- Badger's retries after a conflict: a transaction is one step and a retry is none.
- Compression and encryption of stored contents are taken to be lossless; whether a content decodes is an arbitrary predicate.
- The store relies on its callers for fresh uids, and for one verdict per delivery while it is in Sent; the steps require both.
- Ingest during startup: recovery is finished before the first Ingest.
- `zeroMsgFlags`: `RetrieveUntilIdle` ends where the flag is set; that the next Ingest for the destination clears it is not modelled.
- Reference counts and queue lengths have no upper bound here; in the source they have 32 bits.
- Buffer growth and the 64 KiB token limit of `bufio.Scanner`.
- Lengths in RELP and octet-counted frames that are negative or leave 64 bits make slicing panic; the model has a failure there, as for protobuf lengths whose end leaves 63 bits. Allocation of huge buffers is not modelled.
- Data at the end of a stream without its delimiter: the split functions are modelled before the end of the stream.
- `ed25519` and `sbox` are arbitrary functions; the stream theorems require that signatures check out and that opening undoes sealing.
- RELP client response parsing: the return code is an input of `Window`.
- DirectRELP completeness: a filter error leaves a transaction without a verdict; `UnjudgedBlocks` says what follows.
- JavaScript filters: their answers are arbitrary functions.
- The ANTLR runtime: the grammar's rules are functions on the UTF-8 of the characters it reads.
- Parsing and formatting times: arbitrary functions, of which the theorems take for granted that a printed second is read back.
- GELF compression and JSON.
- `PurgeSelect` and `PurgeForget` happen uid by uid; GC and the loop after it are covered by interleaving them.
- RFC 3164, JSON and the other formats.
- StoreRecovery.CrashRecovery: is about a recovery in which no reset fails; `StartExact` says what a failing one costs.
- Gelf.RebuiltExactly: is about a message whose id is used for its own chunks only, as its sender makes them; the rest of the stream is arbitrary.
- Rfc5424Listener.UnchangedWhen: does not tell nil maps of properties from empty ones; the decoder makes empty ones.
