# The MongoosePro driver's host-side stack, modelled and proved in Dafny

The driver talks to a vehicle adapter over a byte stream. Between the transport and the J2534 API
(SAE J2534-1, version 04.04, section 7.2) it has four layers, each with a promise about whole runs rather than
single calls. This project models the layers as they are written in `src/`, proves those promises, and composes
them.

| file | what it models |
|---|---|
| `Bytes.dfy` | octets, little-endian fields, small facts about sequences and sets |
| `Codec.dfy` | framing: the encoder, the batch parser, the streaming decoder (class `Decoder`) |
| `IsoTp.dfy` | ISO-TP reassembly: the rules for one ID, the table of conversations, class `IsoTpReassembler` |
| `Interruptions.dfy` | a segmented message among other frames of its own ID |
| `Can.dfy` | the receiver's critical sections as steps on its state and its history, and what they keep |
| `CanReceiver.dfy` | the receiver as the object its threads share (class `CanReceiver`), the blocking read included |
| `Reading.dfy`, `Pairing.dfy`, `Writing.dfy`, `WriteOutcomes.dfy` | whole reads, which write a confirmation finds, whole WriteMsgs calls and their answers |
| `Receiving.dfy` | what each thing the receiver is told does to what a reader gets, bit by bit |
| `Session.dfy`, `SessionObject.dfy` | the command/response protocol, as steps and as the object (class `Session`) |
| `Noting.dfy` | the writes noted by the session's commands, in every run of that system |
| `SessionSystem.dfy` | the session together with the wire and the adapter, in every interleaving |
| `Wires.dfy` | what goes over the wire in every run of that system |
| `Pipeline.dfy`, `RawPipeline.dfy` | the receive path end to end, for ISO15765 and for raw CAN |
| `Replies.dfy` | what a session command can look like to the device above it |
| `J2534.dfy`, `DeviceObject.dfy` | a device, its channel, filters and periodic messages beside the adapter's tables, as values and as the object (class `Device`) |
| `Effects.dfy` | exactly when each device operation succeeds, and what it then achieves |
| `Periodics.dfy` | what happens to periodic messages when a channel or a device is closed |
| `Handles.dfy` | the registries, the handle counter and the lifecycle locks, in every interleaving of threads |
| `Config.dfy`, `ConfigIoctl.dfy` | the configuration tables and SET_CONFIG |
| `IdSet.dfy` | the open-addressing identifier set of the step interpreter (class `Stats`) |

## How to read it

Code that updates objects step by step is a class; each of its methods is proved equal to a function of the old
state, and the theorems about whole runs are lemmas about those functions. A critical section is one step. A wait
on a condition variable is a point where other threads' steps happen: they are given by a script (a list of
events for each wait), and the theorems hold for every script. Time is a choice: a script says whether a deadline
passed.

Histories are kept beside the state. `Can.Log` remembers what arrived and was accepted, what was handed out, every
write ever noted, which of them still wait and which were confirmed. Of these, only the theorems speak.

What is assumed of the adapter, and nothing else is:

- It answers each request it may have been given at most once, and nothing else it sends carries a response
  opcode (`SessionSystem.dfy`). The answer may come at any time, in chunks cut anywhere, among any data and
  indications.
- A table command changes its tables exactly when the answered status is zero. If no answer comes it may have done
  so or not (`J2534.Reply`).
- A new filter gets a handle not in use in its table.
- Opening and closing a channel leave tables 0, 1 and 2 empty, and leave table 4 alone.

Nothing is assumed of the state in which a device finds its adapter: a channel may be open and any table filled. What
was in table 4 then is counted apart, entry by entry as its handle names it, and the theorems about periodic messages
are about what was not there; `found` in `J2534.Device` remembers it.

## Where the documentation promises more than the code

`docs/USING.md` lines 122-126 and `docs/VALIDATION.md` lines 841-842 say that periodic messages are cleared before a
channel is closed. Disconnect keeps that promise or forces a reopen (`Periodics.DisconnectClears`). Close does not
always: a Disconnect forgets the periodic handles before it asks the adapter to clear the table, and Close clears the
table only if the wire channel is open and a message is held or suspected. So when a Disconnect's clear fails there
are two ways in which a later Close succeeds with a message left in the adapter. Nothing is suspected, and the
adapter refuses the channel close too: the Close skips the clear and closes the channel
(`Periodics.CloseCanLeaveAPeriodic`). Or the adapter accepts the channel close: the Close finds no wire channel and
does nothing at all, even if a message is suspected (`Periodics.CloseAfterShutChannelLeavesAPeriodic`).
`Periodics.CloseClearsIff` says of every successful Close whether the table is empty after it, and
`Periodics.SuccessfulCloseClears` says it of every run: if and only if no earlier Disconnect stranded the table in one
of these ways. Such a Disconnect has itself returned an error (`Periodics.StrandingIsReported`), and a Close with a
channel still connected always keeps the promise.

Pairing a confirmation with its write by sequence number is exact only while sequence numbers in use are distinct:
`Pairing.ReuseMispairs` is a case in which a confirmation 255 commands later is credited to an older write that was
never confirmed. `Pairing.PairsExactly` gives the exact condition, and `Noting.ConfirmationsFindTheirWrites` shows that
it is the condition in every run of the session.

ISO 15765-2:2016, section 9.6, ends a reassembly when a single frame of the same ID arrives. The code deliberately
leaves a partial message in place when the single frame is valid (`src/isotp.cpp` lines 37-41), and the model
follows the code: `Interruptions.InterruptedRoundTrip` has the message completed with single frames of its own ID in
between.

## Model

| member | source | states |
|---|---|---|
| `Codec.EncodeChecked` | `src/codec.cpp:17-24` | a body of 1 to 6144 octets is encoded so that the parser returns exactly that body and nothing else; any other is refused |
| `Codec.CheckEitherWay` | `analysis/probes/mongoose_wire.py:82` | the probe's header check, which undoes the exclusive or, accepts the same headers as the driver's, which redoes it |
| `Codec.FrameLayout` | `src/codec.cpp:17-24` | the octets of a frame: the length, each bit of the length exclusive-or the key 0x51e6, and the body |
| `Codec.RequestOnTheWire` | `src/codec.cpp:25-39` | a request carries its fields where the session looks for them in a response, and is the frame the probe's `build` makes |
| `Codec.Request` | `src/codec.cpp:25-39` | a request is twelve octets of header and the payload, and always fits a frame |
| `Codec.EncodeDecodes` | `src/codec.cpp:17-24` | the parser takes exactly the body out of an encoded frame and goes on with what follows |
| `Codec.EncodedStreamDecodes` | `src/codec.cpp:40-56` | any list of bodies encoded and strung together decodes to that list, with nothing discarded and nothing left |
| `Codec.CutStreamDecodes` | `src/codec.cpp:40-56` | a stream of encoded bodies cut off at any octet decodes to a prefix of the list, with nothing discarded |
| `Codec.DeframeBatch` | `analysis/probes/mongoose_wire.py:73-90` | the probe's loop over an offset computes the recursive parse: payloads, slides and remainder |
| `Codec.DeframeAppend` | `analysis/probes/mongoose_wire.py:73-90` | parsing a stream in two parts, the second behind the first's remainder, is parsing it at once |
| `Codec.DeframeRest` | `src/codec.cpp:45-53` | what is left buffered is shorter than a whole frame, at most 6147 octets, and parses to nothing more |
| `Codec.StreamDecomposes` | `src/codec.cpp:40-56` | every input is, in order, single discarded octets and encodings of the emitted frames, followed by the buffer |
| `Codec.Decoder.Feed` | `src/codec.cpp:40-56` | the octet-by-octet decoder emits, discards and keeps what the batch parse of buffer and chunk does |
| `Codec.Decoder.TakeFrames` | `src/codec.cpp:45-53` | the inner loop takes every complete frame out of the buffer, discarding octets that begin no header |
| `Codec.StreamingIsBatch` | `src/codec.cpp:40-56` | for every chunking, feeding the chunks is parsing the concatenated stream |
| `Codec.ChunkedStreamDecodes` | `src/codec.cpp:40-56` | encoded bodies, strung together and cut anywhere, come out of the decoder as they went in |
| `IsoTp.DeliveredMessages` | `src/isotp.cpp:26-103` | after any history a report is a single frame's payload, a first frame's ID, or a message of exactly the announced length made of one first frame and all consecutive frames of that ID since, gap-free and in order |
| `IsoTp.AfterValid` | `src/isotp.cpp:67-103` | every frame leaves conversation IDs distinct, at most 32 of them, none holding more than announced |
| `IsoTp.KeptIsAlone` | `src/isotp.cpp:26-52` | as long as an ID's conversation is not evicted, its reports are those of its own frames alone |
| `IsoTp.FewOpenersKeep` | `src/isotp.cpp:78-79` | a conversation is not evicted while fewer than 32 other IDs open one |
| `IsoTp.Isolation` | `src/isotp.cpp:26-103` | with at most 32 IDs opening conversations, each ID is answered as by a fresh reassembler that saw only its frames |
| `IsoTp.FollowersComplete` | `tests/isotp_tests.cpp:307-323` | consecutive frames of seven octets, numbered modulo 16, complete the message they continue and report nothing sooner |
| `IsoTp.SegmentAlone` | `tests/isotp_tests.cpp:307-323` | the frames of a segmented message, padded or not, yield the start of message and then the message, whatever was open |
| `IsoTp.SegmentationRoundTrip` | `src/isotp.cpp:67-103` | the same among any other IDs' frames, into a table in any state, while fewer than 32 other IDs open a conversation |
| `Interruptions.InterruptedRoundTrip` | `src/isotp.cpp:36-51` | the round trip with good single frames and frames of no concern to reassembly of the same ID mixed in: start of message, each single frame's octets in its place, and the whole message |
| `Interruptions.EndsExactly` | `src/isotp.cpp:53-92` | a conversation ends without a message exactly at a bad single frame, a bad first frame, or a consecutive frame without data or out of turn |
| `Interruptions.BrokenStaysBroken` | `src/isotp.cpp:84-93` | after such a frame nothing but single frames is reported of that ID until it starts a new message, whatever else arrives |
| `IsoTp.ReportsNameTheirId` | `src/isotp.cpp:53-103` | every report begins with the ID of the frame that caused it |
| `IsoTp.IsoTpReassembler.Feed` | `src/isotp.cpp:26-52` | the reassembler that erases, replaces and extends in place does what the per-ID rules and the table say |
| `IsoTp.IsoTpReassembler.First` | `src/isotp.cpp:67-83` | a first frame starts an assembly at the end of the table, the oldest going when it is full |
| `IsoTp.IsoTpReassembler.Consecutive` | `src/isotp.cpp:84-103` | a consecutive frame extends, completes or kills its conversation |
| `Can.StepInv` | `src/can.cpp:124-245` | every critical section keeps: bounded queues, only the channel's queue used, arrivals equal deliveries and queue, a loss flag whenever a frame was dropped, pending records in the order noted, counts equal to history |
| `Can.RunInv` | `src/can.cpp:124-245` | so does any sequence of them, by any threads |
| `Can.ConfirmFrame` | `src/can.cpp:183-213` | a confirmation credits the first pending record with its sequence and removes it and all older ones; an unknown sequence changes nothing |
| `Can.ReceiveFrame` | `src/can.cpp:124-166` | no other frame touches writes, confirmations or the loopback setting |
| `Receiving.OfferExactly` | `src/can.cpp:150-165` | entries join the queue in order as far as there is room; the rest is lost, and the loss flag rises exactly then |
| `Receiving.KeptBits` | `src/can.cpp:160-162` | of a raw frame's status word bits 31, 30 and 8 are kept and all others are zero |
| `Receiving.Indications` | `src/can.cpp:128-142` | the loss indications 0x10b and 0x119 raise the overflow flag, 0x106 confirms, no other does anything |
| `Receiving.MalformedFrame` | `src/can.cpp:143-147` | a data frame whose lengths disagree raises the malformed flag and nothing else |
| `Receiving.Unheeded` | `src/can.cpp:126-129` | a stopped receiver, and any receiver given something not from its channel's node, takes no notice |
| `Receiving.ConfirmedIso` | `src/can.cpp:195-204` | a confirmed ISO15765 write shows as its ID, transmitted and done, and with loopback as the whole message after it |
| `Receiving.ConfirmedCan` | `src/can.cpp:205-211` | a confirmed raw frame shows only with loopback, whole, its identifier width in bit 8 of the status |
| `Receiving.FlushForgets` | `src/can.cpp:218-222` | CLEAR_RX_BUFFER leaves nothing to read, no half message and no loss report, and does not touch writes |
| `Receiving.StopEnds` | `src/can.cpp:241-245` | stopping empties the queues and the pending writes, and the first reason stays |
| `Receiving.NoteKeepsNewest` | `src/can.cpp:167-174` | a noted write is the newest record; of 256 the oldest gives way |
| `Receiving.ForgetTakesNewest` | `src/can.cpp:214-226` | taking back removes the newest record, CLEAR_TX_BUFFER all of them, and neither touches the receive queue |
| `Pairing.CallAccounts` | `src/can.cpp:188-194` | in every reachable state a call's confirmed and still pending writes together are at most those it noted |
| `Pairing.CallsShareTransmitted` | `src/can.cpp:134-140` | the confirmed counts of any set of calls sum to at most the receiver's total |
| `Pairing.PairsExactly` | `src/can.cpp:183-193` | among writes noted in the order of their allocated numbers, a confirmation is credited to the write that carried its sequence if and only if no other waiting write comes first with the same sequence |
| `Pairing.PairsWhenRecent` | `src/session.cpp:51-60` | among such writes, so it is whenever the waiting writes span fewer than 255 allocated commands |
| `Noting.NextInv` | `src/session.cpp:66-69` | in every step of session, wire, adapter and other threads, each noted write carries the number of the command whose callback noted it, and later writes carry later numbers |
| `Noting.ConfirmationsFindTheirWrites` | `src/j2534.cpp:311-329` | so in every run a confirmation is credited to its own write if and only if no other waiting write with that number comes first, and always while fewer than 255 commands have been allocated since the oldest waiting write |
| `Pairing.ReuseMispairs` | `src/session.cpp:51-54` | the case that shows the condition is needed |
| `Pairing.RunDropsOldest` | `src/can.cpp:183-193` | the reader's steps only ever remove the oldest pending records |
| `Pairing.ForgetTakesBackItsOwn` | `src/j2534.cpp:314-329` | taking back a refused write removes that write's record, or nothing, whatever the reader did meanwhile |
| `Reading.ReadIsRun` | `src/can.cpp:246-283` | a blocking read with any steps in its waits is one run of critical sections, so everything they keep holds after it |
| `Reading.ReadFifo` | `src/can.cpp:246-283` | what was handed out, this read's frames and the queue are the accepted arrivals in order; a drop at capacity makes a completing read report overflow; status as in the code's order of checks |
| `Reading.ReadAmongOthers` | `src/can.cpp:246-283` | with other readers, flushes and stops about, no completing read leaves a loss unreported, and every message fits the 4128-octet data field |
| `Receiving.ReadTakesAll` | `src/can.cpp:251-276` | a read takes the queue's front up to what is asked for, and ends with less only when the queue is empty |
| `Receiving.ReadAnswers` | `src/can.cpp:277-282` | overflow first, then malformed, then empty when it has nothing, timeout when it was to wait and has less than asked for, otherwise success |
| `Receiving.LossReported` | `src/can.cpp:274-277` | a flagged loss is what the next read reports, with what it could take |
| `Receiving.StopReported` | `src/can.cpp:252` | a stopped channel's reason is every read's answer |
| `Writing.WritesAreExact` | `src/j2534.cpp:291-347` | for every batch, interleaving and outcome the count is at most the batch; a timed success means every message of the batch noted in order and individually confirmed |
| `WriteOutcomes.TimedAnswers` | `src/j2534.cpp:332-340` | with all messages accepted a timed call answers stopped if the receiver was stopped, success if and only if every one of its writes is confirmed, timeout if one is not |
| `WriteOutcomes.UntimedAnswers` | `src/j2534.cpp:330-332` | with all messages accepted an untimed call succeeds and counts them all |
| `WriteOutcomes.FirstFailureAnswers` | `src/j2534.cpp:307-331` | otherwise the first message not accepted decides the answer, and an untimed call has counted those before it |
| `Writing.SendNotes` | `src/j2534.cpp:306-331` | the messages a call notes are a prefix of its batch, at least those it counted as sent |
| `Writing.ConfirmedStay` | `src/can.cpp:231-240` | a call's confirmations are never taken back |
| `Writing.WriteMsgs` | `src/j2534.cpp:291-347` | the send loop, the refusal path and the wait compute the specified world, count and status |
| `CanReceivers.CanReceiver.Receive` | `src/can.cpp:124-166` | the reader thread's entry, on the object, is the receive step |
| `CanReceivers.CanReceiver.DeliverConfirmed` | `src/can.cpp:188-213` | the object's pairing loop and echoes are the confirmation step |
| `CanReceivers.CanReceiver.NoteTransmit` | `src/can.cpp:167-174` | noting a write is the note step, the oldest of 256 going first |
| `CanReceivers.CanReceiver.Read` | `src/can.cpp:246-283` | the read that fills the caller's array in nested loops hands out what the specified read does, presented message by message, and touches nothing past the count |
| `Session.FailuresAreCertainOrFinal` | `src/session.cpp:38-113` | after a failed command either nothing was written or the session refuses all further commands; an answered one was written and leaves it usable |
| `Session.BeginWrites` | `src/session.cpp:59-64` | what a command is about to write is one frame with its destination, opcode, channel word and payload under the very number it will wait for |
| `Session.CommandWrites` | `src/session.cpp:61-94` | whatever a command hands to the transport carries its call under one number |
| `Session.LossStops` | `src/session.cpp:20-25` | a transport failure, a failed write and a close end the session and stop its channel's receiver; a channel connected to a lost session is stopped at once |
| `Session.ResponsesListed` | `src/session.cpp:4-10` | the list of response kinds, and that every command the driver sends has its own among them |
| `Session.StepKeeps` | `src/session.cpp:20-37` | nothing another thread does revives a session, moves a sequence number or replaces a response already taken |
| `Session.RunKeeps` | `src/session.cpp:20-37` | nor any number of such steps |
| `Session.ResponsesAreNotData` | `src/session.cpp:4-10` | no frame is both a command's response and something the receiver acts on |
| `Session.ConcludeValid` | `src/session.cpp:94-113` | a wait ends with a body exactly when the session is still usable, and then the sequence is free again |
| `Session.PoisonValid` | `src/session.cpp:84-93` | a failed write leaves the session unusable and otherwise sound |
| `SessionObject.Session.Command` | `src/session.cpp:38-113` | the command, critical section by critical section on the object, is the specified command |
| `SessionObject.Session.Receive` | `src/session.cpp:26-37` | the reader's entry decodes, tells the receiver and takes at most one response |
| `SessionObject.Session.BeginCommand` | `src/session.cpp:46-65` | the allocation loop stops at the number the specified probe stops at |
| `SessionObject.Session.SetCanReceiver` | `src/session.cpp:122-128` | the old receiver is stopped, and the new one too on a session that is closing or failed |
| `SessionSystem.NextInv` | `src/session.cpp:20-140` | every enabled step of command, reader, failure, close, adapter and wire keeps the protocol's invariant |
| `SessionSystem.NoMixUp` | `src/session.cpp:26-113` | in every run, each body a command returned is the adapter's answer to that very request, and no answer serves two |
| `SessionSystem.NeverExhausted` | `src/session.cpp:49-64` | in every run at most one sequence is held, an idle usable session holds none, and the next command takes the next number in rotation at its first probe |
| `SessionSystem.ExchangeCompletes` | `src/session.cpp:26-113` | on any idle usable session with a quiet wire, a command whose answer echoes the number and the ends of the frame it wrote returns that answer and leaves the session idle and usable |
| `Wires.NextWire` | `src/session.cpp:26-113` | every step keeps what is written and what is waited for in agreement |
| `Wires.RequestsOnTheWire` | `src/session.cpp:61-112` | in every run each written frame is one whole request, the one asked for, and each returned body echoes the frame its own command wrote |
| `SessionSystem.RotationDistinct` | `src/session.cpp:51-52` | any 255 allocations in a row are of different numbers between 1 and 255 |
| `Pipeline.ReceiverSeesFrames` | `src/session.cpp:26-37` | however the octets are cut, the receiver sees exactly the frames of the stream, in order |
| `Pipeline.InboundsReceived` | `src/can.cpp:143-155` | with room, ISO15765 frames queue exactly what reassembly reports, each under its frame's timestamp |
| `Pipeline.NamedIsOwn` | `src/isotp.cpp:26-103` | of everything queued, what names an ID is what its own frames yield |
| `Pipeline.StampedSegment` | `tests/isotp_tests.cpp:307-323` | a segmented message is queued as its start under the first frame's timestamp and the message under the last frame's |
| `Pipeline.ReceivePipeline` | `src/session.cpp:26-37` | encoded, concatenated, cut anywhere, fed, queued and read: a segmented message mixed with other frames comes out as its start of message and then the original message |
| `RawPipeline.RawsReceived` | `src/can.cpp:157-165` | with room, raw frames queue in order, each with its own data, timestamp and kept status bits |
| `RawPipeline.PresentedCan` | `src/can.cpp:265-272` | the fields a caller sees of a queued raw frame |
| `RawPipeline.PresentedIso` | `src/can.cpp:253-264` | the fields a caller sees of a queued message; indications report no extra data |
| `RawPipeline.RawReceivePipeline` | `src/session.cpp:26-37` | raw frames encoded, concatenated, cut anywhere, fed and read come out exactly, in order, field by field |
| `Replies.CommandGivesReply` | `src/j2534.cpp:101-112` | every session command comes to an answer, a certain non-delivery or a lost outcome, and the channel is made uncertain exactly when a failure left the session unusable |
| `J2534.CommandOutcome` | `src/j2534.cpp:101-128` | a channel command is carried out and accepted, or changes nothing, or leaves a reopen required |
| `J2534.ConnectKeeps` | `src/j2534.cpp:216-264` | Connect, with any outcome of its two commands and of the close that undoes it, keeps host and adapter in step |
| `J2534.DisconnectKeeps` | `src/j2534.cpp:265-279` | so does Disconnect |
| `J2534.CloseKeeps` | `src/j2534.cpp:192-215` | so does Close |
| `J2534.StartFilterKeeps` | `src/j2534.cpp:401-444` | so does starting a filter: rejected, ambiguous, answered too short, or not recordable and removed again |
| `J2534.StopFilterKeeps` | `src/j2534.cpp:445-458` | so does stopping one |
| `J2534.ClearFromKeeps` | `src/j2534.cpp:496-508` | so does CLEAR_MSG_FILTERS, wherever its loop over the tables stops |
| `J2534.StartPeriodicKeeps` | `src/j2534.cpp:352-387` | so does starting a periodic message, whose entry is suspected until recorded |
| `J2534.StopPeriodicKeeps` | `src/j2534.cpp:388-400` | so does stopping one |
| `J2534.DoKeeps` | `src/j2534.cpp:192-559` | every API operation keeps the invariant, whatever is answered |
| `J2534.RunKeeps` | `src/j2534.cpp:192-559` | so does every sequence of them |
| `J2534.FiltersAgree` | `src/j2534.cpp:97-112` | from an adapter found in any state, in every reachable state with an open channel, a reopen is required or the tracked filters are exactly the adapter's tables 0, 1 and 2, one public ID to an entry; and every periodic entry is held, suspected or was found there |
| `Effects.ConnectSucceeds` | `src/j2534.cpp:216-264` | exactly when Connect succeeds, and that then the returned number is the device's channel and nothing but the channel has changed |
| `Effects.DisconnectSucceeds` | `src/j2534.cpp:265-279` | exactly when Disconnect succeeds, and the state it leaves on both sides |
| `Effects.CloseSucceeds` | `src/j2534.cpp:192-215` | exactly when Close succeeds, and what it leaves |
| `Effects.StartFilterSucceeds` | `src/j2534.cpp:401-444` | exactly when a filter starts; then one new ID stands for one new entry in the table of its kind |
| `Effects.StopFilterSucceeds` | `src/j2534.cpp:445-458` | exactly when a filter stops; then exactly that ID and its entry are gone |
| `Effects.ClearFiltersSucceeds` | `src/j2534.cpp:496-508` | exactly when CLEAR_MSG_FILTERS succeeds; then no filter is left in any table on either side |
| `Effects.StartPeriodicSucceeds` | `src/j2534.cpp:352-387` | exactly when a periodic message starts; then one new ID stands for the granted handle |
| `Effects.StopPeriodicSucceeds` | `src/j2534.cpp:388-400` | exactly when one stops; then exactly that ID and its entry are gone |
| `Effects.ClearPeriodicsSucceeds` | `src/j2534.cpp:509-512` | exactly when CLEAR_PERIODIC_MSGS succeeds; then nothing is held or suspected, and the adapter's table is empty if anything was |
| `Effects.RefusedUnchanged` | `src/j2534.cpp:49-62` | under a number that is not the device's channel, and on an uncertain channel, an operation changes nothing and says so |
| `Effects.UnknownUnchanged` | `src/j2534.cpp:388-394` | stopping what was not started changes nothing and says so |
| `Effects.SecondConnectRefused` | `src/j2534.cpp:223-225` | connecting a connected device changes nothing and says so |
| `Periodics.DisconnectClears` | `src/j2534.cpp:265-279` | a Disconnect succeeds with the channel closed, no filters and no periodic entry that was not found there, none at all if any was held or suspected; or it forces a reopen; it cannot succeed over a failed clear |
| `Periodics.CloseClearsIff` | `src/j2534.cpp:192-215` | every successful Close leaves table 4 empty if and only if the wire channel was open with a message held or suspected, or the table was empty; with a channel connected it leaves nothing that was not found there |
| `Periodics.SuccessfulCloseClears` | `src/j2534.cpp:201-210` | over every run from an adapter in any state, every successful Close leaves nothing in table 4 but what was found there if and only if no earlier Disconnect stranded it |
| `Periodics.DisconnectCovers` | `src/j2534.cpp:265-279` | a Disconnect strands table 4 exactly when there is something new in it, the clear fails without effect, and nothing is suspected or the channel close is accepted |
| `Periodics.CoveredIffNeverStranded` | `src/j2534.cpp:83-96` | over every run on an open device, a Close that succeeds would leave nothing new in table 4 exactly when no Disconnect stranded it |
| `Periodics.StrandingIsReported` | `src/j2534.cpp:275-277` | a Disconnect that strands the table returns an error and forces a reopen |
| `Periodics.CloseCanLeaveAPeriodic` | `src/j2534.cpp:192-215` | a run in which a successful Close closes the wire channel over a periodic message left in the adapter |
| `Periodics.CloseAfterShutChannelLeavesAPeriodic` | `src/j2534.cpp:201-210` | a run in which a successful Close finds no wire channel and leaves a suspected periodic message in the adapter |
| `DeviceObject.Device.Connect` | `src/j2534.cpp:216-264` | Connect on the object, stage by stage, is the specified Connect |
| `DeviceObject.Device.Disconnect` | `src/j2534.cpp:265-279` | so is Disconnect |
| `DeviceObject.Device.Close` | `src/j2534.cpp:192-215` | so is Close |
| `DeviceObject.Device.StartFilter` | `src/j2534.cpp:401-444` | so is starting a filter |
| `DeviceObject.Device.ClearFilters` | `src/j2534.cpp:496-508` | so is the loop over the tables of CLEAR_MSG_FILTERS |
| `DeviceObject.Device.StartPeriodic` | `src/j2534.cpp:352-387` | so is starting a periodic message |
| `DeviceObject.Device.ClearPeriodicTable` | `src/j2534.cpp:130-134` | an accepted clear forgets the tracked messages and the suspicion |
| `DeviceObject.Device.AllocateHandle` | `src/j2534.cpp:32-36` | the counter gives the next number, or fails past 2^32 - 1 |
| `Handles.NextInv` | `src/j2534.cpp:29-96` | every step of any thread on the registries and lifecycle locks keeps their invariant |
| `Handles.ActsOnItsOwnChannel` | `src/j2534.cpp:49-76` | whatever happens between lookup and lock, a thread that acts on a channel holds the lock of the device that number was issued for, whose only channel still has that number |
| `Handles.OpenedWorks` | `src/j2534.cpp:183-185` | a device is found and locked under the number Open gave it |
| `Handles.PublishedWorks` | `src/j2534.cpp:248-253` | and a channel under the number Connect published |
| `Handles.RolesStay` | `src/j2534.cpp:29-36` | numbers are drawn in increasing order and what one names never changes |
| `Handles.SpentForGood` | `src/j2534.cpp:63-76` | a channel number that is gone is refused for ever, to later lookups and to threads that had found it before |
| `Handles.OneRoleEach` | `src/j2534.cpp:31-36` | no number names two things |
| `Config.RouteIsTheEntry` | `src/config.cpp:49-61` | no table lists a parameter twice: a parameter has a route exactly when the channel's table has that entry |
| `Config.OnlyPadIsShared` | `src/config.cpp:35-36` | two different adapter-side parameters share a selector only if they are the two names of the padding octet |
| `Config.SettableExactly` | `src/config.cpp:65-74` | for every parameter and value whether it may be set, against a table of plain ranges; any other value of a settable parameter is an invalid value |
| `Config.RatesAgree` | `src/config.cpp:62-70` | the rates SET_CONFIG takes are those Connect takes |
| `Config.OnlyLoopbackIsHosts` | `src/config.cpp:15-44` | LOOPBACK is the only parameter kept on the host |
| `Config.SelectorIsRates` | `src/config.cpp:15-44` | no other parameter shares the bit rate's selector |
| `ConfigIoctl.SetConfigChecksFirst` | `src/j2534.cpp:536-558` | a list with one bad entry sends nothing and changes nothing and gets the first bad entry's error; otherwise the writes go out in list order and only the adapter can stop them |
| `ConfigIoctl.ApplyGoesThrough` | `src/j2534.cpp:538-558` | after the check no routing lookup fails, and what was written and the loopback value are those of the items dealt with |
| `ConfigIoctl.RatesWritten` | `src/j2534.cpp:553-556` | every bit rate handed to the adapter is a supported one |
| `ConfigIoctl.Set` | `src/j2534.cpp:524-559` | the two loops on the device and the receiver do what is specified |
| `IdSet.TableCounts` | `tools/script_runner.c:193-203` | the count equals the number of distinct identifiers noted, up to 2048, and at least half of the slots stay free |
| `IdSet.ProbeMeetsFree` | `tools/script_runner.c:196-199` | a probe begun anywhere meets a free slot before it comes round |
| `IdSet.Stats.Probe` | `tools/script_runner.c:195-199` | the loop terminates at the identifier, or at the first free slot after a run of used slots that do not hold it |
| `IdSet.NotStored` | `tools/script_runner.c:195-199` | a probe that meets a free slot shows the identifier is not stored |
| `IdSet.Stores` | `tools/script_runner.c:200-202` | storing at that slot keeps every identifier reachable from its home by an unbroken run |
| `IdSet.Stats.NoteId` | `tools/script_runner.c:193-203` | noting an identifier terminates and leaves the count exact up to the cap |
| `IdSet.Stats.NoteMessage` | `tools/script_runner.c:204-209` | only messages of four octets or more name an identifier, big-endian |
| `IdSet.IdentifierIsTheFirstFour` | `tools/script_runner.c:207-209` | two messages count as one identifier exactly when their first four octets agree |
| `IdSet.Stats.NoteAll` | `tools/script_runner.c:204-209` | after any batch the count is that of the distinct identifiers in all messages so far, up to the cap |

## Left out

- Transports, descriptors, device selection and libusb: a transport is "a write succeeds or fails, and the reader may report failure".
- Clocks, scheduling fairness and liveness: deadlines are choices, and no progress is claimed.
- The timeout argument check of `Session::command` (`src/session.cpp` lines 41-42) and the budgets that WriteMsgs computes: they always pass the check.
- Error texts, `PassThruGetLastError` and the mapping of exceptions to codes beyond the codes themselves.
- Null-pointer checks of the C entry points, the 1..10000 limits on message counts, and the refusal of an ISO15765 write without a flow-control filter.
- ConfigIoctl.Set: the receiver is a parameter that exists; the code's check for a missing one cannot fire on an open channel, which always has its receiver.
- The layout of PASSTHRU_MSG in memory: a caller's array is an array of messages whose data has its own length.
- The field-by-field payload encoders for filters, transmits and periodic messages: the model takes whether they accept their arguments and with which error.
- `get_value`, GET_CONFIG, voltage reading, ReadVersion and the programming-voltage call: single commands without state.
- `PassThruOpen`'s three opening commands: the device model begins with the device they leave.
- `hex`, `unhex` and the range errors of `le16` and `put16`: every caller modelled here has checked the length.
- The shared per-call counter of a write is a map from a call's number to its count; the sharing of its lifetime is not modelled.
- Handles.*: threads and registries are values, since their theorems are about interleavings and not about one object; the counter itself is a field of `DeviceObject.Device`.
- The conversation table of ISO-TP on extended or 29-bit addressing, which the code does not implement.
- `note_status` and the timestamp gaps of `note_message`: counters without a property of their own.
- SessionObject.Session.Command: the receiver is not replaced while a command is under way, because that needs the lifecycle lock the commanding thread holds; the value model `SessionSystem` allows it.
- Nothing was executed; firmware behaviour is modelled only by the assumptions listed above.
