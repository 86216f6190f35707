# Verified model of the manufacturing message path and the SD-card test

This project models how the flight computer's manufacturing firmware and its board tester talk to
each other, and how the firmware exercises an SD card, and proves properties of both. `dafny verify
dfyconfig.toml` checks everything.

**The message path.** A USB interrupt fills a ring of 512 slots; the main loop pops bytes, frames
LF-terminated lines and queues two of them. The session answers each request with one response,
runs at most one component test and queues responses into two transmit slots, one of which the
hardware may be reading. On the computer a second framer, the read and write loops of the
connection and the RUN/STOP exchange do the same from the other side.

- `Framing.dfy`, `NewlineFramers.dfy`: both framers, against one declarative LF split.
- `ReceivePath.dfy`, `TransmitPath.dfy`: the two halves of the transport as step systems over every
  interleaving of interrupts and main loop.
- `UsbCdcTransport.dfy`: the ring, queues and flags as classes over arrays, each method proved
  against its step.
- `Decimal.dfy`, `RequestDocuments.dfy`, `RequestShapes.dfy`, `RequestParser.dfy`,
  `RequestText.dfy`: the strict request parser over a token array, what it accepts, and the host's
  encoders through their compact text.
- `Session.dfy`: session protocol and component runner, with the lifecycle grammar of every run.
- `Conversation.dfy`, `ServiceTurns.dfy`: what the session says, by what it has said before and what
  the components return; what one service turn takes, says and queues.
- `Device.dfy`, `DeviceProgress.dfy`: ring, framer, line queue, session and transmit slots composed,
  and that iterations of the main loop answer every complete line.
- `HostConnection.dfy`, `TwoParty.dfy`: the computer's side and the two-party protocol.
- `ComponentBench.dfy`, `RgbLed.dfy`: that protocol with the six registered components and their
  handlers.
- `SampleTiming.dfy`, `Ticks.dfy`: the sensor machines and the wrapping 32-bit tick against
  unbounded true time.

**The SD-card test.** `SdCardMedia.dfy` is the ten-state machine over a card that decodes addresses
by an arbitrary function, `SdCardVerdict.dfy` its verdict call by call, `SdCardDebounce.dfy` its
card-detect timing, `Crc32.dfy` and
`SdCardCsd.dfy` its arithmetic. `SdCardBus.dfy` is the SPI bus with a card that answers arbitrarily,
except that an accepted block is stored where the card decodes its address and a data payload is
the addressed cell; `SdCardDriver.dfy` and `SdCardTest.dfy` are the driver and the test on top of
it, every call of which is one step of the machine.

How the pieces fit: functions and step systems say what an operation does, classes and loops that
mirror the source's own mutable state are proved equal to them, and the theorems are about all runs
of the step systems. A method that changes state is specified by such a function of its old state,
so what is proved of the function holds of the method. The theorems go both ways: what a step may
do, and that it does it (a free slot is used, a good card passes, a driver call fails only for a
cause, an exchange can always be finished).

Two statements of the repository hold only conditionally; the code is followed.

- `DEVELOPMENT.md` line 208 says a damaged line is discarded until the next LF so that partial data
  cannot be mistaken for a command. The overflow flag travels with the oldest resident byte rather
  than with the gap, so this fails when an LF is in the ring as the gap opens.
  `ReceivePath.HarmlessIffNoLfResident` is the exact condition, `ReceivePath.NoLineSpansAGap` what
  holds for every gap that meets it, `ReceivePath.SplicedLineIsDelivered` a run that breaks the
  statement.
- A stop request is acknowledged in time only if the component has gone quiet.
  `TwoParty.StopReadsAcknowledgementIff` is the exact condition over all schedules, and by component
  type `ComponentBench.AlwaysReturnsIff`: every type but imu and barometer, for which
  `ComponentBench.ChattyRunRaises` has failing runs.

## Model

| member | source | states |
|---|---|---|
| `Framing.RunIsSplit` | firmware/manufacturing_test/protocol/newline_framer.c:17-55 | For every LF-free segmentation of any byte stream with gaps: the delivered lines are exactly the gap-free segments of at most 4096 bytes, one trailing CR stripped, in order; the unfinished rest is held whole or being discarded |
| `Framing.SplitExists` | firmware/manufacturing_test/protocol/newline_framer.c:17-55 | Every stream has such a segmentation, so the split covers all inputs |
| `FirmwareFramer.NewlineFramer.Consume` | firmware/manufacturing_test/protocol/newline_framer.c:17-55 | The array-based loop ends in the state of the framing run over the data and hands out exactly the new lines |
| `FirmwareFramer.NewlineFramer.DiscardCurrentLine` | firmware/manufacturing_test/protocol/newline_framer.c:10-15 | Drops the partial line, counts the overflow in 32 bits, discards until the next LF |
| `ComputerFramer.FeedIsSplit` | board_tester/fc_test/protocol/framing.py:30-56 | For every stream and limit: one event per LF-terminated segment in order, the stripped line or a too-long error |
| `ComputerFramer.FeedAppend` | board_tester/fc_test/protocol/framing.py:30-56 | Chunking is irrelevant: feeding two chunks is feeding their concatenation |
| `ComputerFramer.SameAsFirmware` | board_tester/fc_test/protocol/framing.py:30-56 | On every stream both framers give the same lines and open line, and the firmware overflow counter is the number of reported errors plus one while discarding, modulo 2^32 |
| `ComputerFramer.DecodeEncoded` | board_tester/fc_test/protocol/framing.py:69-76 | Any payloads accepted by encode_line, sent back to back, come out as exactly those payloads in order with no error and nothing left over |
| `ComputerFramer.EncodableIff` | board_tester/fc_test/protocol/framing.py:69-76 | Exactly the payloads within the limit and without byte 10 or 13 can be encoded, and the encoding adds one LF |
| `ComputerFramer.NewlineFramer.FeedData` | board_tester/fc_test/protocol/framing.py:30-56 | The in-place loop equals the framer function for every chunk |
| `ComputerFramer.NewlineFramer.PopLine` | board_tester/fc_test/protocol/framing.py:58-66 | Takes the oldest event, line or error, and nothing when there is none |
| `ComputerFramer.NewlineFramer.Create` | board_tester/fc_test/protocol/framing.py:22-28 | Fails exactly for limits below one |
| `ReceivePath.OverflowMeansFull` | firmware/manufacturing_test/protocol/usb_cdc_transport.c:353-377 | In every interleaving of arrivals and pops a pending overflow flag means the ring holds exactly 511 bytes |
| `ReceivePath.EveryArrivalIsCounted` | firmware/manufacturing_test/protocol/usb_cdc_transport.c:353-369 | Over every interleaving: each byte that arrives is stored or leaves one gap, and the 32-bit drop counter is the number of gaps |
| `ReceivePath.EmptyPopChangesNothing` | firmware/manufacturing_test/protocol/usb_cdc_transport.c:173-194 | So the discard after the pop loop never fires: a pop that finds the ring empty changes nothing |
| `ReceivePath.CleanRunIsIdeal` | firmware/manufacturing_test/protocol/usb_cdc_transport.c:152-194 | In every run whose gaps open while no LF is resident, the lines equal those of a receiver that frames on arrival and discards at the gap |
| `ReceivePath.NoLineSpansAGap` | firmware/manufacturing_test/protocol/usb_cdc_transport.c:152-194 | Per gap, whatever gaps the run has before or after: if no LF is in the full ring as a byte is lost, every line delivered from then on is, less a trailing CR, a whole LF-to-LF stretch of the bytes stored since that gap |
| `ReceivePath.CleanRunDeliversSegments` | firmware/manufacturing_test/protocol/usb_cdc_transport.c:152-194 | In runs whose gaps all open clean the delivered lines are, in order, exactly the gap-free segments of the bus history |
| `ReceivePath.HarmlessIffNoLfResident` | firmware/manufacturing_test/protocol/usb_cdc_transport.c:353-369 | For every continuation of arrivals, pops and further losses the same lines are completed as if the broken line had been discarded at the gap itself, if and only if no LF is in the ring as the gap opens |
| `ReceivePath.SplicedLineIsDelivered` | DEVELOPMENT.md:208 | Counterexample to the unconditional statement: a concrete run delivers a line spliced across a gap and loses a complete one |
| `TransportModel.ProcessReceivedIsARun` | firmware/manufacturing_test/protocol/usb_cdc_transport.c:173-194 | Every execution of the pop loop, with interrupts delivering anything between pops, is one of those runs and leaves the ring empty with no flag pending |
| `UsbCdcTransport.RawReceiveRing.CdcReceive` | firmware/manufacturing_test/protocol/usb_cdc_transport.c:353-377 | The circular-array interrupt handler stores, per byte, in the abstract ring or records a gap; it reports success exactly when the endpoint took a buffer for the next packet, having stored this one either way |
| `UsbCdcTransport.RawReceiveRing.PopReceivedByte` | firmware/manufacturing_test/protocol/usb_cdc_transport.c:152-171 | Takes the oldest byte if any, and always the flag |
| `UsbCdcTransport.InboundPath.ProcessReceivedBytes` | firmware/manufacturing_test/protocol/usb_cdc_transport.c:173-194 | The loop equals the pop-loop transition for every pattern of arrivals between pops |
| `UsbCdcTransport.ReceivedLines.CompletedLine` | firmware/manufacturing_test/protocol/usb_cdc_transport.c:129-150 | A third complete line is dropped and counted, otherwise queued at the end |
| `UsbCdcTransport.ReceivedLines.ReadLine` | firmware/manufacturing_test/protocol/usb_cdc_transport.c:238-265 | Copies and removes the oldest line, NUL-terminated, exactly when the buffer is longer than it; otherwise reports which and leaves queue and buffer untouched |
| `TransmitPath.ExactlyOnce` | firmware/manufacturing_test/protocol/usb_cdc_transport.c:196-229 | Without a USB reconfiguration completed transmissions are a prefix of the accepted lines: each once, in order, none skipped, across busy retries and late completions |
| `TransmitPath.AtLeastOnce` | firmware/manufacturing_test/protocol/usb_cdc_transport.c:196-229 | With reconfigurations: every finished line was sent, order never goes back, and there is at most one repetition per reconfiguration |
| `TransmitPath.ReconfigurationRepeatsALine` | firmware/manufacturing_test/protocol/usb_cdc_transport.c:310-327 | A concrete run in which a reconfiguration makes a line be sent twice |
| `TransmitPath.SlotOnWireIsStable` | firmware/manufacturing_test/protocol/usb_cdc_transport.c:213-229 | No step writes the slot the hardware is reading, and it holds the oldest unfinished line |
| `TransmitPath.HandleKeepsValid` | firmware/manufacturing_test/protocol/usb_cdc_transport.c:196-229 | Every step keeps slots, flags and history consistent |
| `TransmitPath.AcceptedIff` | firmware/manufacturing_test/protocol/usb_cdc_transport.c:267-290 | In every run an offered line is accepted, with its LF, exactly when it has at most 4096 bytes, holds neither byte 10 nor 13 and fewer than two lines are queued |
| `TransmitPath.EveryOfferIsCounted` | firmware/manufacturing_test/protocol/usb_cdc_transport.c:267-290 | Over every run the lines offered are the accepted ones and the dropped ones, the latter counted in 32 bits |
| `TransmitPath.TransferBeginsIff` | firmware/manufacturing_test/protocol/usb_cdc_transport.c:213-229 | A transfer begins only at a start with the device configured and the endpoint accepting, and exactly then if a line is queued and none is being sent; any other start changes nothing |
| `UsbCdcTransport.TransmitLines.QueueLine` | firmware/manufacturing_test/protocol/usb_cdc_transport.c:267-290 | Queued exactly when the line has at most 4096 bytes, none of them 10 or 13, and fewer than two lines are pending; then the line and an LF are accepted, otherwise the drop counter moves |
| `UsbCdcTransport.TransmitLines.CanQueueLine` | firmware/manufacturing_test/protocol/usb_cdc_transport.c:292-295 | True exactly when a slot is free |
| `UsbCdcTransport.TransmitLines.FinishCompletedTransmission` | firmware/manufacturing_test/protocol/usb_cdc_transport.c:196-211 | Consumes the completion flag and frees the tail slot only for an active transfer |
| `UsbCdcTransport.TransmitLines.StartPendingTransmission` | firmware/manufacturing_test/protocol/usb_cdc_transport.c:213-229 | Starts the tail slot only when configured, idle and accepted; a busy endpoint leaves it pending |
| `UsbCdcTransport.TransmitLines.CdcTransmitComplete` | firmware/manufacturing_test/protocol/usb_cdc_transport.c:379-390 | The completion interrupt moves the slot on the wire to the sent history |
| `UsbCdcTransport.TransmitLines.CdcReconfigure` | firmware/manufacturing_test/protocol/usb_cdc_transport.c:310-327 | Entering or leaving the configuration forgets the transfer in progress |
| `UsbCdcTransport.Transport.Process` | firmware/manufacturing_test/protocol/usb_cdc_transport.c:231-236 | One service turn is the pop loop, then finish, then start |
| `SessionModel.EveryRunTellsEpisodes` | firmware/manufacturing_test/application/session_protocol.c:47-103 | Over every run, of the responses the session builds: per accepted RUN with id c and type t, TEST_STARTED(c,t), TEST_EVENT(c,t) any number of times, then one TEST_COMPLETED(c,t) or one TEST_STOPPED(stop id,t), never overlapping, and component start/stop calls strictly alternate on the same definition |
| `SessionModel.IgnoredResultIsTrue` | firmware/manufacturing_test/application/session_protocol.c:74-113 | For every request the parser can return, the ignored result of the runner start is true and the unsupported-message branch is unreachable |
| `Conversation.ActiveIsOpenTest` | firmware/manufacturing_test/application/session_protocol.c:50-56 | In every run the responses alone tell which test is active: the last TEST_STARTED or event not followed by its end |
| `Conversation.RepliesAreRight` | firmware/manufacturing_test/application/session_protocol.c:28-113 | So every answer follows from the request and from what was said before: its id, its kind and its error code |
| `Conversation.ReportsAreOutcomes` | firmware/manufacturing_test/application/session_protocol.c:138-171 | What is said unasked is, in order, what the process functions of the active tests returned: the event, or TEST_COMPLETED with passed for a pass and failed for a failure, and nothing while running |
| `Conversation.StartsAreAcceptedRuns` | firmware/manufacturing_test/application/session_protocol.c:67-79 | Components are started by the accepted RUNs, in order, each with the type and colour of its own |
| `ServiceTurns.DrainTakesTheOldest` | firmware/manufacturing_test/application/session_protocol.c:129-136 | The request loop takes the oldest waiting lines, hears them in order with one response each, and queues every text the transport takes; it stops only with both slots taken, no line waiting, or an oldest line over 4096 bytes |
| `ServiceTurns.TurnServes` | firmware/manufacturing_test/application/session_protocol.c:125-174 | A whole turn: that loop, and then one call of the active test if a slot is still free, its report queued in the same way |
| `SessionProtocol.SessionProtocol.Process` | firmware/manufacturing_test/application/session_protocol.c:125-174 | The request loop and the component step equal the service turn, and end with both response slots taken, no line waiting or one that does not fit the buffer |
| `SessionProtocol.SessionProtocol.ProcessLine` | firmware/manufacturing_test/application/session_protocol.c:19-118 | One line is parsed, answered by the state of the runner, and its response queued |
| `SessionProtocol.SessionProtocol.RunRequest` | firmware/manufacturing_test/application/session_protocol.c:47-84 | test_already_active, unsupported_test_type or TEST_STARTED, and the runner state each leaves |
| `SessionProtocol.SessionProtocol.StopRequest` | firmware/manufacturing_test/application/session_protocol.c:85-103 | no_active_test, or TEST_STOPPED with the active type after the component is stopped |
| `SessionProtocol.SessionProtocol.AdvanceActiveTest` | firmware/manufacturing_test/application/session_protocol.c:138-174 | With a free slot and an active test exactly what its process function returned is said under the id and type read before the call: the event, or the completion with its verdict; a verdict ends the test; otherwise nothing changes |
| `SessionProtocol.ComponentTestRunner.Start` | firmware/manufacturing_test/application/component_test_runner.c:9-23 | Starts if and only if idle, given a definition and a non-zero id, and then calls it with the colour given |
| `SessionProtocol.ComponentTestRunner.Process` | firmware/manufacturing_test/application/component_test_runner.c:25-44 | A terminal result stops the component and clears the runner; events and running do not |
| `SessionProtocol.ComponentTestRunner.Stop` | firmware/manufacturing_test/application/component_test_runner.c:46-57 | Clears the runner and stops the component, once |
| `SessionProtocol.SessionProtocol.QueueResponse` | firmware/manufacturing_test/application/session_protocol.c:14-17 | Queues the formatted response if it fits; the result is ignored |
| `SessionProtocol.FindDefinition` | firmware/manufacturing_test/components/component_registry.c:57-71 | The linear search finds exactly the six registered types |
| `Device.NothingIsDropped` | firmware/manufacturing_test/application/session_protocol.c:125-174 | End to end, for any bytes the computer sends, LF or CRLF, under every interleaving in which what follows the last answered line stays within two lines and 511 bytes: all drop counters stay zero and read_line never reports BUFFER_TOO_SMALL |
| `Device.EveryRequestAnsweredOnce` | firmware/manufacturing_test/application/session_protocol.c:19-118 | The answered requests and then the waiting ones are the complete lines popped, each less one CR; the requests the session heard are the parses of the answered lines in order; each has one reply, the session answer to it in the state of that step; texts are queued in that order and what reached the computer is a prefix |
| `Device.EveryResponseIsRight` | firmware/manufacturing_test/application/session_protocol.c:19-174 | In every run, overflows included: each logged reply is the only right one for the parse of its line after the responses before it; everything else logged is what the active tests returned, and components are started by the accepted RUNs with their colours |
| `Device.LinesFitTheBuffer` | firmware/manufacturing_test/application/session_protocol.c:130-134 | In every run, whatever arrives, no waiting line exceeds 4096 bytes, so read_line never reports BUFFER_TOO_SMALL |
| `Device.QueuedOutputTellsEpisodes` | firmware/manufacturing_test/application/session_protocol.c:134-174 | For the lines actually queued, with the firmware parser: they are the texts, one for one, of responses that tell whole episodes and the one in progress, every event and verdict being what the component returned |
| `DeviceProgress.EveryLineIsAnswered` | firmware/manufacturing_test/application/application.c:11-19 | From any run within the budget, once arrivals stop and transfers complete, three iterations of the main loop itself (pop loop, finish, start, request loop, component step) end with a reply logged for every complete line sent, in order |
| `DeviceProgress.IterationIsARun` | firmware/manufacturing_test/application/application.c:11-19 | Every iteration of the main loop, whatever arrives between its pops, is a sequence of the device steps the run theorems speak of |
| `Device.TakeKeepsInv` | firmware/manufacturing_test/protocol/usb_cdc_transport.c:238-295 | Every step of interrupt, main loop, session and transmitter keeps the conservation invariant |
| `Device.SessionTurnIsARun` | firmware/manufacturing_test/application/session_protocol.c:125-174 | A whole session turn is a number of Answer steps and then one Advance |
| `Device.PopLoopIsARun` | firmware/manufacturing_test/protocol/usb_cdc_transport.c:173-194 | So is every execution of the pop loop, whatever interrupts deliver between the pops |
| `RequestParser.ParseRequest` | firmware/manufacturing_test/protocol/json_protocol.c:180-289 | For every token array: true exactly when the count is odd, the outer token is an object and the document it spells out parses; the request is then the one it says; no token past the count is read |
| `RequestParser.ParseFields` | firmware/manufacturing_test/protocol/json_protocol.c:217-271 | The field loop over any odd number of tokens accepts exactly the documents with good fields and no repeated key, without reading past the array |
| `RequestParser.ParseRgbParameters` | firmware/manufacturing_test/protocol/json_protocol.c:76-123 | Accepts exactly objects with red, green and blue once each in 0..255 and leaves the index after them |
| `RequestParser.ParsePositiveUint32` | firmware/manufacturing_test/protocol/json_protocol.c:23-49 | Accepts exactly non-empty digit strings whose full value is in 1..2^32-1, despite rejecting early |
| `RequestParser.ParseUint8` | firmware/manufacturing_test/protocol/json_protocol.c:51-74 | Accepts exactly non-empty digit strings whose full value is at most 255 |
| `RequestParser.EarlyRejection` | firmware/manufacturing_test/protocol/json_protocol.c:35-43 | Rejecting at the first bad digit or the first excess never rejects an acceptable number |
| `RequestParser.CopyTestUuid` | firmware/manufacturing_test/protocol/json_protocol.c:125-153 | Accepts exactly lower-case version 4 UUIDs and copies them |
| `RequestParser.CopyTestType` | firmware/manufacturing_test/protocol/json_protocol.c:155-178 | Accepts exactly 1..31 characters of a-z, 0-9 and underscore |
| `RequestParser.TokenEquals` | firmware/manufacturing_test/protocol/json_protocol.c:14-21 | True exactly for a string token whose text is the value |
| `RequestParser.NeverUnsupported` | firmware/manufacturing_test/application/session_protocol.c:104-113 | Whatever is accepted is one of the three requests with an id in 1..2^32-1 |
| `RequestShapes.ParsedIffSays` | firmware/manufacturing_test/protocol/json_protocol.c:180-289 | A document parses to a request if and only if it consists of exactly one of the three member lists, every key once, in any order |
| `RequestDocuments.FieldOrderIrrelevant` | firmware/manufacturing_test/protocol/json_protocol.c:217-271 | Any permutation of the outer fields parses to the same result |
| `RequestDocuments.ChannelOrderIrrelevant` | firmware/manufacturing_test/protocol/json_protocol.c:92-115 | Any permutation of the colour channels parses to the same result |
| `RequestEncoding.StartRoundTrip` | board_tester/fc_test/protocol/session_messages.py:48-60 | An encoded START_TEST is accepted if and only if the id is at most 2^32-1 and the UUID is version 4, and then recovered unchanged |
| `RequestEncoding.RunRoundTrip` | board_tester/fc_test/protocol/component_messages.py:36-61 | An encoded RUN is accepted if and only if the id is at most 2^32-1, the type has at most 31 characters and parameters are given exactly for rgb_led; id, type and colour are recovered |
| `RequestEncoding.StopRoundTrip` | board_tester/fc_test/protocol/component_messages.py:64-75 | An encoded STOP is accepted if and only if the id is at most 2^32-1 |
| `RequestEncoding.EncodersTake` | board_tester/fc_test/protocol/component_messages.py:36-75 | The encoders take exactly positive ids, types of a-z, 0-9 and underscore, and parameters that are red, green and blue from 0 to 255 |
| `RequestText.LayoutReadsBack` | board_tester/fc_test/protocol/component_messages.py:36-61 | The tokens of a compact request text spell out the document that was written |
| `HostRequests.RunTextUnderstood` | board_tester/fc_test/protocol/component_messages.py:36-61 | From the text the host writes for a RUN to the request the firmware acts on |
| `HostRequests.StartTextUnderstood` | board_tester/fc_test/protocol/session_messages.py:48-60 | The same for START_TEST |
| `HostRequests.StopTextUnderstood` | board_tester/fc_test/protocol/component_messages.py:64-75 | The same for STOP |
| `Decimal.FormatUint64` | firmware/manufacturing_test/protocol/json_component_events.c:7-21 | For every 64-bit value the buffer holds its decimal digits and a NUL within 21 bytes |
| `Decimal.DigitsReadBack` | firmware/manufacturing_test/protocol/json_component_events.c:7-21 | Reading the digits back gives the value |
| `Decimal.NoLeadingZero` | firmware/manufacturing_test/protocol/json_component_events.c:7-21 | The first digit is zero only for zero |
| `Decimal.TwentyDigits` | firmware/manufacturing_test/protocol/json_component_events.c:7-21 | At most 20 digits for every 64-bit value |
| `HostConnection.UsbCdcConnection.ReadLine` | board_tester/fc_test/protocol/connection.py:195-225 | Hands out the oldest line or framing error, at once when one is pending; loses no byte across chunks, timeouts and failures; times out no earlier than its deadline, fails exactly when a device read does, and does either only when nothing complete is pending |
| `HostConnection.UsbCdcConnection.WriteLine` | board_tester/fc_test/protocol/connection.py:227-263 | On success exactly the payload and an LF were added to the wire; it fails exactly when a device write does or takes nothing, times out only past its deadline or with the device, and on any error a leading part is on the wire, nothing at all for an unencodable payload |
| `HostConnection.ReadsWhatWasSent` | board_tester/fc_test/protocol/connection.py:195-225 | Whatever the chunks, the lines handed out are a prefix of the payloads the firmware queued, without errors, and all of them once everything is read |
| `HostConnection.FirmwareReadsWhatWasWritten` | board_tester/fc_test/protocol/connection.py:227-263 | The firmware framer finds in the wire exactly the payloads written, in order |
| `HostConnection.SameLinesBothWays` | board_tester/fc_test/protocol/connection.py:236-236 | The firmware queues exactly the payloads the computer could encode |
| `TwoParty.NormalReturnLeavesNothing` | board_tester/fc_test/protocol/component_session.py:35-71 | Whenever a host exchange has returned normally, the device is idle and no message is left in either direction |
| `TwoParty.NeverAlreadyActive` | firmware/manufacturing_test/application/session_protocol.c:50-56 | So a RUN is never answered test_already_active unless the host has raised before |
| `TwoParty.StopReadsAcknowledgementIff` | board_tester/fc_test/protocol/component_session.py:74-89 | From a stop request under way, for every sequence of reads, device steps and component reports after which the host is done: it has read its acknowledgement if and only if nothing was unread when it asked and the component reported nothing until the device took the request |
| `TwoParty.StopIsUnderway` | board_tester/fc_test/protocol/component_session.py:77-82 | Every stop sent in any run is under way in that sense, unless the firmware cannot parse it |
| `TwoParty.InvAlways` | board_tester/fc_test/protocol/component_session.py:35-89 | What is in the queues and the device at every place the host can be, over every run |
| `TwoParty.TimeoutRaisesIff` | board_tester/fc_test/protocol/component_session.py:43-47 | A read timeout raises if and only if an acknowledgement is awaited, and otherwise changes nothing |
| `TwoParty.WaitsIndefinitely` | board_tester/fc_test/protocol/component_session.py:55-63 | While a test runs, any number of read timeouts can be inserted into a run without changing how it goes on |
| `ComponentBench.AlwaysReturnsIff` | board_tester/fc_test/tests/registry.py:10-17 | Of the six registered types, runs of a type acknowledged in time always leave the host without an exception if and only if the type is neither imu nor barometer |
| `ComponentBench.RaisesIffLate` | board_tester/fc_test/protocol/component_session.py:35-89 | In runs of the other four types, with any number of read timeouts, the host raises if and only if a read awaiting an acknowledgement times out |
| `ComponentBench.CanAlwaysFinish` | board_tester/fc_test/protocol/component_session.py:35-89 | From every state such a run reaches, device steps, reads and component calls alone can bring the exchange to its normal end |
| `ComponentBench.StopAlwaysAcknowledged` | board_tester/fc_test/tests/rgb_led/handler.py:17-59 | In every run that mixes rgb_led, status LED and sd_card tests with their own handlers, however many reads time out while they run, the host never raises, and what it reads after a stop request is always the matching TEST_STOPPED |
| `ComponentBench.ChattyRunRaises` | board_tester/fc_test/tests/live_operator.py:66-91 | Concrete runs of imu and of barometer, with the live-operator handler and the sensor machine, in which a sample is read in place of the acknowledgement and the exchange fails |
| `ComponentSession.ComponentTestClient.RunComponentTest` | board_tester/fc_test/protocol/component_session.py:24-71 | Raises when its request cannot be written; otherwise the write-then-read loop returns or raises, writes and reads exactly as the two-party model's host |
| `ComponentSession.ComponentTestClient.StopComponentTest` | board_tester/fc_test/protocol/component_session.py:74-89 | The stop exchange, called from a handler, likewise; a request that cannot be written raises |
| `ComponentSession.ComponentTestClient.FollowTest` | board_tester/fc_test/protocol/component_session.py:55-71 | The message loop: timeouts continue, matching events go to the handler, a matching completion returns, anything else raises |
| `ComponentSession.ReturnsOnlyAfterAnExchange` | board_tester/fc_test/protocol/component_session.py:24-89 | Whatever the connection delivers and the handlers decide, a normal return means the messages read were TEST_STARTED, events and empty read slices, and the matching TEST_COMPLETED or TEST_STOPPED, and nothing past it was read |
| `ComponentSession.SlicesPass` | board_tester/fc_test/protocol/component_session.py:55-63 | Read slices that time out while the test runs make no difference, however many |
| `ComponentSession.LateAcknowledgementRaises` | board_tester/fc_test/protocol/component_session.py:43-47 | A timeout in place of an acknowledgement ends the exchange with an exception |
| `RgbLed.RgbLedTest.Process` | firmware/manufacturing_test/components/rgb_led/rgb_led_test.c:161-174 | The LED machine in place equals the LED step of the bench |
| `RgbLed.RgbLedTest.Start` | firmware/manufacturing_test/components/rgb_led/rgb_led_test.c:142-159 | Ready exactly when a colour was given, the hardware initialized and the colour was sent |
| `RgbLed.RgbLedTest.Stop` | firmware/manufacturing_test/components/rgb_led/rgb_led_test.c:181-188 | Blanks the LED exactly when it was driven |
| `RgbLed.OneEventThenQuiet` | firmware/manufacturing_test/components/rgb_led/rgb_led_test.c:161-174 | However often it is called, a started test reports its prompt once, first, and then nothing |
| `SdCardMedia.PassedMeansMediaGood` | firmware/manufacturing_test/components/sd_card/sd_card_test.c:136-213 | For every card decoding: if a run returns PASSED, the eight test addresses decode to eight different cells of the card, those cells are zero, every other cell is unchanged, and the reported checksum is the CRC-32 of the eight patterns |
| `SdCardMedia.PatternsDiffer` | firmware/manufacturing_test/drivers/sd_card/sd_card_driver.c:410-415 | Any two of the eight sectors get different contents, 32-bit wrap included |
| `SdCardMedia.ChecksumMismatchNeverFires` | firmware/manufacturing_test/drivers/sd_card/sd_card_driver.c:514-541 | In no run does the machine itself report a checksum mismatch: once all byte comparisons pass the two block-by-block checksums are equal |
| `SdCardMedia.ProcessKeepsInv` | firmware/manufacturing_test/components/sd_card/sd_card_test.c:106-214 | In every state the medium is the written, verified or cleared part of the start medium and both running checksums are the CRC of the concatenated blocks |
| `SdCardMedia.TerminatesWithin26Calls` | firmware/manufacturing_test/components/sd_card/sd_card_test.c:136-213 | From the initializing call on, 26 calls always reach PASSED or FAILED |
| `SdCardMedia.PatternBytes` | firmware/manufacturing_test/drivers/sd_card/sd_card_driver.c:410-415 | Byte i of the data for a sector is (sector + 37 i) modulo 256 |
| `SdCardVerdict.PassedIff` | firmware/manufacturing_test/components/sd_card/sd_card_test.c:136-213 | From initialization on the 26th call returns PASSED if and only if the card was inserted and took every command in the 25 calls before, and decodes the test area to eight different cells of the medium |
| `SdCardVerdict.GoodCardPasses` | firmware/manufacturing_test/components/sd_card/sd_card_test.c:136-213 | On such a card the 26 calls return exactly sd_card_initialized, sd_card_written, sd_card_verified and sd_card_cleaned_up at their places with the card information and checksum, running in between, and then PASSED |
| `SdCardVerdict.FirstBadCallDecides` | firmware/manufacturing_test/components/sd_card/sd_card_test.c:136-213 | The first call that is not good reports the stage of the removal or the failure met, and every later call returns FAILED |
| `SdCardDebounce.InitializationIsDebounced` | firmware/manufacturing_test/components/sd_card/sd_card_test.c:72-134 | In unbounded true time: the card is touched only after three consecutive inserted polls at least 20 ms apart, preceded by three removed polls if one was seated at start |
| `SdCardDebounce.PolledExactlyWhenDue` | firmware/manufacturing_test/components/sd_card/sd_card_test.c:72-85 | A call polls if and only if 20 ms have passed since the last poll, the first one at once, for calls less than 2^31 ms late |
| `SdCardDebounce.ConfirmedAtTheThirdPoll` | firmware/manufacturing_test/components/sd_card/sd_card_test.c:106-134 | Up to initialization: removal is asked for if a card was seated, then insertion, and each is confirmed by exactly the third matching poll in a row since it was asked for |
| `SdCardTest.SdCardTest.Process` | firmware/manufacturing_test/components/sd_card/sd_card_test.c:106-214 | The test over the driver, whatever the card does, makes exactly one step of that transition system |
| `SdCardTest.SdCardTest.Start` | firmware/manufacturing_test/components/sd_card/sd_card_test.c:92-104 | Starts it in the state the card-detect switch asks for |
| `SdCardTest.SdCardTest.StableCardState` | firmware/manufacturing_test/components/sd_card/sd_card_test.c:72-85 | Polls when due on the wrapped tick and counts matching polls in a row |
| `SdCardTest.SdCardTest.RunToVerdict` | firmware/manufacturing_test/components/sd_card/sd_card_test.c:92-214 | The test started and called until it passes or fails, over the driver and any card: PASSED means the card was debounced and the eight cells of the medium are good, nothing else changed |
| `SdCardDriver.SdCardDriver.Initialize` | firmware/manufacturing_test/drivers/sd_card/sd_card_driver.c:247-407 | At every return chip select is released and the medium untouched; the stage reported says exactly which commands had been answered; failure leaves exactly the first failure and has its cause in what was seen: a bus fault, a failed byte-level helper, a wrong R1 or an unacceptable register, and nothing else; success means the full command sequence, the R7, OCR and CSD registers as required, the test area the CSD implies and the high-speed divider |
| `SdCardDriver.SdCardDriver.WriteTestBlock` | firmware/manufacturing_test/drivers/sd_card/sd_card_driver.c:491-512 | On success the addressed cell holds the pattern, on failure at most that cell changed; the checksum is extended either way and reported after the last block; it fails only on a bus fault, a failed helper, a wrong R1 or a refused block; chip select released, first failure kept |
| `SdCardDriver.SdCardDriver.VerifyTestBlock` | firmware/manufacturing_test/drivers/sd_card/sd_card_driver.c:514-541 | Succeeds exactly when the cell read back equals the pattern and, for the last block, the checksums agree; a read failure with its cause, mismatch and checksum mismatch are told apart |
| `SdCardDriver.SdCardDriver.ClearTestBlock` | firmware/manufacturing_test/drivers/sd_card/sd_card_driver.c:543-553 | On success the addressed cell is zero, on failure at most that cell changed, and there is a cause as for a write |
| `SdCardDriver.SdCardDriver.WriteBlock` | firmware/manufacturing_test/drivers/sd_card/sd_card_driver.c:418-463 | On every path chip select is released and at most the addressed cell changed; on success the card was ready before the data token, accepted the data and is ready again; failure has its cause in what was seen |
| `SdCardDriver.SdCardDriver.ReadBlock` | firmware/manufacturing_test/drivers/sd_card/sd_card_driver.c:466-489 | On success the buffer is the addressed cell; the medium never changes; failure has its cause in what was seen |
| `SdCardDriver.SdCardDriver.WaitInitialized` | firmware/manufacturing_test/drivers/sd_card/sd_card_driver.c:320-356 | The CMD55/ACMD41 loop ends within two timeouts and four tick readings of true time; success means pairs answered idle and then one answered ready; it gives up only on a fault, a wrong R1, or an idle answer after a whole second, and says which command of which pair was reached |
| `SdCardDriver.SdCardDriver.ReadCsd` | firmware/manufacturing_test/drivers/sd_card/sd_card_driver.c:213-245 | Success means the count is the one the 16 bytes read encode and exceeds 16; it fails on a register only if that encodes no count or one of at most 16 |
| `SdCardDriver.SdCardDriver.CheckVoltage` | firmware/manufacturing_test/drivers/sd_card/sd_card_driver.c:294-306 | The R7 payload is accepted exactly with voltage 1 and pattern 0xAA |
| `SdCardDriver.SdCardDriver.CheckCapacity` | firmware/manufacturing_test/drivers/sd_card/sd_card_driver.c:236-245 | A register passes exactly when it encodes more than 16 sectors, and the failure names which test it did not pass |
| `SdCardDriver.SdCardDriver.FinishBlock` | firmware/manufacturing_test/drivers/sd_card/sd_card_driver.c:447-463 | After the data: an accepting data response and a ready card, or a cause |
| `SdCardDriver.CardLink.WaitReady` | firmware/manufacturing_test/drivers/sd_card/sd_card_driver.c:118-133 | Ends within the timeout plus two tick readings of true time; succeeds only on the byte 0xFF, fails only on a bus fault or with the line still low when the timeout has passed, with one report |
| `SdCardDriver.CardLink.Expired` | firmware/manufacturing_test/drivers/sd_card/sd_card_driver.c:130-130 | The test of the timed loops: true if and only if the timeout has passed in true time |
| `SdCardDriver.CardLink.Command` | firmware/manufacturing_test/drivers/sd_card/sd_card_driver.c:140-165 | Success means an R1 response, the last byte received; it fails only on a bus fault or when exactly 16 polls have had bit 7 set |
| `SdCardDriver.CardLink.WaitForDataToken` | firmware/manufacturing_test/drivers/sd_card/sd_card_driver.c:194-210 | Success means the byte 0xFE was the last received and after CMD17 the addressed cell is being streamed; it fails only on a bus fault, on another byte, or on an idle one once 250 ms have passed |
| `SdCardDriver.CardLink.ReadBytes` | firmware/manufacturing_test/drivers/sd_card/sd_card_driver.c:104-112 | A data payload read whole is the streamed cell; every whole payload is recorded |
| `SdCardDriver.CardLink.DeselectCard` | firmware/manufacturing_test/drivers/sd_card/sd_card_driver.c:183-191 | Releases chip select whatever the separator byte does, without touching the failure |
| `SdCardDriver.FailureLog.FailIfUnset` | firmware/manufacturing_test/drivers/sd_card/sd_card_driver.c:57-63 | Never replaces an earlier failure |
| `SdCardBus.SpiBus.SetPrescaler` | firmware/manufacturing_test/board_support/flightcomputer_v1/spi_devices.c:108-121 | Succeeds with the requested divider and the same readiness; fails only on a configured peripheral, keeping the old divider if it could not be released and leaving it unconfigured and unselected otherwise |
| `SdCardDriver.SdCardDriver.GoIdle` | firmware/manufacturing_test/drivers/sd_card/sd_card_driver.c:272-285 | CMD0 succeeds only with R1 idle and fails only for a cause; chip select released, first failure kept under its stage |
| `SdCardDriver.SdCardDriver.InterfaceCondition` | firmware/manufacturing_test/drivers/sd_card/sd_card_driver.c:287-314 | CMD8 tells version 2 cards (R1 1) from version 1 (R1 5), and accepts both: it fails only on a fault, another R1, or an R7 that does not repeat voltage 1 and pattern 0xAA; chip select released |
| `SdCardDriver.SdCardDriver.OperatingCondition` | firmware/manufacturing_test/drivers/sd_card/sd_card_driver.c:322-352 | One CMD55/ACMD41 pair in one selection, with the host-capacity bit for version 2 cards only; it fails only for a cause, and the failing command names its own stage |
| `SdCardDriver.SdCardDriver.ReadOperatingConditions` | firmware/manufacturing_test/drivers/sd_card/sd_card_driver.c:358-373 | CMD58 answered 0; the card becomes sector addressed exactly for version 2 and bit 6 of the first OCR byte read; fails only for a cause |
| `SdCardDriver.SdCardDriver.SetBlockLength` | firmware/manufacturing_test/drivers/sd_card/sd_card_driver.c:376-389 | CMD16 answered 0 with length 512; fails only for a cause |
| `SdCardDriver.SdCardDriver.FillPattern` | firmware/manufacturing_test/drivers/sd_card/sd_card_driver.c:410-415 | The buffer is the deterministic pattern of the sector |
| `SdCardDriver.CardLink.SelectCard` | firmware/manufacturing_test/drivers/sd_card/sd_card_driver.c:174-180 | Success leaves a ready card, heard idle, expecting a command; failure reports once, on a bus fault or a card busy for a second |
| `SdCardDriver.CardLink.TransferByte` | firmware/manufacturing_test/drivers/sd_card/sd_card_driver.c:79-85 | One exchange with the card, or one reported failure, exactly when the bus fails |
| `SdCardDriver.CardLink.ClockBytes` | firmware/manufacturing_test/drivers/sd_card/sd_card_driver.c:91-101 | Idle clocks change nothing on the card; all are given unless the bus fails |
| `SdCardDriver.FailureLog.Fail` | firmware/manufacturing_test/drivers/sd_card/sd_card_driver.c:47-55 | Records the reason under the stage in progress |
| `SdCardTest.SdCardTest.ProcessInitializing` | firmware/manufacturing_test/components/sd_card/sd_card_test.c:136-149 | Initialization from the test: the information or the driver failure it reports |
| `SdCardTest.SdCardTest.ProcessWriting` | firmware/manufacturing_test/components/sd_card/sd_card_test.c:151-168 | One written block, or the failure that ends the test |
| `SdCardTest.SdCardTest.ProcessVerifying` | firmware/manufacturing_test/components/sd_card/sd_card_test.c:170-187 | One verified block, or the failure that ends the test |
| `SdCardTest.SdCardTest.ProcessCleaning` | firmware/manufacturing_test/components/sd_card/sd_card_test.c:189-205 | One cleared block, or the failure that ends the test |
| `Crc32.ChecksumUpdate` | firmware/manufacturing_test/drivers/sd_card/sd_card_driver.c:66-76 | The two nested loops compute the bitwise CRC-32 fold |
| `Crc32.PolynomialDigits` | firmware/manufacturing_test/drivers/sd_card/sd_card_driver.c:71-72 | The feedback word is 0xEDB88320, digit by digit |
| `Crc32.ChecksumAppend` | firmware/manufacturing_test/drivers/sd_card/sd_card_driver.c:491-541 | The checksum accumulated block by block is that of the concatenation |
| `Crc32.ChecksumLinear` | firmware/manufacturing_test/drivers/sd_card/sd_card_driver.c:66-76 | The update is linear over GF(2) in state and data together |
| `Crc32.ChecksumBijective` | firmware/manufacturing_test/drivers/sd_card/sd_card_driver.c:66-76 | For fixed data the update is a bijection of the state |
| `Crc32.BurstDetected` | firmware/manufacturing_test/drivers/sd_card/sd_card_driver.c:66-76 | Equal-length data sets that differ only within four consecutive bytes never share a checksum, at any length |
| `SdCardCsd.SizeV2IsSlice` | firmware/manufacturing_test/drivers/sd_card/sd_card_csd.c:14-22 | C_SIZE of a version 2 register is bits 69..48, for every register |
| `SdCardCsd.SizeV1IsSlices` | firmware/manufacturing_test/drivers/sd_card/sd_card_csd.c:23-36 | C_SIZE, C_SIZE_MULT and READ_BL_LEN of a version 1 register are bits 73..62, 49..47 and 83..80 |
| `SdCardCsd.CapacityV2` | firmware/manufacturing_test/drivers/sd_card/sd_card_csd.c:14-22 | A version 2 card holds (C_SIZE + 1) * 512 KByte, for every register |
| `SdCardCsd.SupportedIff` | firmware/manufacturing_test/drivers/sd_card/sd_card_csd.c:13-40 | A count is produced if and only if CSD_STRUCTURE, the top two bits, is 0 or 1 |
| `SdCardCsd.CapacityV1` | firmware/manufacturing_test/drivers/sd_card/sd_card_csd.c:23-36 | A version 1 sector count is BLOCKNR times BLOCK_LEN over 512, both taken from the bit slices of the register |
| `SdCardCsd.SectorCountBounded` | firmware/manufacturing_test/drivers/sd_card/sd_card_csd.c:7-40 | No register yields more than 2^32 sectors |
| `SdCardCsd.IntermediatesFit` | firmware/manufacturing_test/drivers/sd_card/sd_card_csd.c:14-36 | No sum, shift or product of the parser exceeds its 32 or 64 bits |
| `SdCardCsd.TestAreaOnCard` | firmware/manufacturing_test/drivers/sd_card/sd_card_driver.c:397-399 | The cast to 32 bits loses nothing and all eight sectors lie on the card |
| `SdCardCsd.AddressesFaithfulIff` | firmware/manufacturing_test/drivers/sd_card/sd_card_driver.c:168-171 | The eight wire addresses are the true ones if and only if the card is sector addressed or has at most 0x800008 sectors |
| `SdCardCsd.StandardCapacityAddresses` | firmware/manufacturing_test/drivers/sd_card/sd_card_driver.c:168-171 | For version 1 registers with READ_BL_LEN at most 11 the wire address never wraps and is injective |
| `SdCardCsd.TestAddressesDistinct` | firmware/manufacturing_test/drivers/sd_card/sd_card_driver.c:168-171 | The eight addresses of a run are pairwise different even when they wrap |
| `Ticks.ReachedIffPassed` | firmware/manufacturing_test/components/sd_card/sd_card_test.c:75-77 | The signed tick difference is exact within 2^31 ms of the target |
| `Ticks.NeverEarly` | firmware/manufacturing_test/components/sd_card/sd_card_test.c:75-79 | A deadline never appears reached before it is, however late the call |
| `SampleTiming.ImuSamplesSpaced` | firmware/manufacturing_test/components/bmi270/bmi270_test.c:44-63 | IMU samples are at least 100 ms apart in every run |
| `SampleTiming.BarometerSamplesSpaced` | firmware/manufacturing_test/components/bmp388/bmp388_test.c:75-90 | Barometer samples are at least 200 ms apart in every run |
| `SampleTiming.ReadyAfterSettling` | firmware/manufacturing_test/components/bmp388/bmp388_test.c:45-71 | barometer_ready comes at least 2000 ms after the initializing call |
| `SampleTiming.SampledExactlyWhenDue` | firmware/manufacturing_test/components/bmi270/bmi270_test.c:44-48 | A sampling call reads the sensor, once, if and only if it is due, for calls less than 2^31 ms late; before that it changes nothing |
| `SampleTiming.EveryImuCall` | firmware/manufacturing_test/components/bmi270/bmi270_test.c:26-64 | Every call of every run: the first initializes and announces imu_ready or fails, then a sample every 100 ms, and a failure is final |
| `SampleTiming.EveryBarometerCall` | firmware/manufacturing_test/components/bmp388/bmp388_test.c:40-91 | Every call of every run: the first initializes, barometer_ready comes exactly when 2000 ms have passed, then a sample every 200 ms; a failure is reported once and then final |
| `SampleTiming.ImuTest.Process` | firmware/manufacturing_test/components/bmi270/bmi270_test.c:26-64 | The IMU machine in place equals its transition |
| `SampleTiming.BarometerTest.Process` | firmware/manufacturing_test/components/bmp388/bmp388_test.c:40-91 | The barometer machine in place equals its transition |

## Left out

- ReceivePath.NoLineSpansAGap: for gaps that open while no LF is resident, because the code does not meet the statement for others; HarmlessIffNoLfResident is the exact condition.
- TransmitPath.ExactlyOnce: excludes USB reconfigurations, which can repeat a line; AtLeastOnce covers them, as steps atomic with the main loop.
- Device.NothingIsDropped: assumes no USB reconfiguration, and response texts that fit the buffer without CR or LF; the texts are parameters of the session.
- Device.EveryRequestAnsweredOnce: says nothing about when the main loop runs; DeviceProgress.EveryLineIsAnswered counts its turns.
- DeviceProgress.EveryLineIsAnswered: takes transfers to complete between turns, which a disconnected computer prevents.
- RequestParser.ParseRequest: starts from the tokenizer's output; `third_party/jsmn.h` is not part of this model, and RequestText gives the tokens of compact text instead. Fields a failed parse has already written are not described.
- RequestText.LayoutReadsBack: covers strings without escapes, which is all the encoders write.
- SdCardDriver.SdCardDriver.Initialize: the NULL-argument check and the codes stored beside stage and reason are not modelled; neither are the command checksums.
- SdCardMedia.PassedMeansMediaGood: the card is faithful except for its address decoding; bit errors on the bus are seen only as failing transfers and rejected blocks.
- SdCardDriver.CardLink.WaitReady: two readings of the tick are assumed less than 2^29 ms apart, without which a wrapped timeout proves nothing.
- ComponentSession.ComponentTestClient.RunComponentTest: messages arrive decoded; JSON decoding and its field checks appear only as matching on type, id and test type.
- ComponentBench.StopAlwaysAcknowledged: acknowledgements come in time (RaisesIffLate says what happens otherwise), and it leaves out the checks handlers make of event data, which is taken to be well formed.
- Operator cancellation from the keyboard ends the whole run and is not an exchange that returns.
- Byte-for-byte JSON formatting of responses, event payloads, session metadata and decoding of START_TEST responses.
- Line slots and the framer's callback carry whole lines as sequences; the copying loops into them are single assignments.
- Hardware setup, descriptors, clocks, WS2812 pulse timing, the Bosch drivers: the environment is nondeterministic success, failure and data.
- Transport initialization and its statistics report; line coding control requests.
- The sensor samples' values; only when they are taken is modelled.
- Flashing, port discovery, configuration, reports, displays and prompts on the computer: no protocol state.
