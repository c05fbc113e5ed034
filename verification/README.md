# Verified model of the Guru USB-to-CAN/LIN driver

The driver turns a USB adapter into CAN and LIN network devices. This project models the parts
of it that carry a protocol or a format, and proves what those parts promise.

**Transmit protocol** (`IntrusiveList`, `TxBus`, `TxProtocol`, `TxRuns`, `TxHazards`, `TxShift`,
`TxDriver`). Every channel of a bus sends one frame at a time. The device answers each frame with a
status message that carries no channel number; the driver finds the channel by popping the head of a list
that all channels of the bus share. The CAN and the LIN driver have the same code here
(`canguru-net.c:322-361` and `linguru-net.c:237-268`, `canguru-msg-net.c:54-99` and
`linguru-msg-net.c:64-109`); the model is stated once and used for both.

- `TxProtocol` is a step relation over any number of channels. A call of `start_xmit` is three steps
  (submission; echo slot and list; byte queue) and the reply handler is two (callback; unlinking),
  and these steps interleave in every way. The device receives submissions in order and answers
  them in order, one status each.
- Each step is assumed atomic. The driver takes no lock around its list operations; that two of them,
  or `can_put_echo_skb` and the `list_add_tail` after it, run at once with another step is outside
  the model.
- `Protocol` is the invariant, and `StepKeepsProtocolIffSafe` gives the exact condition under which one
  of these steps keeps it: a channel is closed only while its queue is awake; calls of `start_xmit`
  link their nodes in the order they submitted, with memory for the echo, and not between the
  callback and the unlinking of the same channel; and a status is handled only once its node is
  linked and its bytes are reported. Nothing in the driver enforces these conditions. Runs in which
  calls are not interrupted meet all but the two about memory and closing (`UninterruptedXmit`,
  `UninterruptedReply`).
- `TxRuns` proves, for every run of safe steps, reply attribution, the refinement to independent
  stop-and-wait senders, conservation of frames and bytes, the agreement of the three records of a
  pending frame, and that pending frames drain. `TxHazards` shows for each kind of unsafe step what
  it leads to, from every intact state that allows it (with a second channel open where answers go
  astray): answers reported for another channel's frame, a channel stopped for good, bytes completed
  before they are reported, a node linked twice.
  `IntrusiveList.ListAddTail` shows what linking twice does to the pointers: they form no list.
- `TxShift` proves that one mishap is enough: after a single failed echo, or a single status handled
  before its node was linked, every later verdict is one frame off however safe the steps that
  follow. Each proof is a simulation by the run without that frame or that status.
- `TxDriver` is the imperative form: network devices and the circular list on the heap. Each method
  is proved to act on the heap as its counterpart in `TxBus` acts on a value.

**Wire formats** (`Wire`, `Transport`, `CanDlc`, `CanCodec`, `LinCodec`). Messages are actual bytes in
the layout of GCC on x86-64: little-endian, bit fields from the least significant bit. The data
length codes follow ISO 11898-1, section 8.4.2.3. The round trips go through encoding, framing, a
relay that inserts a time stamp and fills the slot, and decoding; each comes with the exact
condition under which the frame comes back unchanged.

**Reception** (`Dispatcher`, `RxPool`, `Mbus`, `MbusDriver`): the dispatch loops, the pool of receive URBs
over all runs, and the combined device with its eight CAN and eight LIN channels on one dispatcher,
as a value and as the callbacks that act on its objects.

**Voltage handshake** (`Voltage`): readers, mutex, completion, timeout and replies as an interleaved
protocol with any number of readers. A reply is two steps, storing and signalling.

**Minor numbers and bit timing** (`BootTable`, `BitTiming`).

Where a comment and the code disagree the model follows the code: the comment on
`canguru_ops_close` (`canguru-net.c:296-303`) speaks of freeing URBs, which the function does not do.

What the kernel decides (allocation, submission, registration) is a parameter of the operation. The
kernel is taken to keep its side: `start_xmit` is called on an open, awake channel and not twice at
once on one channel; `ndo_open` on a closed device, `ndo_stop` on an open one; invalid frames,
among them frames longer than their format allows, are dropped by `can_dropped_invalid_skb`; the
reply handler does not run twice at once.

## Model

| member | source | states |
|---|---|---|
| IntrusiveList.InitListHead | canguru-msg-net.c:28 | a fresh head is a list with no nodes |
| IntrusiveList.ListAddTail | canguru-msg-net.c:54-57 | a node not yet linked becomes the last of the list; a node already linked leaves pointers that form no list; only the node, the head and the old last node change |
| IntrusiveList.ListDel | canguru-msg-net.c:98 | removing the k-th node leaves the others in order and writes to its two neighbours only |
| IntrusiveList.ListEmpty | canguru-msg-net.c:87-89 | the test on the head's pointer is true exactly for a list without nodes |
| IntrusiveList.ListFirst | canguru-msg-net.c:91-93 | the head's successor is the node that has waited longest |
| IntrusiveList.WalkVisits | canguru-msg-net.c:82-99 | following next from any link visits the queued nodes in order and closes at the head |
| IntrusiveList.RingUnique | canguru-msg-net.c:82-99 | the pointers determine the queue: one head cannot carry two different lists |
| TxBus.HandleStatusKeepsBusOk | canguru-msg-net.c:82-99 | with stopped, echo and linked in agreement the reply handler finds an echo, keeps the agreement and does not depend on the unset length |
| TxBus.HandleStatusEffect | canguru-net.c:538-560 | in every state: with an empty list the handler changes nothing; otherwise the first channel in line, and no other, is unlinked, woken, its echo emptied, its length completed and its frame counted once, by status 0, 2 or other |
| TxBus.StartXmitEffect | canguru-net.c:322-361 | in every state and for every answer of the kernel: which of queue, echo, list and byte queue start_xmit changes, and that it touches no other channel |
| TxBus.OpenEffect | canguru-net.c:279-294 | a failed open changes nothing; a successful one opens and wakes its channel and no more |
| TxBus.CloseEffect | canguru-net.c:304-313 | closing stops the channel and empties its echo, a frame in it being one drop more; list and byte queue stay |
| TxBus.CloseUnsetsLength | canguru-net.c:541-558 | after closing the channel whose answer is next, the handler completes exactly the value of a variable nobody set, wakes the queue of a closed device and counts the flushed frame a second time |
| TxBus.StartXmitKeepsBusOk | canguru-net.c:322-361 | on an awake channel the node is not linked; start_xmit keeps the agreement exactly when the echo can be stored or is not reached, and a refused submission changes nothing on any channel |
| TxBus.DrainEmpties | canguru-msg-net.c:82-99 | j replies without new sends remove the first j entries; exactly as many as are pending empty the list, and then every open queue is awake |
| TxProtocol.StepKeepsProtocolIffSafe | canguru-net.c:322-361 | from an intact state a step leads to an intact state if and only if it is safe, for every kind of step |
| TxProtocol.CloseStep | canguru-net.c:304-313 | closing keeps the protocol exactly when the queue is awake, as close flushes the echo but leaves the node linked |
| TxProtocol.SafeParkStep | canguru-net.c:344-352 | echo and list in submission order keep the protocol |
| TxProtocol.AccountStep | canguru-net.c:354 | reporting the bytes keeps the protocol, in whatever order the calls get to it |
| TxProtocol.UnsafeParkStep | canguru-net.c:344-360 | out of submission order, without memory, or before the previous node is unlinked, they break it |
| TxProtocol.SendingIsNotActive | canguru-net.c:345-350 | can_put_echo_skb never finds the slot taken |
| TxProtocol.CallbackStep | canguru-msg-net.c:87-97 | the head of the list is the channel of the oldest unanswered submission and its echo is that frame; handling a status keeps the protocol exactly when a node is linked and its bytes are reported |
| TxProtocol.HandlerIsDefined | canguru-net.c:544-558 | the callback always finds an echo, so the frame length it completes is set |
| TxProtocol.UnlinkStep | canguru-msg-net.c:98 | unlinking after the callback keeps the protocol |
| TxProtocol.SubmitStep | canguru-net.c:332-338 | stopping the queue and submitting keeps the protocol |
| TxProtocol.RefusedStep | canguru-net.c:356-360 | a refused submission leaves the whole system as it was |
| TxProtocol.OpenStep | canguru-net.c:279-294 | opening, whether it succeeds or fails, keeps the protocol |
| TxRuns.RunIntactIffSafe | canguru-net.c:322-361 | a run is intact in all its states if and only if all its steps are safe |
| TxRuns.ReplyAttribution | canguru-msg-net.c:82-99 | in every run the i-th completion names channel and frame of the i-th submission and carries the device's verdict on it, although replies carry no channel number |
| TxRuns.NextReplyIsOwn | canguru-msg-net.c:91-97 | the status handled next is reported to the channel it is about, and the bytes completed with it are exactly those reported and not completed |
| TxRuns.RefinesIndependentSenders | canguru-net.c:322-361 | seen from any one channel every run is a run of a stop-and-wait sender alone: taken over, completed, taken over, with the same frame each time |
| TxRuns.PerformAlternates | canguru-net.c:332-355 | a stop-and-wait trace has takeovers at even and completions of the same frame at odd places |
| TxRuns.Conservation | canguru-net.c:538-560 | frames taken over = packets + errors + dropped + pending; bytes sums the DONE frames; at every step completed bytes do not exceed reported ones, and they differ by the pending frame's length once its call has reported it |
| TxRuns.QuiescentStateIsOk | canguru-net.c:352-355 | between calls stopped, echo taken and node linked agree on every open channel, and as many nodes are linked as answers are missing |
| TxRuns.QueueBounded | canguru-msg-net.c:54-57 | at every moment of every run, calls and the reply handler under way included, the list links no node twice and is no longer than the number of channels |
| TxRuns.DrainRun | canguru-msg-net.c:82-99 | from an intact state between calls the device can answer what is outstanding with any statuses and the driver handle it by safe steps, ending where Drain says, with exactly these verdicts consumed |
| TxRuns.ComesToRest | canguru-net.c:344-355 | from every intact state safe steps bring the driver to rest while calls that have not reached the echo slot stay where they are; every open channel without such a call is then ready to transmit |
| TxRuns.PendingFramesDrain | canguru-msg-net.c:82-99 | so from every state a run reaches between calls, as many replies as frames are pending empty the list and leave every open queue awake |
| TxRuns.RefusalIsNoOp | canguru-net.c:340-358 | in every run a failed submit changes nothing for any channel |
| TxRuns.ParkFindsSlotFree | canguru-net.c:344-355 | in every run the echo slot is free and the node unlinked when start_xmit gets to them; no node is linked twice |
| TxRuns.XmitSteps | canguru-net.c:322-361 | in every state, intact or not, and for every answer of the kernel the steps of one call put together do what StartXmit does |
| TxRuns.UninterruptedXmit | canguru-net.c:322-361 | an uninterrupted start_xmit from an intact state is safe unless the echo cannot be allocated |
| TxRuns.UninterruptedReply | canguru-msg-net.c:82-99 | in every state the steps of the reply handler put together do what HandleStatus does and report one completion; with an empty list they consume the status and nothing else; they are safe whenever the answered frame is linked and reported |
| TxHazards.EchoFailureWedges | canguru-net.c:344-360 | a failed echo leaves the channel stopped with nothing pending |
| TxHazards.WedgedUntilReopened | canguru-net.c:348-360 | and so it stays in every continuation until it is opened again |
| TxHazards.EchoFailureMisattributes | canguru-net.c:334-350 | from every intact state with a call under way and another channel open, a failed echo lets the verdict on its frame be reported for the next frame |
| TxHazards.OvertakingMisattributes | canguru-net.c:334-352 | from every intact state in which a call links its node before an earlier one, the verdict on the earlier frame can be reported for the later |
| TxHazards.EarlyStatusMisattributes | canguru-msg-net.c:87-89 | from every intact state with a call under way and another channel open, a status handled before its node is linked is lost and the channel is given the next frame's verdict |
| TxHazards.TwoCallsUnderWay | canguru-net.c:332-338 | a run of safe steps reaches such states |
| TxHazards.EarlyCallbackOvercompletes | canguru-net.c:352-354 | a status handled between list_add_tail and netdev_sent_queue completes the frame's length more than was ever reported |
| TxHazards.ParkBeforeUnlinkLinksTwice | canguru-msg-net.c:95-98 | from every intact state in which an answer is about to be handled, a frame sent between callback and list_del links the node a second time |
| TxHazards.CloseWhilePendingLinksTwice | canguru-net.c:304-313 | closing with a frame pending and reopening links the same node twice with the next frame |
| TxShift.FailedEchoShiftsVerdicts | canguru-net.c:344-360 | after a failed echo, in every run of otherwise safe steps, each verdict from that frame's on is reported for the frame submitted next after it, and the channel stays stopped |
| TxShift.EmptyListMendsIt | canguru-msg-net.c:87-89 | a status handled with an empty list puts the driver in step again, but for that channel, if and only if the answers so far reach the frame without echo |
| TxShift.EarlyStatusShiftsVerdicts | canguru-msg-net.c:87-89 | after a status handled before its node was linked, in every run of otherwise safe steps, each frame from that one on is reported with the next frame's verdict, and one frame more waits than answers are to come |
| TxDriver.NetDevice.SendCallback | canguru-net.c:538-560 | the channel's callback empties the echo, counts by status, completes the frame's bytes and wakes the queue; with an empty echo it counts no bytes and completes an unset number |
| TxDriver.MsgNet.constructor | mbus-device.c:57-60 | the loop creates the channels, each with its index and an unlinked node of its own, and an empty list |
| TxDriver.MsgNet.Open | canguru-net.c:279-294 | acts on the heap as Open on the value, and changes nothing on failure |
| TxDriver.MsgNet.Close | canguru-net.c:304-313 | acts on the heap as Close on the value: a flushed echo counts as dropped, and the node stays linked |
| TxDriver.MsgNet.StartXmit | canguru-net.c:322-361 | acts on the heap as StartXmit on the value, for every outcome of the kernel calls; when the node is linked already and the call gets that far, the pointers form no list |
| TxDriver.MsgNet.ParkFrame | canguru-net.c:344-354 | fills the echo slot, links the channel's own node last and accounts the bytes, or ruins the list if the node was linked |
| TxDriver.MsgNet.WaitSendReply | canguru-msg-net.c:54-57 | the list carries the new node behind the others, or is none any more if it already did |
| TxDriver.MsgNet.HandleStatus | canguru-msg-net.c:82-99 | acts on the heap as HandleStatus on the value in every state: the first channel in line completes and its node leaves the list |
| TxDriver.MsgNet.Retire | canguru-msg-net.c:98 | the list loses its first node and keeps the others in order |
| Wire.PackBijection | canguru-net.c:50-59 | packing and unpacking the 40-bit header are inverse on all headers and all strings of five bytes |
| Wire.PackLayout | canguru-net.c:50-59 | which bits of which byte hold each field |
| Wire.UnpackLayout | canguru-net.c:50-59 | and from which bits of any five bytes each field is read |
| Wire.FromLEofLE | canguru-net.c:61-65 | multi-byte fields read back from their little-endian bytes |
| Wire.LEofFromLE | canguru-net.c:61-65 | and every byte string is that of the number it reads as |
| Transport.GuruSendData | guru-device.c:70-139 | the buffer submitted is header, id, count and payload, the latter as allocated when there is no data; on any failure the error is returned and nothing is submitted |
| Transport.FramedReads | guru-device.c:276-283 | the receiver's view of a framed message gives back id, count and payload |
| Transport.FramedBytes | guru-device.c:98-104 | the header's bytes: 0x58, 0, the id with the low byte first, the payload's length |
| Transport.TransferResult | guru-device.c:78-126 | -ENOMEM without an URB or a buffer, otherwise what the submission returns; success exactly when all three succeed |
| CanDlc.PaddedLenIsLeast | canguru-net.c:499 | code and back gives the least CAN FD length that is large enough |
| CanDlc.FdCodesAreLengths | canguru-net.c:206 | the sixteen codes are the sixteen lengths in increasing order |
| CanDlc.CcLenRoundTrip | canguru-net.c:521 | the length survives the code, the raw code exactly when it is effective at both ends |
| CanCodec.CanFdSend | canguru-net.c:491-514 | the bytes submitted for a CAN FD frame |
| CanCodec.CanClassicSend | canguru-net.c:516-536 | the bytes submitted for a classic frame |
| CanCodec.SendStruct | canguru-net.c:509-513 | the header bytes and the first len data bytes of a zeroed message, which always fit the count byte |
| CanCodec.ClassicFrameBytes | canguru-net.c:516-536 | every byte submitted for a classic frame, from identifier, length, raw DLC and mode: the ESI, FD, bit-rate-switch and reserved bits are zero |
| CanCodec.FdFrameBytes | canguru-net.c:491-514 | every byte submitted for a CAN FD frame: FD bit set, ESI and BRS from the flags, reserved bits zero |
| CanCodec.CanNetDevice.NetRecv | canguru-net.c:194-247 | the received frame and time stamp are those the message body decodes to, and the receive counters grow by one frame and its length |
| CanCodec.DecodedBytes | canguru-net.c:194-247 | what any message body means: time, identifier, kind, length, flags, raw DLC and data as numbers of its bytes |
| CanCodec.FillFd | canguru-net.c:205-223 | the CAN FD branch fills in the decoded frame |
| CanCodec.FillCc | canguru-net.c:225-238 | the classic branch fills in the decoded frame |
| CanCodec.RelayReads | canguru-net.c:61-80 | send and receive layout share the header; the relayed message holds the interface, stamp, header and data sent and fits the slot |
| CanCodec.IdSurvivesIffNormal | canguru-net.c:501-507 | the identifier comes back exactly when the error flag is clear and it is within the mask of its format |
| CanCodec.FdRoundTrip | canguru-net.c:491-514 | for every identifier and length up to 64: what a relayed CAN FD frame comes back as |
| CanCodec.FdIdentityIff | canguru-net.c:205-223 | it comes back unchanged if and only if identifier normalised, length in the table, flags only ESI and BRS; shorter data is zero padded |
| CanCodec.ClassicRoundTrip | canguru-net.c:516-536 | the same for classic frames under all settings of the raw-DLC mode |
| CanCodec.ClassicIdentityIff | canguru-net.c:226-237 | unchanged if and only if the identifier is normalised and the raw DLC is absent or passed on by both ends; otherwise it becomes 0 |
| LinCodec.PackLinBijection | linguru-net.c:23-28 | the LIN header and its two bytes determine each other |
| LinCodec.LinSend | linguru-net.c:329-348 | the bytes submitted for a LIN frame |
| LinCodec.SendLinStruct | linguru-net.c:331-347 | the header bytes and the first len data bytes of a zeroed message, which always fit the count byte |
| LinCodec.LinFrameBytes | linguru-net.c:329-348 | every byte submitted for a LIN frame: a delay of zero, six identifier bits, then the remote and the checksum bit, then the length |
| LinCodec.LinNetDevice.NetRecv | linguru-net.c:144-174 | the received frame is the one the body decodes to, given a length byte of at most 8 |
| LinCodec.LinDecodedBytes | linguru-net.c:144-174 | what any LIN message body means as numbers of its bytes; there is a frame exactly for a length byte of at most 8 |
| LinCodec.LinRelayReads | linguru-net.c:39-52 | the relayed message holds interface, stamp, header and data |
| LinCodec.LinRoundTrip | linguru-net.c:329-348 | a frame arrives if and only if no raw DLC overrode the length; then length and data are those sent, and the identifier is exactly when it is a LIN one |
| Dispatcher.SlotCallsExact | guru-device.c:284-298 | the k-th callback a slot runs is that of the k-th handler that fires, with the slot's data, size and id |
| Dispatcher.FiringExact | guru-device.c:284-298 | the handlers that fire are exactly those whose id matches and whose size matches or is variable, each once, in registration order |
| Dispatcher.AtMostOneFires | guru-device.c:284-298 | with distinct ids at most one |
| Dispatcher.SlotsInOrder | guru-device.c:240-244 | slot i of a buffer is its bytes 128 i to 128 i + 127, and the calls of several slots are those of each, one slot after the other |
| Dispatcher.UrbFate | guru-device.c:224-259 | reception ends on the statuses -2, -32, -71 and -108 and on a failed resubmission; on every other status the URB asks for 128 bytes again |
| Dispatcher.GuruDevice.AddMsg | guru-device.c:156-159 | handlers are kept in registration order |
| Dispatcher.GuruDevice.ProcessMsgList | guru-device.c:276-302 | the callbacks run are those of the specification, see the slot's data, size and id, and the current-message fields are cleared afterwards |
| Dispatcher.GuruDevice.DispatchBuffer | guru-device.c:240-244 | exactly floor(length/128) consecutive slots in order; the 32-bit subtraction never wraps |
| Dispatcher.GuruDevice.ReadBulkCallback | guru-device.c:219-260 | slots are dispatched for status 0 only; the URB retires on four statuses or a failed resubmission and asks for one slot otherwise |
| RxPool.RxInit | guru-device.c:163-217 | exactly the URBs before the first failure are submitted and recorded; the result is 0 if and only if all 32 are |
| RxPool.PoolRun | guru-device.c:219-260 | in every run submitted + retired stays the number first submitted, lengths stay 128, and the slots dispatched are those of the successful completions in order |
| RxPool.CompleteEffect | guru-device.c:219-260 | a completion concerns its own URB only, retires it or asks for one slot again by those statuses, and dispatches its buffer exactly on status 0 |
| RxPool.RetiredForGood | guru-device.c:229-233 | a retired URB never returns |
| Mbus.MsgStdInit | guru-msg-std.c:11-23 | registers the version handler |
| Mbus.CanMsgNetInit | canguru-msg-net.c:22-52 | registers the eight CAN handlers in order |
| Mbus.LinMsgNetInit | linguru-msg-net.c:27-62 | registers the seven LIN handlers in order |
| Mbus.VersionFitsIff | guru-msg-std.c:32-41 | a version text of count bytes fits the 32-byte buffer and ends in it if and only if it has fewer than 32 bytes, or 32 with a zero among them |
| Mbus.FwVersionCallback | guru-msg-std.c:32-41 | under that condition copy and log message stay inside the buffer, and the text shown is the message up to its first zero or its end |
| Mbus.HandlersSeparate | mbus-device.c:36-93 | all ids are pairwise distinct and tell the bus |
| Mbus.OneCallbackOfItsBus | guru-device.c:284-298 | any message runs at most one callback, of the bus its id belongs to |
| Mbus.AcceptedMessages | guru-device.c:284-298 | which ids and sizes have a handler, as numbers, and the one callback each runs, with the slot's data, size and id |
| Mbus.OtherMessagesDoNothing | canguru-msg-net.c:72-80 | messages other than the SEND statuses and received frames change neither bus |
| Mbus.SlotDefinedIff | guru-device.c:284-298 | the callbacks a message runs all have a defined effect exactly unless it is a version message whose text does not fit, or a LIN frame for an existing channel with a length byte above 8 |
| Mbus.BusesAreIsolated | guru-device.c:276-302 | from every state, calls under way and wedged or closed channels included, after any sequence of messages with a defined effect each bus is where its own messages alone would have taken it: list, echo slots, frames received, transmit and receive counters |
| Mbus.ForeignMessagesDoNothing | mbus-device.c:36-93 | no such sequence of CAN messages changes the LIN list, transmit or receive counters or frames, or vice versa |
| Mbus.CanMessagesAreDefined | canguru-msg-net.c:101-115 | sequences of CAN messages always have a defined effect |
| Mbus.CanStatusEffect | canguru-msg-net.c:37-42 | a one-byte SEND status pops the CAN list with that status, in every state; other sizes are refused |
| Mbus.LinStatusEffect | linguru-msg-net.c:92-109 | the same for the LIN list |
| Mbus.CanRecvEffect | canguru-msg-net.c:101-115 | a received frame, its packet and its bytes go to the channel the first byte names and to nothing else; without such a channel nothing changes |
| Mbus.LinRecvEffect | linguru-msg-net.c:111-125 | the same for LIN frames, counting the length byte |
| Mbus.FdFrameReachesItsChannel | canguru-msg-net.c:101-115 | a CAN FD frame relayed by the device is received on the channel that sent it, and nothing else happens |
| Mbus.LinFrameReachesItsChannel | linguru-msg-net.c:111-125 | a relayed LIN frame has a defined effect exactly when no raw DLC overrode its length, and is then received on the channel that sent it |
| MbusDriver.MbusDevice.CanSendCallback | canguru-msg-net.c:82-99 | on the objects as on the value: the CAN list is popped with the message's first byte, the LIN side is untouched |
| MbusDriver.MbusDevice.CanRecvCallback | canguru-msg-net.c:101-115 | the frame goes to the channel named by the first byte, or nowhere if there is none; the LIN side is untouched |
| MbusDriver.MbusDevice.LinSendCallback | linguru-msg-net.c:92-109 | the same for the LIN list |
| MbusDriver.MbusDevice.LinRecvCallback | linguru-msg-net.c:111-125 | the same for LIN frames |
| MbusDriver.MbusDevice.RunCallback | guru-device.c:290-294 | the indirect call acts on the objects as Apply acts on the value, for every registered callback whose effect is defined |
| MbusDriver.MbusDevice.constructor | mbus-device.c:13-93 | the handlers and channels in the order of the source make a valid device: all objects different, all channels closed, nothing linked or received |
| MbusDriver.InitCan | mbus-device.c:36-63 | eight CAN handlers, then eight CAN channels |
| MbusDriver.InitLin | mbus-device.c:65-93 | eight LIN channels, then seven LIN handlers |
| MbusDriver.MbusDevice.Offer | guru-device.c:286-297 | one handler acts if id and size fit and does nothing otherwise |
| MbusDriver.MbusDevice.ProcessMsgList | guru-device.c:276-302 | the loop over the handlers, running them on the objects, takes the device where Receive takes the value, and clears the current message |
| MbusDriver.MbusDevice.DispatchBuffer | guru-device.c:240-244 | the loop over a buffer takes the device where its slots, received one after another, take the value |
| Voltage.StepKeepsInv | linguru-voltage.c:65-108 | every step of readers and replies keeps the handshake invariant |
| Voltage.OneReaderInside | linguru-voltage.c:87-107 | in every run at most one reader is between lock and unlock, and the mutex is free exactly when none is |
| Voltage.ReadIsFresh | linguru-voltage.c:96-103 | a successful read returns the latest reply's value as a signed 32-bit number, and that reply had not finished at this read's reinit_completion |
| Voltage.WokenIffReplied | linguru-voltage.c:87-98 | a waiting reader can be woken exactly when a reply has finished since its reset, and times out only if none has |
| Voltage.ReturnsOf | linguru-voltage.c:83-107 | -EINVAL for another mask, touching nothing; the error of a failed send; -ETIMEDOUT after the wait |
| Voltage.MarksPersist | linguru-voltage.c:88-101 | the marks a reader is judged by are those of its own reset |
| Voltage.OutcomeHasReset | linguru-voltage.c:88-106 | the marks of every value returned are those of a reset by its own reader |
| Voltage.OutcomesAreFresh | linguru-voltage.c:65-108 | every value returned is that of a reply unfinished at a reset by its reader, and was stored before that reset if and only if a reply was half done then and is the one read |
| Voltage.StaleIffNothingStored | linguru-voltage.c:88-101 | when read, the value dates from before the reader's last reset if and only if no reply has been stored since |
| Voltage.HalfDoneReplyIsRead | linguru-voltage.c:69-70 | a run in which that exception occurs |
| BootTable.BootDriver.BootCreate | guru-boot.c:42-89 | result and table for every failing branch and for success |
| BootTable.BootDriver.BootDestroy | guru-boot.c:91-96 | clears the slot of the device's minor number |
| BootTable.CreateEffect | guru-boot.c:42-89 | in every state: result by the first failing step, number given, and the one slot that changes on success |
| BootTable.DestroyEffect | guru-boot.c:91-96 | no slot but the device's own changes |
| BootTable.DoKeepsTableOkIff | guru-boot.c:42-96 | creates keep the table right; a destroy does if and only if its device exists or the slot is empty |
| BootTable.DestroyOfFailedCreate | guru-boot.c:82-96 | the contract of guru_boot_destroy alone does not protect the table: destroying a device whose create failed clears another device's slot (the driver itself has no such call) |
| BootTable.MinorsAreDistinct | guru-boot.c:42-96 | in every run slot i points to d exactly when d exists with minor number i, minor numbers are distinct, and at most sixteen devices exist |
| BootTable.CreateInRun | guru-boot.c:47-85 | the least free number is taken, the table-full error comes exactly when all sixteen are taken, a failed create changes no slot |
| BitTiming.SetTqNum | canguru-net.c:380-406 | fills in the number of quanta, 0 for bit rate 0 |
| BitTiming.DefinedIff | canguru-net.c:380-406 | a result exists if and only if the bit rate is 0 or the prescaler does not wrap, and for bit rate 0 it is 0 |
| BitTiming.QuantaAreFloor | canguru-net.c:399-406 | the two-stage division is the floor of clock/(p*b), bracketed by its multiples, and exact when p*b divides the clock |
| BitTiming.QuantaAntitone | canguru-net.c:399-406 | more prescaler or more bit rate never gives more quanta |

## Left out

- USB, DMA, net device, IIO and character device registration and module start and exit: calls into
  the kernel; their results are parameters where an operation depends on them.
- Lifetime of transmit URBs and buffers after submission: it rests on reference counts inside the USB
  core.
- Log output other than the firmware version, termination, mode and filter settings, character device
  reads: they pass values through.
- Counters and byte accounts of a channel are unbounded; the wrap-around of the kernel's own counters is
  not modelled, nor is the second stop bit that byte queue limits keep.
- tx_dropped counts what the reply handler and closing drop; the kernel's counting of frames it drops
  as invalid, and its tx_aborted_errors, are not part of this model.
- After a node has been linked twice the pointers no longer form a list (`ListAddTail`). `TxBus` and `TxProtocol`
  then keep the entries as a sequence, so nothing is claimed about the heap of such runs.
- Two list operations at once, and an echo slot filled by one processor while another runs before the
  `list_add_tail` that follows: the steps of `TxProtocol` are atomic.
- Transmission while a device is still initialising (the LIN list head is set up after its channels are
  registered, mbus-device.c:82-87) is not modelled.
- Allocation of receive buffers for frames is taken to succeed.
- Voltage: concurrent functions are modelled as a state machine over their atomic steps, not as methods of a class.
- Dispatcher.GuruDevice.ProcessMsgList: records the callbacks it runs, for any handler table; with the table of
  the combined device `MbusDriver.MbusDevice.ProcessMsgList` runs them.
- The transmit and the receive side of one network device are two objects in the model.
- Frames for an interface whose network device could not be created are not modelled: all channels exist.
- LinCodec.LinNetDevice.NetRecv: requires a length byte of at most 8, because the source copies that many bytes into
  an 8-byte frame and what a longer copy overwrites is not modelled.
- MbusDriver.MbusDevice.LinRecvCallback: the same, for a channel that exists.
- MbusDriver.MbusDevice.RunCallback: the same, for the LIN receive handler; and for the version handler a text that
  fits its buffer (`VersionFits`), as what a longer copy overwrites is not modelled.
- Mbus.FwVersionCallback: the same.
- Mbus.BusesAreIsolated: message sequences with such a LIN frame or version message are excluded (`SlotDefined`), as are
  they in the other results about sequences; `SlotDefinedIff`, `VersionFitsIff` and `LinRoundTrip` say when a message is
  one.
