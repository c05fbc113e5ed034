/**
 * The combined device: eight CAN and eight LIN channels behind one dispatcher. Messages are
 * routed by id alone, so what each bus does must not depend on the other bus's messages.
 */
module Mbus {
  import opened Kernel
  import opened Transport
  import opened CanDlc
  import opened CanCodec
  import opened LinCodec
  import opened TxBus
  import opened Dispatcher

  const CAN_MBUS_CHANNEL_COUNT := 8
  const LIN_MBUS_CHANNEL_COUNT := 8
  const MSG_GET_VERSION: u16 := 0x0001
  const MSG_STR_SIZE_MAX := 32

  datatype Callback =
    | FwVersion
    | CanStatus | CanSend | CanRecv
    | LinStatus | LinSend | LinRecv | LinVolt

  function StatusHandler(id: u16, callback: Callback): GuruMsg<Callback> {
    GuruMsg(id, 1, Static, Some(callback))
  }

  const STD_HANDLERS: seq<GuruMsg<Callback>> := [GuruMsg(MSG_GET_VERSION, 0, Variable, Some(FwVersion))]

  const CAN_HANDLERS: seq<GuruMsg<Callback>> := [
    StatusHandler(0x0C0D, CanStatus), StatusHandler(0x0C00, CanStatus), StatusHandler(0x0C17, CanStatus),
    StatusHandler(0x0C06, CanStatus), StatusHandler(0x0C16, CanStatus), StatusHandler(0x0C02, CanStatus),
    StatusHandler(CAN_MSG_SEND, CanSend), GuruMsg(CAN_MSG_RECV, 0, Variable, Some(CanRecv))]

  const LIN_HANDLERS: seq<GuruMsg<Callback>> := [
    StatusHandler(0x0D08, LinStatus), StatusHandler(0x0D00, LinStatus), StatusHandler(0x0D02, LinStatus),
    StatusHandler(0x0D04, LinStatus), StatusHandler(LIN_MSG_SEND, LinSend),
    GuruMsg(LIN_MSG_RECV, 0, Variable, Some(LinRecv)), GuruMsg(0x0D20, 4, Static, Some(LinVolt))]

  const MBUS_HANDLERS := STD_HANDLERS + CAN_HANDLERS + LIN_HANDLERS

  /** `guru_msg_std_init`. */
  method MsgStdInit(dev: GuruDevice<Callback>)
    modifies dev`msgList
    ensures dev.msgList == old(dev.msgList) + STD_HANDLERS
  {
    dev.AddMsg(GuruMsg(MSG_GET_VERSION, 0, Variable, Some(FwVersion)));
  }

  /** `canguru_msg_net_init`, as far as it registers handlers. */
  method CanMsgNetInit(dev: GuruDevice<Callback>)
    modifies dev`msgList
    ensures dev.msgList == old(dev.msgList) + CAN_HANDLERS
  {
    dev.AddMsg(StatusHandler(0x0C0D, CanStatus));
    dev.AddMsg(StatusHandler(0x0C00, CanStatus));
    dev.AddMsg(StatusHandler(0x0C17, CanStatus));
    dev.AddMsg(StatusHandler(0x0C06, CanStatus));
    dev.AddMsg(StatusHandler(0x0C16, CanStatus));
    dev.AddMsg(StatusHandler(0x0C02, CanStatus));
    dev.AddMsg(StatusHandler(CAN_MSG_SEND, CanSend));
    dev.AddMsg(GuruMsg(CAN_MSG_RECV, 0, Variable, Some(CanRecv)));
  }

  /** `linguru_msg_net_init`, as far as it registers handlers. */
  method LinMsgNetInit(dev: GuruDevice<Callback>)
    modifies dev`msgList
    ensures dev.msgList == old(dev.msgList) + LIN_HANDLERS
  {
    dev.AddMsg(StatusHandler(0x0D08, LinStatus));
    dev.AddMsg(StatusHandler(0x0D00, LinStatus));
    dev.AddMsg(StatusHandler(0x0D02, LinStatus));
    dev.AddMsg(StatusHandler(0x0D04, LinStatus));
    dev.AddMsg(StatusHandler(LIN_MSG_SEND, LinSend));
    dev.AddMsg(GuruMsg(LIN_MSG_RECV, 0, Variable, Some(LinRecv)));
    dev.AddMsg(GuruMsg(0x0D20, 4, Static, Some(LinVolt)));
  }

  // ---------------------------------------------------------------------------------------
  // The version handler
  // ---------------------------------------------------------------------------------------

  /** The handler copies as many bytes as the message counts into a zeroed buffer of 32, and prints
      the buffer as a string: the copy must fit, and a zero byte must end the string. */
  predicate VersionFits(data: seq<byte>, size: byte)
    requires |data| >= MSG_STR_SIZE_MAX
  {
    size < MSG_STR_SIZE_MAX || (size == MSG_STR_SIZE_MAX && 0 in data[..MSG_STR_SIZE_MAX])
  }

  /** What the buffer holds after the copy. */
  function VersionBuffer(data: seq<byte>, size: byte): (r: seq<byte>)
    requires size <= MSG_STR_SIZE_MAX <= |data|
    ensures |r| == MSG_STR_SIZE_MAX
  {
    data[..size] + Zeros(MSG_STR_SIZE_MAX - size)
  }

  lemma VersionFitsIff(data: seq<byte>, size: byte)
    requires |data| >= MSG_STR_SIZE_MAX
    ensures VersionFits(data, size) <==>
            size <= MSG_STR_SIZE_MAX && 0 in VersionBuffer(data, size)
  {
    if size < MSG_STR_SIZE_MAX {
      assert VersionBuffer(data, size)[size] == 0;
    } else if size == MSG_STR_SIZE_MAX {
      assert VersionBuffer(data, size) == data[..MSG_STR_SIZE_MAX];
    }
  }

  /** The string in the buffer is the start of the message, up to a zero byte or its end. */
  lemma VersionText(data: seq<byte>, size: byte, text: seq<byte>)
    requires size <= MSG_STR_SIZE_MAX <= |data|
    requires 0 !in text && text + [0] <= VersionBuffer(data, size)
    ensures |text| <= size && text == data[..|text|] && (|text| < size ==> data[|text|] == 0)
  {
    assert size < MSG_STR_SIZE_MAX ==> VersionBuffer(data, size)[size] == 0;
    forall i | 0 <= i < |text| ensures text[i] == VersionBuffer(data, size)[i] {
      assert text[i] == (text + [0])[i];
    }
    assert (text + [0])[|text|] == VersionBuffer(data, size)[|text|];
  }

  /** `msg_std_fw_version`; the text is what the log message shows. */
  method FwVersionCallback(buf: array<byte>, pos: nat, size: byte) returns (text: seq<byte>)
    requires pos + MAX_DATA_SIZE <= buf.Length
    requires VersionFits(buf[pos..pos + MAX_DATA_SIZE], size)
    ensures size <= MSG_STR_SIZE_MAX && 0 !in text
    ensures text + [0] <= VersionBuffer(buf[pos..pos + MAX_DATA_SIZE], size)
    ensures var data := buf[pos..pos + MAX_DATA_SIZE];
            |text| <= size && text == data[..|text|] && (|text| < size ==> data[|text|] == 0)
  {
    ghost var data := buf[pos..pos + MAX_DATA_SIZE];
    VersionFitsIff(data, size);
    var fwVerBuf := new byte[MSG_STR_SIZE_MAX](_ => 0);
    forall i | 0 <= i < size {
      fwVerBuf[i] := buf[pos + i];
    }
    assert fwVerBuf[..] == VersionBuffer(data, size);
    text := StringIn(fwVerBuf);
    VersionText(data, size, text);
  }

  /** The string a buffer holds, as `%s` reads it. */
  method StringIn(buf: array<byte>) returns (text: seq<byte>)
    requires 0 in buf[..]
    ensures 0 !in text && text + [0] <= buf[..]
  {
    ghost var end: nat :| end < buf.Length && buf[end] == 0;
    var n := 0;
    while buf[n] != 0
      invariant 0 <= n <= end
      invariant forall i :: 0 <= i < n ==> buf[i] != 0
      decreases end - n
    {
      n := n + 1;
    }
    text := buf[..n];
    assert text + [0] == buf[..][..n + 1];
  }

  // ---------------------------------------------------------------------------------------
  // What the callbacks do
  // ---------------------------------------------------------------------------------------

  /** One bus: its transmit side, and per channel the receive side. */
  datatype Side = Side(bus: Bus, receivers: seq<Receiver>)

  datatype MbusState = MbusState(can: Side, lin: Side)

  /** The channels are numbered alike on both sides, and linked nodes belong to them. Nothing is
      asked of queues, echo slots or counters: calls of start_xmit may be under way, channels may
      be closed or wedged. */
  predicate SideOk(s: Side) {
    InRange(s.bus) && |s.receivers| == |s.bus.chans|
  }

  predicate Ok(m: MbusState) {
    SideOk(m.can) && SideOk(m.lin)
  }

  predicate IsCan(c: Callback) {
    c.CanStatus? || c.CanSend? || c.CanRecv?
  }

  predicate IsLin(c: Callback) {
    c.LinStatus? || c.LinSend? || c.LinRecv? || c.LinVolt?
  }

  type FullCall = c: Call<Callback> | |c.data| == MAX_DATA_SIZE
    witness Call(FwVersion, seq(MAX_DATA_SIZE, _ => 0), 0, 0)

  function Deliver(s: Side, iface: byte, r: Received): Side
    requires iface < |s.receivers|
  {
    s.(receivers := s.receivers[iface := Took(s.receivers[iface], r)])
  }

  /** A CAN callback. A frame for an interface the device does not have is ignored. */
  function ApplyCan(s: Side, c: FullCall, unset: nat): (r: Side)
    requires SideOk(s)
    ensures SideOk(r)
  {
    match c.callback
    case CanSend => s.(bus := HandleStatus(s.bus, c.data[0], unset))
    case CanRecv =>
      if c.data[0] >= |s.receivers| then s
      else Deliver(s, c.data[0], Decode(c.data, s.receivers[c.data[0]].len8Mode))
    case _ => s
  }

  /** The effect of a callback is defined: a version text fits its buffer, and a LIN frame for one of
      n channels has a length byte that fits the frame it is copied into. */
  predicate CallDefined(n: nat, c: FullCall) {
    && (c.callback.FwVersion? ==> VersionFits(c.data, c.size))
    && (c.callback.LinRecv? && c.data[0] < n ==> c.data[6] <= LIN_MAX_DLEN)
  }

  /** A LIN callback. The voltage handler of this device has no voltage device to report to. */
  function ApplyLin(s: Side, c: FullCall, unset: nat): (r: Side)
    requires SideOk(s) && CallDefined(|s.receivers|, c)
    ensures SideOk(r) && |r.receivers| == |s.receivers|
  {
    match c.callback
    case LinSend => s.(bus := HandleStatus(s.bus, c.data[0], unset))
    case LinRecv =>
      if c.data[0] >= |s.receivers| then s
      else Deliver(s, c.data[0], LinDecode(c.data, s.receivers[c.data[0]].len8Mode).value)
    case _ => s
  }

  function Apply(m: MbusState, c: FullCall, unset: nat): (r: MbusState)
    requires Ok(m) && CallDefined(|m.lin.receivers|, c)
    ensures Ok(r) && |r.lin.receivers| == |m.lin.receivers|
  {
    if IsCan(c.callback) then m.(can := ApplyCan(m.can, c, unset))
    else if IsLin(c.callback) then m.(lin := ApplyLin(m.lin, c, unset))
    else m
  }

  function ApplyAll(m: MbusState, calls: seq<FullCall>, unset: nat): (r: MbusState)
    requires Ok(m) && forall k :: 0 <= k < |calls| ==> CallDefined(|m.lin.receivers|, calls[k])
    ensures Ok(r) && |r.lin.receivers| == |m.lin.receivers|
  {
    if calls == [] then m
    else Apply(ApplyAll(m, calls[..|calls| - 1], unset), calls[|calls| - 1], unset)
  }

  function HandlerCalls(slot: Slot): (calls: seq<FullCall>) {
    var calls := SlotCalls(MBUS_HANDLERS, slot);
    DataIsFull(MBUS_HANDLERS, slot);
    calls
  }

  lemma {:induction false} DataIsFull(handlers: seq<GuruMsg<Callback>>, slot: Slot)
    ensures forall k :: 0 <= k < |SlotCalls(handlers, slot)| ==>
              |SlotCalls(handlers, slot)[k].data| == MAX_DATA_SIZE
  {
    if handlers != [] {
      DataIsFull(handlers[..|handlers| - 1], slot);
    }
  }

  /** The driver's reaction to the message is defined on a device with n LIN channels. */
  predicate SlotDefined(n: nat, slot: Slot) {
    && (MsgId(slot) == MSG_GET_VERSION ==> VersionFits(MsgData(slot), MsgCount(slot)))
    && (MsgId(slot) == LIN_MSG_RECV && slot[HEADER_SIZE] < n ==> slot[HEADER_SIZE + 6] <= LIN_MAX_DLEN)
  }

  /** That is so exactly when it is defined for each callback the message runs. A version message
      that overruns the text buffer or does not end in it has no defined effect, and neither has a
      LIN frame for an existing channel whose length byte exceeds 8. */
  lemma SlotDefinedIff(n: nat, slot: Slot)
    ensures SlotDefined(n, slot) <==>
            forall k :: 0 <= k < |HandlerCalls(slot)| ==> CallDefined(n, HandlerCalls(slot)[k])
  {
    SlotCallsExact(MBUS_HANDLERS, slot);
    forall k | 0 <= k < |HandlerCalls(slot)|
      ensures HandlerCalls(slot)[k].callback.LinRecv? ==> MsgId(slot) == LIN_MSG_RECV
      ensures HandlerCalls(slot)[k].callback.FwVersion? ==> MsgId(slot) == MSG_GET_VERSION
      ensures HandlerCalls(slot)[k].data == MsgData(slot) && HandlerCalls(slot)[k].size == MsgCount(slot)
    {
      HandlerIds(Firing(MBUS_HANDLERS, slot)[k]);
      assert Fires(MBUS_HANDLERS[Firing(MBUS_HANDLERS, slot)[k]], slot);
    }
    if MsgId(slot) == LIN_MSG_RECV {
      assert MBUS_HANDLERS[14] == GuruMsg(LIN_MSG_RECV, 0, Variable, Some(LinRecv));
      OnlyCall(slot, 14);
      assert HandlerCalls(slot)[0].callback == LinRecv;
    } else if MsgId(slot) == MSG_GET_VERSION {
      assert MBUS_HANDLERS[0] == GuruMsg(MSG_GET_VERSION, 0, Variable, Some(FwVersion));
      OnlyCall(slot, 0);
      assert HandlerCalls(slot)[0].callback == FwVersion;
    }
  }

  lemma HandlerIds(i: nat)
    requires i < |MBUS_HANDLERS|
    ensures MBUS_HANDLERS[i].callback == Some(LinRecv) ==> MBUS_HANDLERS[i].msgId == LIN_MSG_RECV
    ensures MBUS_HANDLERS[i].callback == Some(FwVersion) ==> MBUS_HANDLERS[i].msgId == MSG_GET_VERSION
  {
  }

  /** A message, with what the frame length variable of a reply callback happens to hold. */
  datatype Arrival = Arrival(slot: Slot, unset: nat)

  ghost predicate AllDefined(n: nat, arrivals: seq<Arrival>) {
    forall a :: a in arrivals ==> SlotDefined(n, a.slot)
  }

  /** The device receives one message. */
  function Receive(m: MbusState, a: Arrival): (r: MbusState)
    requires Ok(m) && SlotDefined(|m.lin.receivers|, a.slot)
    ensures Ok(r) && |r.lin.receivers| == |m.lin.receivers|
  {
    SlotDefinedIff(|m.lin.receivers|, a.slot);
    ApplyAll(m, HandlerCalls(a.slot), a.unset)
  }

  ghost function ReceiveAll(m: MbusState, arrivals: seq<Arrival>): (r: MbusState)
    requires Ok(m) && AllDefined(|m.lin.receivers|, arrivals)
    ensures Ok(r) && |r.lin.receivers| == |m.lin.receivers|
  {
    if arrivals == [] then m
    else Receive(ReceiveAll(m, arrivals[..|arrivals| - 1]), arrivals[|arrivals| - 1])
  }

  // ---------------------------------------------------------------------------------------
  // Isolation
  // ---------------------------------------------------------------------------------------

  predicate CanId(id: u16) {
    0x0C00 <= id < 0x0D00
  }

  predicate LinMsgId(id: u16) {
    0x0D00 <= id < 0x0E00
  }

  /** No two registered handlers share an id, and the id tells which bus a handler belongs to. */
  lemma HandlersSeparate()
    ensures forall i, j :: 0 <= i < j < |MBUS_HANDLERS| ==>
              MBUS_HANDLERS[i].msgId != MBUS_HANDLERS[j].msgId
    ensures forall i :: 0 <= i < |MBUS_HANDLERS| ==>
              var h := MBUS_HANDLERS[i];
              h.callback.Some? && (CanId(h.msgId) <==> IsCan(h.callback.value))
              && (LinMsgId(h.msgId) <==> IsLin(h.callback.value))
  {
  }

  /** Any message runs one callback at most, and that of the bus its id belongs to. */
  lemma OneCallbackOfItsBus(slot: Slot)
    ensures |HandlerCalls(slot)| <= 1
    ensures forall k :: 0 <= k < |HandlerCalls(slot)| ==>
              var c := HandlerCalls(slot)[k].callback;
              (CanId(MsgId(slot)) <==> IsCan(c)) && (LinMsgId(MsgId(slot)) <==> IsLin(c))
  {
    HandlersSeparate();
    AtMostOneFires(MBUS_HANDLERS, slot);
    SlotCallsExact(MBUS_HANDLERS, slot);
    forall k | 0 <= k < |HandlerCalls(slot)|
      ensures var c := HandlerCalls(slot)[k].callback;
              (CanId(MsgId(slot)) <==> IsCan(c)) && (LinMsgId(MsgId(slot)) <==> IsLin(c))
    {
      assert Fires(MBUS_HANDLERS[Firing(MBUS_HANDLERS, slot)[k]], slot);
    }
  }

  /** The messages of one bus, in order. */
  function OnlyCan(arrivals: seq<Arrival>): (r: seq<Arrival>)
    ensures forall a :: a in r <==> a in arrivals && CanId(MsgId(a.slot))
  {
    if arrivals == [] then []
    else
      var last := arrivals[|arrivals| - 1];
      OnlyCan(arrivals[..|arrivals| - 1]) + if CanId(MsgId(last.slot)) then [last] else []
  }

  function OnlyLin(arrivals: seq<Arrival>): (r: seq<Arrival>)
    ensures forall a :: a in r <==> a in arrivals && LinMsgId(MsgId(a.slot))
  {
    if arrivals == [] then []
    else
      var last := arrivals[|arrivals| - 1];
      OnlyLin(arrivals[..|arrivals| - 1]) + if LinMsgId(MsgId(last.slot)) then [last] else []
  }

  lemma ReceiveTouchesItsBus(m: MbusState, a: Arrival)
    requires Ok(m) && SlotDefined(|m.lin.receivers|, a.slot)
    ensures !CanId(MsgId(a.slot)) ==> Receive(m, a).can == m.can
    ensures !LinMsgId(MsgId(a.slot)) ==> Receive(m, a).lin == m.lin
  {
    OneCallbackOfItsBus(a.slot);
    ReceiveIsOneCall(m, a);
  }

  /** Receiving is nothing, or the one callback. */
  lemma ReceiveIsOneCall(m: MbusState, a: Arrival)
    requires Ok(m) && SlotDefined(|m.lin.receivers|, a.slot)
    ensures |HandlerCalls(a.slot)| <= 1
    ensures HandlerCalls(a.slot) == [] ==> Receive(m, a) == m
    ensures HandlerCalls(a.slot) != [] ==>
              && CallDefined(|m.lin.receivers|, HandlerCalls(a.slot)[0])
              && Receive(m, a) == Apply(m, HandlerCalls(a.slot)[0], a.unset)
  {
    var calls := HandlerCalls(a.slot);
    OneCallbackOfItsBus(a.slot);
    SlotDefinedIff(|m.lin.receivers|, a.slot);
    if calls != [] {
      assert calls[..|calls| - 1] == [];
      assert ApplyAll(m, calls[..|calls| - 1], a.unset) == m;
    }
  }

  /** Two devices that agree on one bus still agree on it after the same message. */
  lemma ReceiveIsLocal(m: MbusState, m': MbusState, a: Arrival)
    requires Ok(m) && Ok(m') && |m.lin.receivers| == |m'.lin.receivers|
    requires SlotDefined(|m.lin.receivers|, a.slot)
    ensures m.can == m'.can ==> Receive(m, a).can == Receive(m', a).can
    ensures m.lin == m'.lin ==> Receive(m, a).lin == Receive(m', a).lin
  {
    ReceiveIsOneCall(m, a);
    ReceiveIsOneCall(m', a);
  }

  /** Isolation: from every state, after any sequence of messages with a defined effect, each bus is
      where the messages of that bus alone would have taken it, reply queue, echo slots, received frames
      and all counters included. */
  lemma BusesAreIsolated(m: MbusState, arrivals: seq<Arrival>)
    requires Ok(m) && AllDefined(|m.lin.receivers|, arrivals)
    ensures ReceiveAll(m, arrivals).can == ReceiveAll(m, OnlyCan(arrivals)).can
    ensures ReceiveAll(m, arrivals).lin == ReceiveAll(m, OnlyLin(arrivals)).lin
  {
    CanIsIsolated(m, arrivals);
    LinIsIsolated(m, arrivals);
  }

  lemma {:induction false} CanIsIsolated(m: MbusState, arrivals: seq<Arrival>)
    requires Ok(m) && AllDefined(|m.lin.receivers|, arrivals)
    ensures ReceiveAll(m, arrivals).can == ReceiveAll(m, OnlyCan(arrivals)).can
  {
    if arrivals != [] {
      var front, last := arrivals[..|arrivals| - 1], arrivals[|arrivals| - 1];
      CanIsIsolated(m, front);
      if CanId(MsgId(last.slot)) {
        ReceiveIsLocal(ReceiveAll(m, front), ReceiveAll(m, OnlyCan(front)), last);
        ReceiveAppend(m, OnlyCan(front), last);
      } else {
        ReceiveTouchesItsBus(ReceiveAll(m, front), last);
        assert OnlyCan(arrivals) == OnlyCan(front);
      }
    }
  }

  lemma {:induction false} LinIsIsolated(m: MbusState, arrivals: seq<Arrival>)
    requires Ok(m) && AllDefined(|m.lin.receivers|, arrivals)
    ensures ReceiveAll(m, arrivals).lin == ReceiveAll(m, OnlyLin(arrivals)).lin
  {
    if arrivals != [] {
      var front, last := arrivals[..|arrivals| - 1], arrivals[|arrivals| - 1];
      LinIsIsolated(m, front);
      if LinMsgId(MsgId(last.slot)) {
        ReceiveIsLocal(ReceiveAll(m, front), ReceiveAll(m, OnlyLin(front)), last);
        ReceiveAppend(m, OnlyLin(front), last);
      } else {
        ReceiveTouchesItsBus(ReceiveAll(m, front), last);
        assert OnlyLin(arrivals) == OnlyLin(front);
      }
    }
  }

  lemma ReceiveAppend(m: MbusState, arrivals: seq<Arrival>, a: Arrival)
    requires Ok(m) && AllDefined(|m.lin.receivers|, arrivals) && SlotDefined(|m.lin.receivers|, a.slot)
    ensures AllDefined(|m.lin.receivers|, arrivals + [a])
    ensures ReceiveAll(m, arrivals + [a]) == Receive(ReceiveAll(m, arrivals), a)
  {
    assert (arrivals + [a])[..|arrivals|] == arrivals;
  }

  /** Messages of the CAN bus, however many, leave the LIN bus as it was, and the other way round. */
  lemma {:induction false} ForeignMessagesDoNothing(m: MbusState, arrivals: seq<Arrival>)
    requires Ok(m) && AllDefined(|m.lin.receivers|, arrivals)
    ensures (forall a :: a in arrivals ==> CanId(MsgId(a.slot))) ==> ReceiveAll(m, arrivals).lin == m.lin
    ensures (forall a :: a in arrivals ==> LinMsgId(MsgId(a.slot))) ==> ReceiveAll(m, arrivals).can == m.can
  {
    if arrivals != [] {
      var front, last := arrivals[..|arrivals| - 1], arrivals[|arrivals| - 1];
      assert last in arrivals;
      ForeignMessagesDoNothing(m, front);
      ReceiveTouchesItsBus(ReceiveAll(m, front), last);
    }
  }

  /** CAN messages are always defined, so nothing is asked of a sequence of them. */
  lemma CanMessagesAreDefined(n: nat, arrivals: seq<Arrival>)
    requires forall a :: a in arrivals ==> CanId(MsgId(a.slot))
    ensures AllDefined(n, arrivals)
  {
  }

  // ---------------------------------------------------------------------------------------
  // Reaching the right channel
  // ---------------------------------------------------------------------------------------

  /** The call a message with a registered id and an accepted size leads to. */
  lemma OnlyCall(slot: Slot, i: nat)
    requires i < |MBUS_HANDLERS| && Fires(MBUS_HANDLERS[i], slot)
    ensures HandlerCalls(slot) == [CallOf(MBUS_HANDLERS[i], slot)]
  {
    HandlersSeparate();
    AtMostOneFires(MBUS_HANDLERS, slot);
    SlotCallsExact(MBUS_HANDLERS, slot);
    FiringExact(MBUS_HANDLERS, slot);
    assert Firing(MBUS_HANDLERS, slot) == [i];
  }

  /** Without a handler for it a message has no effect. */
  lemma NotCalled(slot: Slot)
    requires forall i :: 0 <= i < |MBUS_HANDLERS| ==> !Fires(MBUS_HANDLERS[i], slot)
    ensures HandlerCalls(slot) == []
  {
    NoneFires(MBUS_HANDLERS, slot);
  }

  /** The messages that have a handler: the version, received frames of either bus, and, of one byte,
      the statuses, and of four bytes the voltage. */
  predicate Accepted(id: u16, count: byte) {
    || id == 0x0001 || id == 0x0C0B || id == 0x0D07 || (id == 0x0D20 && count == 4)
    || (count == 1 && (id == 0x0C0D || id == 0x0C00 || id == 0x0C17 || id == 0x0C06 || id == 0x0C16
                       || id == 0x0C02 || id == 0x0C0A || id == 0x0D08 || id == 0x0D00 || id == 0x0D02
                       || id == 0x0D04 || id == 0x0D06))
  }

  lemma AcceptedMessages(slot: Slot)
    ensures HandlerCalls(slot) != [] <==> Accepted(MsgId(slot), MsgCount(slot))
    ensures Accepted(MsgId(slot), MsgCount(slot)) ==>
              HandlerCalls(slot) == [Call(CallbackFor(MsgId(slot)), MsgData(slot), MsgCount(slot), MsgId(slot))]
  {
    if i :| 0 <= i < |MBUS_HANDLERS| && Fires(MBUS_HANDLERS[i], slot) {
      OnlyCall(slot, i);
      HandlerFor(i);
    } else {
      NotCalled(slot);
      if Accepted(MsgId(slot), MsgCount(slot)) {
        var i := HandlerOf(MsgId(slot), MsgCount(slot));
        assert Fires(MBUS_HANDLERS[i], slot);
      }
    }
  }

  /** Which callback an accepted message runs. */
  function CallbackFor(id: u16): Callback {
    if id == 0x0001 then FwVersion
    else if id == 0x0C0A then CanSend
    else if id == 0x0C0B then CanRecv
    else if id == 0x0D06 then LinSend
    else if id == 0x0D07 then LinRecv
    else if id == 0x0D20 then LinVolt
    else if id < 0x0D00 then CanStatus
    else LinStatus
  }

  lemma HandlerFor(i: nat)
    requires i < |MBUS_HANDLERS|
    ensures var h := MBUS_HANDLERS[i];
            && h.callback == Some(CallbackFor(h.msgId))
            && forall count: byte :: (h.dataCount == count || h.restriction == Variable) ==> Accepted(h.msgId, count)
  {
  }

  lemma HandlerOf(id: u16, count: byte) returns (i: nat)
    requires Accepted(id, count)
    ensures i < |MBUS_HANDLERS|
    ensures var h := MBUS_HANDLERS[i];
            h.msgId == id && (h.dataCount == count || h.restriction == Variable) && h.callback.Some?
  {
    i := if id == 0x0001 then 0
         else if id == 0x0C0D then 1 else if id == 0x0C00 then 2 else if id == 0x0C17 then 3
         else if id == 0x0C06 then 4 else if id == 0x0C16 then 5 else if id == 0x0C02 then 6
         else if id == 0x0C0A then 7 else if id == 0x0C0B then 8 else if id == 0x0D08 then 9
         else if id == 0x0D00 then 10 else if id == 0x0D02 then 11 else if id == 0x0D04 then 12
         else if id == 0x0D06 then 13 else if id == 0x0D07 then 14 else 15;
  }

  /** Messages other than a SEND status and a received frame change neither bus. */
  lemma OtherMessagesDoNothing(m: MbusState, a: Arrival)
    requires Ok(m) && SlotDefined(|m.lin.receivers|, a.slot)
    requires MsgId(a.slot) != 0x0C0A && MsgId(a.slot) != 0x0C0B
    requires MsgId(a.slot) != 0x0D06 && MsgId(a.slot) != 0x0D07
    ensures Receive(m, a) == m
  {
    AcceptedMessages(a.slot);
    ReceiveIsOneCall(m, a);
  }

  /** A one-byte SEND status pops the CAN reply queue with that status; of any other size it is
      refused and nothing changes. */
  lemma CanStatusEffect(m: MbusState, a: Arrival)
    requires Ok(m) && MsgId(a.slot) == 0x0C0A
    ensures Receive(m, a) == if MsgCount(a.slot) == 1
              then m.(can := m.can.(bus := HandleStatus(m.can.bus, a.slot[5], a.unset))) else m
  {
    AcceptedMessages(a.slot);
    ReceiveIsOneCall(m, a);
  }

  /** The same on the LIN bus. */
  lemma LinStatusEffect(m: MbusState, a: Arrival)
    requires Ok(m) && MsgId(a.slot) == 0x0D06
    ensures Receive(m, a) == if MsgCount(a.slot) == 1
              then m.(lin := m.lin.(bus := HandleStatus(m.lin.bus, a.slot[5], a.unset))) else m
  {
    AcceptedMessages(a.slot);
    ReceiveIsOneCall(m, a);
  }

  /** A received CAN frame goes to the channel its first byte names, which counts one packet and the
      frame's length more; if the device has no such channel nothing changes. No other channel, and
      nothing of the transmit side, is concerned. */
  lemma CanRecvEffect(m: MbusState, a: Arrival)
    requires Ok(m) && MsgId(a.slot) == 0x0C0B
    ensures a.slot[5] >= |m.can.receivers| ==> Receive(m, a) == m
    ensures a.slot[5] < |m.can.receivers| ==>
              var r := m.can.receivers[a.slot[5]];
              var frame := Decode(a.slot[5..], r.len8Mode);
              Receive(m, a) == m.(can := m.can.(receivers := m.can.receivers[a.slot[5] :=
                Receiver(r.len8Mode, r.packets + 1, r.bytes + PayloadLen(frame), r.received + [frame])]))
  {
    AcceptedMessages(a.slot);
    ReceiveIsOneCall(m, a);
  }

  /** The same for LIN frames, which count the length byte. */
  lemma LinRecvEffect(m: MbusState, a: Arrival)
    requires Ok(m) && MsgId(a.slot) == 0x0D07 && SlotDefined(|m.lin.receivers|, a.slot)
    ensures a.slot[5] >= |m.lin.receivers| ==> Receive(m, a) == m
    ensures a.slot[5] < |m.lin.receivers| ==>
              var r := m.lin.receivers[a.slot[5]];
              var frame := LinDecode(a.slot[5..], r.len8Mode);
              frame.Some? &&
              Receive(m, a) == m.(lin := m.lin.(receivers := m.lin.receivers[a.slot[5] :=
                Receiver(r.len8Mode, r.packets + 1, r.bytes + a.slot[11], r.received + [frame.value])]))
  {
    AcceptedMessages(a.slot);
    ReceiveIsOneCall(m, a);
    LinDecodedBytes(a.slot[5..], false);
    if a.slot[5] < |m.lin.receivers| {
      LinDecodedBytes(a.slot[5..], m.lin.receivers[a.slot[5]].len8Mode);
    }
  }

  /** A CAN FD frame sent on a channel of the device and relayed by it is received on that channel,
      with identifier, length, flags and data as FdRoundTrip says, and nothing else happens. */
  lemma FdFrameReachesItsChannel(m: MbusState, iface: byte, f: CanFdFrame, stamp: u32, fill: seq<byte>,
                                 unset: nat)
    requires Ok(m) && iface < |m.can.receivers|
    requires f.len <= 64 && |fill| == SLOT_SIZE - HEADER_SIZE - RECV_HEADER_SIZE - f.len
    ensures var slot := Relay(Framed(CAN_MSG_SEND, SendBody(iface, FdHeader(f), f.data[..f.len])),
                              CAN_MSG_RECV, stamp, fill);
            var len := PaddedLen(f.len);
            && f.len <= len && len - f.len <= |fill| && SlotDefined(|m.lin.receivers|, slot)
            && Receive(m, Arrival(slot, unset)) == m.(can := Deliver(m.can, iface,
                 Fd(CanFdFrame(IdAfter(f.canId), len, f.flags % 4,
                               Padded64(f.data[..f.len] + fill[..len - f.len])), stamp * TICK_NS)))
  {
    var slot := Relay(Framed(CAN_MSG_SEND, SendBody(iface, FdHeader(f), f.data[..f.len])),
                      CAN_MSG_RECV, stamp, fill);
    RelayReads(iface, FdHeader(f), f.data[..f.len], stamp, fill);
    FdRoundTrip(iface, f, stamp, fill, m.can.receivers[iface].len8Mode);
    assert MBUS_HANDLERS[8] == GuruMsg(CAN_MSG_RECV, 0, Variable, Some(CanRecv));
    OnlyCall(slot, 8);
    ReceiveIsOneCall(m, Arrival(slot, unset));
  }

  /** A LIN frame sent and relayed is received on its channel, defined exactly when no raw DLC
      overrode its length. */
  lemma LinFrameReachesItsChannel(m: MbusState, iface: byte, f: CanFrame, stamp: u32, fill: seq<byte>,
                                  sendMode: bool, unset: nat)
    requires Ok(m) && iface < |m.lin.receivers|
    requires f.len <= 8 && |fill| == SLOT_SIZE - HEADER_SIZE - LIN_HEADER_SIZE - f.len
    ensures var h := LinHeaderOf(f, sendMode);
            var slot := LinRelay(Framed(LIN_MSG_SEND, LinSendBody(iface, h, f.data[..f.len])), stamp, fill);
            && (SlotDefined(|m.lin.receivers|, slot) <==> !RawDlcOverrides(f, sendMode))
            && (!RawDlcOverrides(f, sendMode) ==>
                  Receive(m, Arrival(slot, unset)) == m.(lin := Deliver(m.lin, iface,
                    Cc(CanFrame(LinIdOf(h), f.len, 0, Padded8(f.data[..f.len])), stamp * TICK_NS))))
  {
    var h := LinHeaderOf(f, sendMode);
    var slot := LinRelay(Framed(LIN_MSG_SEND, LinSendBody(iface, h, f.data[..f.len])), stamp, fill);
    LinRelayReads(iface, h, f.data[..f.len], stamp, fill);
    LinRelayDecodes(iface, h, f.data[..f.len], stamp, fill, m.lin.receivers[iface].len8Mode);
    LinRoundTrip(iface, f, stamp, fill, sendMode, m.lin.receivers[iface].len8Mode);
    assert MBUS_HANDLERS[14] == GuruMsg(LIN_MSG_RECV, 0, Variable, Some(LinRecv));
    assert slot[HEADER_SIZE] == MsgData(slot)[0] == iface;
    assert slot[HEADER_SIZE + 6] == MsgData(slot)[6] == h.dataLen;
    if !RawDlcOverrides(f, sendMode) {
      OnlyCall(slot, 14);
      ReceiveIsOneCall(m, Arrival(slot, unset));
    }
  }
}
