/** The callbacks of the combined device as they act on its objects. */
module MbusDriver {
  import opened Kernel
  import opened Transport
  import opened CanCodec
  import opened LinCodec
  import opened Dispatcher
  import opened TxBus
  import opened TxDriver
  import opened Mbus

  /** `struct mbus_device`. The transmit and the receive side of a network device are separate
      objects here; position i of each sequence is channel i. */
  class MbusDevice {
    const dev: GuruDevice<Callback>
    const can: MsgNet
    const lin: MsgNet
    const canDevs: seq<CanNetDevice>
    const linDevs: seq<LinNetDevice>

    /** `mbus_dev_init`, in its order: the handlers of the standard and the CAN messages, the CAN and
        then the LIN channels, the handlers of the LIN messages. The raw-DLC modes are those the
        channels are configured with. */
    constructor (canModes: seq<bool>, linModes: seq<bool>)
      requires |canModes| == CAN_MBUS_CHANNEL_COUNT && |linModes| == LIN_MBUS_CHANNEL_COUNT
      ensures Valid() && dev.Idle() && dev.msgList == MBUS_HANDLERS
      ensures |canDevs| == |linDevs| == 8
      ensures fresh(dev) && fresh(can.Repr) && fresh(lin.Repr) && fresh(canDevs) && fresh(linDevs)
      ensures can.bus == Bus(seq(CAN_MBUS_CHANNEL_COUNT, i => NEW_CHANNEL), [])
      ensures lin.bus == Bus(seq(LIN_MBUS_CHANNEL_COUNT, i => NEW_CHANNEL), [])
      ensures forall i :: 0 <= i < |canDevs| ==> canDevs[i].Value() == Receiver(canModes[i], 0, 0, [])
      ensures forall i :: 0 <= i < |linDevs| ==> linDevs[i].Value() == Receiver(linModes[i], 0, 0, [])
    {
      var d := new GuruDevice<Callback>();
      MsgStdInit(d);
      var c, cs := InitCan(d, canModes);
      var l, ls := InitLin(d, linModes);
      dev, can, lin, canDevs, linDevs := d, c, l, cs, ls;
    }

    /** The objects are all different, and position i of each sequence is channel i. */
    ghost predicate Valid()
      reads can, can.Repr, lin, lin.Repr
    {
      && can.Valid() && lin.Valid() && can.Repr !! lin.Repr
      && dev !in can.Repr && dev !in lin.Repr
      && |canDevs| == |can.netdev| && |linDevs| == |lin.netdev|
      && Distinct(canDevs) && Distinct(linDevs)
      && (forall i :: 0 <= i < |canDevs| ==> canDevs[i] !in can.Repr && canDevs[i] !in lin.Repr)
      && (forall i :: 0 <= i < |linDevs| ==> linDevs[i] !in can.Repr && linDevs[i] !in lin.Repr)
    }

    ghost function CanSide(): (s: Side)
      requires Valid()
      reads can, can.Repr, lin, lin.Repr, canDevs
      ensures SideOk(s)
    {
      Side(can.bus, seq(|canDevs|, i requires 0 <= i < |canDevs| reads canDevs => canDevs[i].Value()))
    }

    ghost function LinSide(): (s: Side)
      requires Valid()
      reads can, can.Repr, lin, lin.Repr, linDevs
      ensures SideOk(s)
    {
      Side(lin.bus, seq(|linDevs|, i requires 0 <= i < |linDevs| reads linDevs => linDevs[i].Value()))
    }

    /** What a callback sees of the message at `pos`. */
    ghost function Current(c: Callback, buf: array<byte>, pos: nat, size: byte, id: u16): FullCall
      requires pos + MAX_DATA_SIZE <= buf.Length
      reads buf
    {
      Call(c, buf[pos..pos + MAX_DATA_SIZE], size, id)
    }

    /** `canguru_send_callback` of the message layer. */
    method CanSendCallback(buf: array<byte>, pos: nat, unset: nat, ghost size: byte, ghost id: u16)
      requires Valid() && pos + MAX_DATA_SIZE <= buf.Length && buf !in can.Repr
      modifies can.Repr
      ensures Valid()
      ensures CanSide() == ApplyCan(old(CanSide()), Current(CanSend, buf, pos, size, id), unset)
      ensures LinSide() == old(LinSide())
    {
      can.HandleStatus(buf[pos], unset);
    }

    /** `canguru_recv_callback`: a frame goes to the channel its first byte names, if there is one. */
    method CanRecvCallback(buf: array<byte>, pos: nat, unset: nat, ghost size: byte, ghost id: u16)
      requires Valid() && pos + MAX_DATA_SIZE <= buf.Length
      modifies canDevs
      ensures Valid()
      ensures CanSide() == ApplyCan(old(CanSide()), Current(CanRecv, buf, pos, size, id), unset)
      ensures LinSide() == old(LinSide())
    {
      var iface := buf[pos];
      if iface >= |canDevs| {
        return;
      }
      ghost var body := buf[pos..pos + MAX_DATA_SIZE];
      canDevs[iface].NetRecv(buf, pos);
      DecodePrefix(buf[pos..], canDevs[iface].len8Mode);
      assert buf[pos..][..MAX_DATA_SIZE] == body;
    }

    /** `linguru_send_callback` of the message layer. */
    method LinSendCallback(buf: array<byte>, pos: nat, unset: nat, ghost size: byte, ghost id: u16)
      requires Valid() && pos + MAX_DATA_SIZE <= buf.Length && buf !in lin.Repr
      modifies lin.Repr
      ensures Valid()
      ensures LinSide() == ApplyLin(old(LinSide()), Current(LinSend, buf, pos, size, id), unset)
      ensures CanSide() == old(CanSide())
    {
      lin.HandleStatus(buf[pos], unset);
    }

    /** `linguru_recv_callback`. */
    method LinRecvCallback(buf: array<byte>, pos: nat, unset: nat, ghost size: byte, ghost id: u16)
      requires Valid() && pos + MAX_DATA_SIZE <= buf.Length
      requires buf[pos] < |linDevs| ==> buf[pos + 6] <= LIN_MAX_DLEN
      modifies linDevs
      ensures Valid()
      ensures LinSide() == ApplyLin(old(LinSide()), Current(LinRecv, buf, pos, size, id), unset)
      ensures CanSide() == old(CanSide())
    {
      var iface := buf[pos];
      if iface >= |linDevs| {
        return;
      }
      ghost var body := buf[pos..pos + MAX_DATA_SIZE];
      linDevs[iface].NetRecv(buf, pos);
      LinDecodePrefix(buf[pos..], linDevs[iface].len8Mode);
      assert buf[pos..][..MAX_DATA_SIZE] == body;
    }

    ghost function Value(): (m: MbusState)
      requires Valid()
      reads can, can.Repr, lin, lin.Repr, canDevs, linDevs
      ensures Ok(m)
    {
      MbusState(CanSide(), LinSide())
    }

    /** The indirect call of the dispatcher: whatever handler is registered acts on the objects as
        Apply does on the value. */
    method RunCallback(c: Callback, buf: array<byte>, pos: nat, unset: nat, size: byte, ghost id: u16)
      requires Valid() && pos + MAX_DATA_SIZE <= buf.Length
      requires buf !in can.Repr && buf !in lin.Repr
      requires CallDefined(|linDevs|, Current(c, buf, pos, size, id))
      modifies can.Repr, lin.Repr, canDevs, linDevs
      ensures Valid() && Value() == Apply(old(Value()), Current(c, buf, pos, size, id), unset)
    {
      match c
      case FwVersion => var _ := FwVersionCallback(buf, pos, size);
      case CanSend => CanSendCallback(buf, pos, unset, size, id);
      case CanRecv => CanRecvCallback(buf, pos, unset, size, id);
      case LinSend => LinSendCallback(buf, pos, unset, size, id);
      case LinRecv => LinRecvCallback(buf, pos, unset, size, id);
      case _ =>
    }

    /** The message is offered to one handler. */
    method Offer(item: GuruMsg<Callback>, buf: array<byte>, pos: nat, id: u16, count: byte, unset: nat,
                 ghost slot: Slot)
      requires Valid() && pos + SLOT_SIZE <= buf.Length && buf !in can.Repr && buf !in lin.Repr
      requires slot == buf[pos..pos + SLOT_SIZE] && id == MsgId(slot) && count == MsgCount(slot)
      requires Fires(item, slot) ==> CallDefined(|linDevs|, CallOf(item, slot))
      modifies can.Repr, lin.Repr, canDevs, linDevs
      ensures Valid()
      ensures Value() == if Fires(item, slot) then Apply(old(Value()), CallOf(item, slot), unset)
                         else old(Value())
    {
      if item.msgId != id {
        return;
      }
      if item.dataCount == count || item.restriction == Variable {
        if item.callback.Some? {
          assert buf[pos + HEADER_SIZE..pos + HEADER_SIZE + MAX_DATA_SIZE] == MsgData(slot);
          RunCallback(item.callback.value, buf, pos + HEADER_SIZE, unset, count, id);
        }
      }
    }

    /** The device is where the first i handlers took it. */
    ghost predicate Offered(before: MbusState, slot: Slot, unset: nat, i: nat)
      requires Valid() && i <= |MBUS_HANDLERS|
      reads can, can.Repr, lin, lin.Repr, canDevs, linDevs
    {
      && Ok(before) && |before.lin.receivers| == |linDevs| && PrefixDefined(|linDevs|, slot, i)
      && Value() == ApplyAll(before, PrefixCalls(slot, i), unset)
    }

    method OfferNext(item: GuruMsg<Callback>, buf: array<byte>, pos: nat, id: u16, count: byte, unset: nat,
                     ghost slot: Slot, ghost before: MbusState, ghost i: nat)
      requires Valid() && pos + SLOT_SIZE <= buf.Length && buf !in can.Repr && buf !in lin.Repr
      requires slot == buf[pos..pos + SLOT_SIZE] && id == MsgId(slot) && count == MsgCount(slot)
      requires SlotDefined(|linDevs|, slot)
      requires i < |MBUS_HANDLERS| && item == MBUS_HANDLERS[i] && Offered(before, slot, unset, i)
      modifies can.Repr, lin.Repr, canDevs, linDevs
      ensures Valid() && Offered(before, slot, unset, i + 1)
    {
      NextPrefixDefined(|linDevs|, slot, i);
      NextCallDefined(|linDevs|, slot, i);
      NextPrefixApplied(before, slot, i, unset);
      Offer(item, buf, pos, id, count, unset, slot);
    }

    /** The loop of `canguru_process_msg_list`: the handlers are offered the message in turn. */
    method OfferAll(buf: array<byte>, pos: nat, id: u16, count: byte, unset: nat, ghost slot: Slot)
      requires Valid() && dev.msgList == MBUS_HANDLERS
      requires pos + SLOT_SIZE <= buf.Length && buf !in can.Repr && buf !in lin.Repr
      requires slot == buf[pos..pos + SLOT_SIZE] && id == MsgId(slot) && count == MsgCount(slot)
      requires SlotDefined(|linDevs|, slot)
      modifies can.Repr, lin.Repr, canDevs, linDevs
      ensures Valid() && Value() == Receive(old(Value()), Arrival(slot, unset))
    {
      ghost var before := Value();
      var handlers := dev.msgList;
      for i := 0 to |handlers|
        invariant Valid() && Offered(before, slot, unset, i)
      {
        OfferNext(handlers[i], buf, pos, id, count, unset, slot, before, i);
      }
      assert MBUS_HANDLERS[..|MBUS_HANDLERS|] == MBUS_HANDLERS;
    }

    /** `canguru_process_msg_list` on the slot at `pos`, running the handlers: the device ends where
        Receive says. */
    method ProcessMsgList(buf: array<byte>, pos: nat, unset: nat)
      requires Valid() && dev.msgList == MBUS_HANDLERS
      requires pos + SLOT_SIZE <= buf.Length && buf !in can.Repr && buf !in lin.Repr
      requires SlotDefined(|linDevs|, buf[pos..pos + SLOT_SIZE])
      modifies dev`currMsgData, dev`currMsgDataSize, dev`currMsgId
      modifies can.Repr, lin.Repr, canDevs, linDevs
      ensures Valid() && dev.Idle()
      ensures Value() == Receive(old(Value()), Arrival(buf[pos..pos + SLOT_SIZE], unset))
    {
      var id, count := dev.BeginMsg(buf, pos);
      OfferAll(buf, pos, id, count, unset, buf[pos..pos + SLOT_SIZE]);
      dev.EndMsg();
    }

    /** The device is where the first n messages took it. */
    ghost predicate Reached(before: MbusState, arrivals: seq<Arrival>, n: nat)
      requires Valid()
      reads can, can.Repr, lin, lin.Repr, canDevs, linDevs
    {
      && Ok(before) && |before.lin.receivers| == |linDevs| && n <= |arrivals|
      && AllDefined(|linDevs|, arrivals) && AllDefined(|linDevs|, arrivals[..n])
      && Value() == ReceiveAll(before, arrivals[..n])
    }

    method ReceiveNext(buf: array<byte>, pos: nat, unset: nat, ghost before: MbusState,
                       ghost arrivals: seq<Arrival>, ghost n: nat)
      requires Valid() && dev.msgList == MBUS_HANDLERS
      requires pos + SLOT_SIZE <= buf.Length && buf !in can.Repr && buf !in lin.Repr
      requires Reached(before, arrivals, n) && n < |arrivals|
      requires arrivals[n] == Arrival(buf[pos..pos + SLOT_SIZE], unset)
      modifies dev`currMsgData, dev`currMsgDataSize, dev`currMsgId
      modifies can.Repr, lin.Repr, canDevs, linDevs
      ensures Valid() && Reached(before, arrivals, n + 1)
    {
      NextArrival(before, arrivals, n);
      ProcessMsgList(buf, pos, unset);
    }

    /** The loop of `canguru_read_bulk_callback` over the objects: the slots of a buffer are received
        one after another. */
    method DispatchBuffer(buf: array<byte>, length: u32, unset: nat, ghost arrivals: seq<Arrival>)
      requires Valid() && dev.msgList == MBUS_HANDLERS
      requires length <= buf.Length && buf !in can.Repr && buf !in lin.Repr
      requires arrivals == Arrivals(SlotsOf(buf[..], length / SLOT_SIZE), unset)
      requires AllDefined(|linDevs|, arrivals)
      modifies dev`currMsgData, dev`currMsgDataSize, dev`currMsgId
      modifies can.Repr, lin.Repr, canDevs, linDevs
      ensures Valid()
      ensures Value() == ReceiveAll(old(Value()), arrivals)
    {
      ghost var bytes, before, k := buf[..], Value(), length / SLOT_SIZE;
      assert arrivals[..0] == [];
      var pos: u32 := 0;
      ghost var n := 0;
      while Sub32(length, pos) >= SLOT_SIZE
        invariant Valid() && dev.msgList == MBUS_HANDLERS
        invariant pos == n * SLOT_SIZE <= length && n <= k && buf[..] == bytes
        invariant Reached(before, arrivals, n)
        decreases length - pos
      {
        SlotAt(bytes, length, n, pos);
        assert bytes[pos..pos + SLOT_SIZE] == buf[pos..pos + SLOT_SIZE];
        ReceiveNext(buf, pos, unset, before, arrivals, n);
        pos, n := pos + SLOT_SIZE, n + 1;
      }
      assert n == k;
      assert arrivals[..n] == arrivals;
    }
  }

  lemma SlotAt(bytes: seq<byte>, length: nat, n: nat, pos: nat)
    requires pos == n * SLOT_SIZE && pos + SLOT_SIZE <= length <= |bytes|
    ensures n < length / SLOT_SIZE
    ensures SlotsOf(bytes, length / SLOT_SIZE)[n] == bytes[pos..pos + SLOT_SIZE]
  {
  }

  lemma NextArrival(m: MbusState, arrivals: seq<Arrival>, n: nat)
    requires Ok(m) && AllDefined(|m.lin.receivers|, arrivals) && n < |arrivals|
    ensures AllDefined(|m.lin.receivers|, arrivals[..n]) && AllDefined(|m.lin.receivers|, arrivals[..n + 1])
    ensures SlotDefined(|m.lin.receivers|, arrivals[n].slot)
    ensures ReceiveAll(m, arrivals[..n + 1]) == Receive(ReceiveAll(m, arrivals[..n]), arrivals[n])
  {
    var front, a := arrivals[..n], arrivals[n];
    FrontDefined(|m.lin.receivers|, arrivals, n);
    assert arrivals[..n + 1] == front + [a];
    ReceiveAppend(m, front, a);
  }

  lemma FrontDefined(channels: nat, arrivals: seq<Arrival>, n: nat)
    requires AllDefined(channels, arrivals) && n < |arrivals|
    ensures AllDefined(channels, arrivals[..n]) && SlotDefined(channels, arrivals[n].slot)
  {
    assert arrivals[n] in arrivals;
    assert forall a :: a in arrivals[..n] ==> a in arrivals;
  }

  function Arrivals(slots: seq<Slot>, unset: nat): (r: seq<Arrival>)
    ensures |r| == |slots|
    ensures forall i :: 0 <= i < |slots| ==> r[i] == Arrival(slots[i], unset)
  {
    seq(|slots|, i requires 0 <= i < |slots| => Arrival(slots[i], unset))
  }

  /** The calls of the first i handlers. */
  function PrefixCalls(slot: Slot, i: nat): seq<FullCall>
    requires i <= |MBUS_HANDLERS|
  {
    DataIsFull(MBUS_HANDLERS[..i], slot);
    SlotCalls(MBUS_HANDLERS[..i], slot)
  }

  /** The calls of the first i handlers have defined effects. */
  ghost predicate PrefixDefined(n: nat, slot: Slot, i: nat)
    requires i <= |MBUS_HANDLERS|
  {
    forall k :: 0 <= k < |PrefixCalls(slot, i)| ==> CallDefined(n, PrefixCalls(slot, i)[k])
  }

  /** One handler more. */
  lemma NextPrefix(slot: Slot, i: nat)
    requires i < |MBUS_HANDLERS|
    ensures var h := MBUS_HANDLERS[i];
            PrefixCalls(slot, i + 1)
            == PrefixCalls(slot, i) + if Fires(h, slot) then [CallOf(h, slot)] else []
  {
    assert MBUS_HANDLERS[..i + 1][..i] == MBUS_HANDLERS[..i];
  }

  lemma NextCallDefined(n: nat, slot: Slot, i: nat)
    requires i < |MBUS_HANDLERS| && SlotDefined(n, slot)
    ensures Fires(MBUS_HANDLERS[i], slot) ==> CallDefined(n, CallOf(MBUS_HANDLERS[i], slot))
  {
    HandlerIds(i);
    assert MsgData(slot)[0] == slot[HEADER_SIZE] && MsgData(slot)[6] == slot[HEADER_SIZE + 6];
  }

  lemma NextPrefixDefined(n: nat, slot: Slot, i: nat)
    requires i < |MBUS_HANDLERS| && SlotDefined(n, slot) && PrefixDefined(n, slot, i)
    ensures PrefixDefined(n, slot, i + 1)
  {
    NextPrefix(slot, i);
    NextCallDefined(n, slot, i);
  }

  lemma NextPrefixApplied(m: MbusState, slot: Slot, i: nat, unset: nat)
    requires i < |MBUS_HANDLERS| && Ok(m) && SlotDefined(|m.lin.receivers|, slot)
    requires PrefixDefined(|m.lin.receivers|, slot, i) && PrefixDefined(|m.lin.receivers|, slot, i + 1)
    requires Fires(MBUS_HANDLERS[i], slot) ==> CallDefined(|m.lin.receivers|, CallOf(MBUS_HANDLERS[i], slot))
    ensures var h := MBUS_HANDLERS[i];
            var before := ApplyAll(m, PrefixCalls(slot, i), unset);
            ApplyAll(m, PrefixCalls(slot, i + 1), unset)
            == if Fires(h, slot) then Apply(before, CallOf(h, slot), unset) else before
  {
    NextPrefix(slot, i);
    var calls := PrefixCalls(slot, i);
    if Fires(MBUS_HANDLERS[i], slot) {
      assert PrefixCalls(slot, i + 1)[..|calls|] == calls;
    } else {
      assert PrefixCalls(slot, i + 1) == calls;
    }
  }

  /** `mbus_dev_init_can`: first the handlers, then the channels. */
  method InitCan(dev: GuruDevice<Callback>, modes: seq<bool>)
    returns (net: MsgNet, devs: seq<CanNetDevice>)
    requires |modes| == CAN_MBUS_CHANNEL_COUNT
    modifies dev`msgList
    ensures dev.msgList == old(dev.msgList) + CAN_HANDLERS
    ensures net.Valid() && fresh(net.Repr) && net.bus == Bus(seq(CAN_MBUS_CHANNEL_COUNT, i => NEW_CHANNEL), [])
    ensures |devs| == |net.netdev| == |modes| && Distinct(devs) && fresh(devs)
    ensures forall i :: 0 <= i < |devs| ==>
              devs[i] !in net.Repr && devs[i].Value() == Receiver(modes[i], 0, 0, [])
  {
    CanMsgNetInit(dev);
    net := new MsgNet(CAN_MBUS_CHANNEL_COUNT);
    devs := NewCanDevices(modes);
  }

  /** `mbus_dev_init_lin`: first the channels, then the handlers. */
  method InitLin(dev: GuruDevice<Callback>, modes: seq<bool>)
    returns (net: MsgNet, devs: seq<LinNetDevice>)
    requires |modes| == LIN_MBUS_CHANNEL_COUNT
    modifies dev`msgList
    ensures dev.msgList == old(dev.msgList) + LIN_HANDLERS
    ensures net.Valid() && fresh(net.Repr) && net.bus == Bus(seq(LIN_MBUS_CHANNEL_COUNT, i => NEW_CHANNEL), [])
    ensures |devs| == |net.netdev| == |modes| && Distinct(devs) && fresh(devs)
    ensures forall i :: 0 <= i < |devs| ==>
              devs[i] !in net.Repr && devs[i].Value() == Receiver(modes[i], 0, 0, [])
  {
    net := new MsgNet(LIN_MBUS_CHANNEL_COUNT);
    devs := NewLinDevices(modes);
    LinMsgNetInit(dev);
  }

  /** The receive sides of the channels, one per configured mode. */
  method NewCanDevices(modes: seq<bool>) returns (devs: seq<CanNetDevice>)
    ensures |devs| == |modes| && Distinct(devs) && fresh(devs)
    ensures forall i :: 0 <= i < |devs| ==> devs[i].Value() == Receiver(modes[i], 0, 0, [])
  {
    devs := [];
    for idx := 0 to |modes|
      invariant |devs| == idx && Distinct(devs) && fresh(devs)
      invariant forall i :: 0 <= i < idx ==> devs[i].Value() == Receiver(modes[i], 0, 0, [])
    {
      var dev := new CanNetDevice(modes[idx]);
      devs := devs + [dev];
    }
  }

  method NewLinDevices(modes: seq<bool>) returns (devs: seq<LinNetDevice>)
    ensures |devs| == |modes| && Distinct(devs) && fresh(devs)
    ensures forall i :: 0 <= i < |devs| ==> devs[i].Value() == Receiver(modes[i], 0, 0, [])
  {
    devs := [];
    for idx := 0 to |modes|
      invariant |devs| == idx && Distinct(devs) && fresh(devs)
      invariant forall i :: 0 <= i < idx ==> devs[i].Value() == Receiver(modes[i], 0, 0, [])
    {
      var dev := new LinNetDevice(modes[idx]);
      devs := devs + [dev];
    }
  }

  /** Decoding looks at the message body only, not at what follows it in the buffer. */
  lemma DecodePrefix(bytes: seq<byte>, len8Mode: bool)
    requires |bytes| >= MAX_DATA_SIZE
    ensures Decode(bytes, len8Mode) == Decode(bytes[..MAX_DATA_SIZE], len8Mode)
  {
    var body := bytes[..MAX_DATA_SIZE];
    assert bytes[1..5] == body[1..5] && bytes[5..10] == body[5..10] && bytes[10..74] == body[10..74];
  }

  lemma LinDecodePrefix(bytes: seq<byte>, len8Mode: bool)
    requires |bytes| >= MAX_DATA_SIZE
    ensures LinDecode(bytes, len8Mode) == LinDecode(bytes[..MAX_DATA_SIZE], len8Mode)
  {
    var body := bytes[..MAX_DATA_SIZE];
    assert bytes[1..5] == body[1..5] && bytes[5..7] == body[5..7] && bytes[7..15] == body[7..15];
  }
}
