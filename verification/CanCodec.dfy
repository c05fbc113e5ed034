/**
 * CAN frames on the wire: what the driver sends for a frame, what it makes of a received
 * message, and that the two are inverse through the device.
 */
module CanCodec {
  import opened Kernel
  import opened Wire
  import opened Transport
  import opened CanDlc

  const CAN_MSG_SEND: u16 := 0x0C0A
  const CAN_MSG_RECV: u16 := 0x0C0B
  const CAN_EFF_FLAG: u32 := 0x8000_0000
  const CAN_RTR_FLAG: u32 := 0x4000_0000
  const CAN_ERR_FLAG: u32 := 0x2000_0000
  const CAN_STD_IDS: u32 := 0x800
  const CAN_EXT_IDS: u32 := 0x2000_0000
  const CANFD_BRS: byte := 1
  const CANFD_ESI: byte := 2
  const TICK_NS := 100000
  const SEND_HEADER_SIZE := 6
  const RECV_HEADER_SIZE := 10

  function Zeros(n: nat): (s: seq<byte>)
    ensures |s| == n
  {
    seq(n, _ => 0)
  }

  type Data8 = s: seq<byte> | |s| == 8 witness Zeros(8)
  type Data64 = s: seq<byte> | |s| == 64 witness Zeros(64)

  /** Bytes copied to the start of a zeroed buffer. */
  function Padded8(s: seq<byte>): Data8
    requires |s| <= 8
  {
    s + Zeros(8 - |s|)
  }

  function Padded64(s: seq<byte>): Data64
    requires |s| <= 64
  {
    s + Zeros(64 - |s|)
  }

  /** `struct canfd_frame` and `struct can_frame`. */
  datatype CanFdFrame = CanFdFrame(canId: u32, len: byte, flags: byte, data: Data64)
  datatype CanFrame = CanFrame(canId: u32, len: byte, len8Dlc: byte, data: Data8)

  datatype Received =
    | Fd(fd: CanFdFrame, timeNs: nat)
    | Cc(cc: CanFrame, timeNs: nat)

  /** A single-bit mask is set in x. */
  predicate HasFlag(x: nat, mask: nat)
    requires mask > 0
  {
    x / mask % 2 == 1
  }

  /** The identifier that goes into the header: 29 bits of it for an extended frame, else 11. */
  function WireId(canId: u32): u29 {
    if HasFlag(canId, CAN_EFF_FLAG) then canId % CAN_EXT_IDS else canId % CAN_STD_IDS
  }

  /** The flags sit above the 29 bits of the identifier, so setting them adds them. */
  function CanIdOf(id: u29, rtr: bool, ext: bool): u32 {
    id + (if rtr then CAN_RTR_FLAG else 0) + (if ext then CAN_EFF_FLAG else 0)
  }

  function FdHeader(f: CanFdFrame): CanHeader {
    CanHeader(WireId(f.canId), FdLen2Dlc(f.len), HasFlag(f.canId, CAN_EFF_FLAG),
              HasFlag(f.canId, CAN_RTR_FLAG), HasFlag(f.flags, CANFD_ESI), true,
              HasFlag(f.flags, CANFD_BRS), 0)
  }

  function CcHeader(f: CanFrame, len8Mode: bool): CanHeader
    requires f.len <= 8
  {
    CanHeader(WireId(f.canId), GetCcDlc(f.len, f.len8Dlc, len8Mode), HasFlag(f.canId, CAN_EFF_FLAG),
              HasFlag(f.canId, CAN_RTR_FLAG), false, false, false, 0)
  }

  /** The message body for one frame. */
  function SendBody(iface: byte, h: CanHeader, data: seq<byte>): (s: seq<byte>)
    ensures |s| == SEND_HEADER_SIZE + |data|
  {
    [iface] + Pack(h) + data
  }

  /** `canguru_can_fd_send`. Longer frames never get here: the CAN core drops them. */
  method CanFdSend(channelIdx: byte, frame: CanFdFrame, k: Transfer)
    returns (err: int, wire: array?<byte>)
    requires frame.len <= 64
    ensures err == TransferError(k)
    ensures err == 0 <==> wire != null
    ensures err == 0 ==> wire[..] == Framed(CAN_MSG_SEND,
                           SendBody(channelIdx, FdHeader(frame), frame.data[..frame.len]))
  {
    var header := CanHeader(0, 0, false, false, false, false, false, 0);
    header := header.(fd := true);
    header := header.(esi := HasFlag(frame.flags, CANFD_ESI));
    header := header.(brs := HasFlag(frame.flags, CANFD_BRS));
    header := header.(dlc := FdLen2Dlc(frame.len));
    header := header.(rtr := HasFlag(frame.canId, CAN_RTR_FLAG));
    if HasFlag(frame.canId, CAN_EFF_FLAG) {
      header := header.(ext := true, id := frame.canId % CAN_EXT_IDS);
    } else {
      header := header.(id := frame.canId % CAN_STD_IDS);
    }
    err, wire := SendStruct(channelIdx, header, frame.data, frame.len, k);
  }

  /** `canguru_can_classic_send`. */
  method CanClassicSend(channelIdx: byte, frame: CanFrame, len8Mode: bool, k: Transfer)
    returns (err: int, wire: array?<byte>)
    requires frame.len <= 8
    ensures err == TransferError(k)
    ensures err == 0 <==> wire != null
    ensures err == 0 ==> wire[..] == Framed(CAN_MSG_SEND,
                           SendBody(channelIdx, CcHeader(frame, len8Mode), frame.data[..frame.len]))
  {
    var header := CanHeader(0, 0, false, false, false, false, false, 0);
    CcLenRoundTrip(frame.len, frame.len8Dlc, len8Mode, len8Mode);
    header := header.(dlc := GetCcDlc(frame.len, frame.len8Dlc, len8Mode));
    header := header.(rtr := HasFlag(frame.canId, CAN_RTR_FLAG));
    if HasFlag(frame.canId, CAN_EFF_FLAG) {
      header := header.(ext := true, id := frame.canId % CAN_EXT_IDS);
    } else {
      header := header.(id := frame.canId % CAN_STD_IDS);
    }
    err, wire := SendStruct(channelIdx, header, frame.data, frame.len, k);
  }

  /** Lays out a zeroed `struct can_send_msg` and sends its header and the first `len` bytes. */
  method SendStruct(channelIdx: byte, header: CanHeader, data: seq<byte>, len: byte, k: Transfer)
    returns (err: int, wire: array?<byte>)
    requires len <= |data| && len <= 64
    ensures err == TransferError(k)
    ensures err == 0 <==> wire != null
    ensures err == 0 ==> wire[..] == Framed(CAN_MSG_SEND, SendBody(channelIdx, header, data[..len]))
  {
    var msg := new byte[SEND_HEADER_SIZE + 64](_ => 0);
    var packed := Pack(header);
    msg[0] := channelIdx;
    msg[1], msg[2], msg[3], msg[4], msg[5] := packed[0], packed[1], packed[2], packed[3], packed[4];
    forall i | 0 <= i < len {
      msg[SEND_HEADER_SIZE + i] := data[i];
    }
    assert msg[..SEND_HEADER_SIZE + len] == SendBody(channelIdx, header, data[..len]);
    err, wire := GuruSendData(CAN_MSG_SEND, msg, SEND_HEADER_SIZE + len, k);
  }

  /** The identifier and the two flag bits of a frame, as numbers. */
  lemma IdBits(canId: u32)
    ensures var ext, rtr := canId / 0x8000_0000, canId / 0x4000_0000 % 2;
            && ext < 2 && Bit(HasFlag(canId, CAN_EFF_FLAG)) == ext && Bit(HasFlag(canId, CAN_RTR_FLAG)) == rtr
            && WireId(canId) == if ext == 1 then canId % 0x2000_0000 else canId % 0x800
  {
  }

  /** The bytes of a classic frame on the wire: frame header; interface; 29 bits of identifier, four of
      data length code, extended and remote bit; every other bit zero; data. */
  lemma ClassicFrameBytes(iface: byte, f: CanFrame, len8Mode: bool)
    requires f.len <= 8
    ensures var ext, rtr := f.canId / 0x8000_0000, f.canId / 0x4000_0000 % 2;
            var id := if ext == 1 then f.canId % 0x2000_0000 else f.canId % 0x800;
            var dlc := if len8Mode && f.len == 8 && 8 < f.len8Dlc <= 15 then f.len8Dlc else f.len;
            var last := dlc / 8 + 2 * ext + 4 * rtr;
            && 0 <= last < 8 && 0 <= id / 0x100_0000 + 32 * (dlc % 8) < 0x100
            && Framed(CAN_MSG_SEND, SendBody(iface, CcHeader(f, len8Mode), f.data[..f.len])) ==
               [0x58, 0, 0x0A, 0x0C, 6 + f.len, iface, id % 0x100, id / 0x100 % 0x100,
                id / 0x1_0000 % 0x100, id / 0x100_0000 + 32 * (dlc % 8), last] + f.data[..f.len]
  {
    IdBits(f.canId);
    var h := CcHeader(f, len8Mode);
    PackLayout(h);
    FramedBytes(CAN_MSG_SEND, SendBody(iface, h, f.data[..f.len]));
  }

  /** The same for CAN FD: the code is that of the length; the FD bit is set, ESI and BRS are those of
      the frame's flags, and the two reserved bits are zero. */
  lemma FdFrameBytes(iface: byte, f: CanFdFrame)
    requires f.len <= 64
    ensures var ext, rtr := f.canId / 0x8000_0000, f.canId / 0x4000_0000 % 2;
            var id := if ext == 1 then f.canId % 0x2000_0000 else f.canId % 0x800;
            var dlc := FdLen2Dlc(f.len);
            var last := dlc / 8 + 2 * ext + 4 * rtr + 8 * (f.flags / 2 % 2) + 16 + 32 * (f.flags % 2);
            && 0 <= last < 0x40 && 0 <= id / 0x100_0000 + 32 * (dlc % 8) < 0x100
            && Framed(CAN_MSG_SEND, SendBody(iface, FdHeader(f), f.data[..f.len])) ==
               [0x58, 0, 0x0A, 0x0C, 6 + f.len, iface, id % 0x100, id / 0x100 % 0x100,
                id / 0x1_0000 % 0x100, id / 0x100_0000 + 32 * (dlc % 8), last] + f.data[..f.len]
  {
    IdBits(f.canId);
    var h := FdHeader(f);
    PackLayout(h);
    FramedBytes(CAN_MSG_SEND, SendBody(iface, h, f.data[..f.len]));
  }

  // ---------------------------------------------------------------------------------------
  // Receiving
  // ---------------------------------------------------------------------------------------

  /** What a received message body means: interface, time stamp, header, then the data bytes. */
  function Decode(body: seq<byte>, len8Mode: bool): Received
    requires |body| >= RECV_HEADER_SIZE + 64
  {
    DecodeParts(FromLE(body[1..5]) * TICK_NS, Unpack(body[5..10]), body[10..74], len8Mode)
  }

  function DecodeParts(timeNs: nat, h: CanHeader, payload: Data64, len8Mode: bool): Received {
    var canId := CanIdOf(h.id, h.rtr, h.ext);
    if h.fd then
      var flags := (if h.esi then CANFD_ESI else 0) + (if h.brs then CANFD_BRS else 0);
      var len := FdDlc2Len(h.dlc);
      Fd(CanFdFrame(canId, len, flags, Padded64(payload[..len])), timeNs)
    else
      var (len, raw) := SetCcLen(h.dlc, len8Mode);
      Cc(CanFrame(canId, len, raw, Padded8(payload[..len])), timeNs)
  }

  function PayloadLen(r: Received): byte {
    match r
    case Fd(f, _) => f.len
    case Cc(f, _) => f.len
  }

  /** The receive side of a channel as a value. */
  datatype Receiver = Receiver(len8Mode: bool, packets: nat, bytes: nat, received: seq<Received>)

  /** One frame more. */
  function Took(r: Receiver, frame: Received): Receiver {
    r.(packets := r.packets + 1, bytes := r.bytes + PayloadLen(frame), received := r.received + [frame])
  }

  /** What any received message body means, byte by byte: time stamp in ticks of 100 microseconds,
      identifier with the remote and the extended flag, length from the code, ESI and BRS, and the
      data bytes, zero behind them. */
  lemma DecodedBytes(body: seq<byte>, len8Mode: bool)
    requires |body| >= RECV_HEADER_SIZE + 64
    ensures var b1: nat, b2: nat, b3: nat, b4: nat := body[1], body[2], body[3], body[4];
            var b5: nat, b6: nat, b7: nat, b8: nat, b9: nat := body[5], body[6], body[7], body[8], body[9];
            var r, code := Decode(body, len8Mode), b8 / 32 + 8 * (b9 % 2);
            && r.timeNs == (b1 + 0x100 * b2 + 0x1_0000 * b3 + 0x100_0000 * b4) * 100000
            && (r.Fd? <==> b9 / 16 % 2 == 1)
            && code < 16
            && PayloadLen(r) == (if r.Fd? then FdDlc2Len(code) else if code < 8 then code else 8)
            && CanIdIn(r) == b5 + 0x100 * b6 + 0x1_0000 * b7 + 0x100_0000 * (b8 % 32)
                             + 0x4000_0000 * (b9 / 4 % 2) + 0x8000_0000 * (b9 / 2 % 2)
            && (r.Fd? ==> r.fd.flags == 2 * (b9 / 8 % 2) + b9 / 32 % 2)
            && (r.Cc? ==> r.cc.len8Dlc == if len8Mode && code > 8 then code else 0)
            && forall i :: 0 <= i < |DataIn(r)| ==>
                 DataIn(r)[i] == if i < PayloadLen(r) then body[10 + i] else 0
  {
    UnpackLayout(body[5..10]);
    FromLEFour(body[1..5]);
    var h, payload := Unpack(body[5..10]), body[10..74];
    var r := Decode(body, len8Mode);
    forall i | 0 <= i < |DataIn(r)|
      ensures DataIn(r)[i] == if i < PayloadLen(r) then body[10 + i] else 0
    {
      assert i < PayloadLen(r) ==> payload[i] == body[10 + i];
    }
  }

  function CanIdIn(r: Received): u32 {
    if r.Fd? then r.fd.canId else r.cc.canId
  }

  function DataIn(r: Received): seq<byte> {
    if r.Fd? then r.fd.data else r.cc.data
  }

  /** The receive side of a CAN network device. */
  class CanNetDevice {
    const len8Mode: bool
    var rxPackets: nat
    var rxBytes: nat
    var received: seq<Received>

    constructor (len8Mode: bool)
      ensures Value() == Receiver(len8Mode, 0, 0, [])
    {
      this.len8Mode := len8Mode;
      rxPackets, rxBytes, received := 0, 0, [];
    }

    ghost function Value(): Receiver
      reads this
    {
      Receiver(len8Mode, rxPackets, rxBytes, received)
    }

    /** `canguru_net_recv`, on the message body that starts at `pos` of a receive buffer. */
    method NetRecv(buf: array<byte>, pos: nat)
      requires pos + RECV_HEADER_SIZE + 64 <= buf.Length
      modifies this
      ensures Value() == Took(old(Value()), Decode(buf[pos..], len8Mode))
      ensures received == old(received) + [Decode(buf[pos..], len8Mode)]
      ensures rxPackets == old(rxPackets) + 1
      ensures rxBytes == old(rxBytes) + PayloadLen(Decode(buf[pos..], len8Mode))
    {
      ghost var body := buf[pos..];
      assert buf[pos + 1..pos + 5] == body[1..5] && buf[pos + 5..pos + 10] == body[5..10];
      assert buf[pos + 10..pos + 74] == body[10..74];
      var timeNs := FromLE(buf[pos + 1..pos + 5]) * TICK_NS;
      var h := Unpack(buf[pos + 5..pos + 10]);
      var payload := buf[pos + 10..pos + 74];
      var skb;
      if h.fd {
        skb := FillFd(timeNs, h, payload);
      } else {
        skb := FillCc(timeNs, h, payload, len8Mode);
      }
      rxPackets := rxPackets + 1;
      rxBytes := rxBytes + PayloadLen(skb);
      received := received + [skb];
    }
  }

  /** The CAN FD branch of `canguru_net_recv`, filling in a zeroed frame. */
  method FillFd(timeNs: nat, h: CanHeader, payload: Data64) returns (skb: Received)
    requires h.fd
    ensures forall len8Mode :: skb == DecodeParts(timeNs, h, payload, len8Mode)
  {
    var dataLen := FdDlc2Len(h.dlc);
    var frame := CanFdFrame(h.id, dataLen, 0, Zeros(64));
    if h.esi {
      frame := frame.(flags := frame.flags + CANFD_ESI);
    }
    if h.brs {
      frame := frame.(flags := frame.flags + CANFD_BRS);
    }
    if h.rtr {
      frame := frame.(canId := frame.canId + CAN_RTR_FLAG);
    }
    if h.ext {
      frame := frame.(canId := frame.canId + CAN_EFF_FLAG);
    }
    frame := frame.(data := Padded64(payload[..dataLen]));
    return Fd(frame, timeNs);
  }

  /** The classic branch of `canguru_net_recv`. */
  method FillCc(timeNs: nat, h: CanHeader, payload: Data64, len8Mode: bool) returns (skb: Received)
    requires !h.fd
    ensures skb == DecodeParts(timeNs, h, payload, len8Mode)
  {
    var dataLen := CcDlc2Len(h.dlc);
    var frame := CanFrame(h.id, 0, 0, Zeros(8));
    var (len, raw) := SetCcLen(h.dlc, len8Mode);
    frame := frame.(len := len, len8Dlc := raw);
    if h.rtr {
      frame := frame.(canId := frame.canId + CAN_RTR_FLAG);
    }
    if h.ext {
      frame := frame.(canId := frame.canId + CAN_EFF_FLAG);
    }
    frame := frame.(data := Padded8(payload[..dataLen]));
    return Cc(frame, timeNs);
  }

  // ---------------------------------------------------------------------------------------
  // Round trips
  // ---------------------------------------------------------------------------------------

  /** A device that hands a sent frame back as a received one: it reads the framed message,
      inserts a time stamp behind the interface byte, and fills the slot up with `fill`. */
  function Relay(wire: seq<byte>, id: u16, stamp: u32, fill: seq<byte>): (slot: seq<byte>)
    requires |wire| >= HEADER_SIZE + 1
    requires |wire| + 4 + |fill| == SLOT_SIZE
    ensures |slot| == SLOT_SIZE
  {
    var body := MsgData(wire);
    [PREAMBLE, 1] + LE(id, 2) + [|body| + 4] + [body[0]] + LE(stamp, 4) + body[1..] + fill
  }

  /** What the slot holds. The body fits the slot, and its length the count byte. */
  lemma RelayReads(iface: byte, h: CanHeader, data: seq<byte>, stamp: u32, fill: seq<byte>)
    requires |data| <= 64 && |fill| == SLOT_SIZE - HEADER_SIZE - RECV_HEADER_SIZE - |data|
    ensures var slot := Relay(Framed(CAN_MSG_SEND, SendBody(iface, h, data)), CAN_MSG_RECV, stamp, fill);
            && MsgId(slot) == CAN_MSG_RECV && MsgCount(slot) == RECV_HEADER_SIZE + |data|
            && MsgData(slot)[0] == iface && MsgData(slot)[1..5] == LE(stamp, 4)
            && MsgData(slot)[5..10] == Pack(h) && MsgData(slot)[10..] == data + fill
            && |MsgData(slot)| == MAX_DATA_SIZE
            && FromLE(MsgData(slot)[1..5]) == stamp && Unpack(MsgData(slot)[5..10]) == h
  {
    var body := SendBody(iface, h, data);
    FramedReads(CAN_MSG_SEND, body);
    LETwo(CAN_MSG_RECV);
    var slot := Relay(Framed(CAN_MSG_SEND, body), CAN_MSG_RECV, stamp, fill);
    assert body[1..] == Pack(h) + data;
    assert MsgData(slot) == [iface] + LE(stamp, 4) + Pack(h) + data + fill;
    Pow256Values();
    FromLEofLE(stamp, 4);
    PackBijection(h, Pack(h));
  }

  lemma RelayDecodes(iface: byte, h: CanHeader, data: seq<byte>, stamp: u32, fill: seq<byte>,
                     len8Mode: bool)
    requires |data| <= 64 && |fill| == SLOT_SIZE - HEADER_SIZE - RECV_HEADER_SIZE - |data|
    ensures var slot := Relay(Framed(CAN_MSG_SEND, SendBody(iface, h, data)), CAN_MSG_RECV, stamp, fill);
            Decode(MsgData(slot), len8Mode)
            == DecodeParts(stamp * TICK_NS, h, (data + fill)[..64], len8Mode)
  {
    RelayReads(iface, h, data, stamp, fill);
    var slot := Relay(Framed(CAN_MSG_SEND, SendBody(iface, h, data)), CAN_MSG_RECV, stamp, fill);
    assert MsgData(slot)[10..74] == MsgData(slot)[10..][..64];
  }

  lemma FlagsSurvive(flags: byte)
    ensures flags % 4 == (if HasFlag(flags, CANFD_ESI) then CANFD_ESI else 0)
                         + (if HasFlag(flags, CANFD_BRS) then CANFD_BRS else 0)
  {
  }

  /** A normalised identifier: no error flag, and within the mask its format allows. */
  predicate NormalId(canId: u32) {
    && !HasFlag(canId, CAN_ERR_FLAG)
    && (!HasFlag(canId, CAN_EFF_FLAG) ==> canId % CAN_EXT_IDS < CAN_STD_IDS)
  }

  function IdAfter(canId: u32): u32 {
    CanIdOf(WireId(canId), HasFlag(canId, CAN_RTR_FLAG), HasFlag(canId, CAN_EFF_FLAG))
  }

  /** The identifier survives exactly when it is normalised. */
  lemma IdSurvivesIffNormal(canId: u32)
    ensures IdAfter(canId) == canId <==> NormalId(canId)
  {
    var low, top := canId % CAN_EXT_IDS, canId / CAN_EXT_IDS;
    assert canId == low + CAN_EXT_IDS * top && top < 8;
    assert canId / CAN_RTR_FLAG == top / 2 && canId / CAN_EFF_FLAG == top / 4;
    assert canId % CAN_STD_IDS == low % CAN_STD_IDS;
  }

  /** CAN FD through bytes, framing, relay and receive, for every identifier and every length up
      to 64: what comes back is the frame with its identifier cut to its format, its length
      rounded up to the next one of the table, the added bytes taken from the relay, and of the
      flags ESI and BRS. */
  lemma FdRoundTrip(iface: byte, f: CanFdFrame, stamp: u32, fill: seq<byte>, len8Mode: bool)
    requires f.len <= 64 && |fill| == SLOT_SIZE - HEADER_SIZE - RECV_HEADER_SIZE - f.len
    ensures var slot := Relay(Framed(CAN_MSG_SEND, SendBody(iface, FdHeader(f), f.data[..f.len])),
                              CAN_MSG_RECV, stamp, fill);
            var len := PaddedLen(f.len);
            && len >= f.len && len - f.len <= |fill|
            && Decode(MsgData(slot), len8Mode)
               == Fd(CanFdFrame(IdAfter(f.canId), len, f.flags % 4,
                                Padded64(f.data[..f.len] + fill[..len - f.len])),
                     stamp * TICK_NS)
  {
    var data := f.data[..f.len];
    var h := FdHeader(f);
    RelayDecodes(iface, h, data, stamp, fill, len8Mode);
    PaddedLenIsLeast(f.len);
    FlagsSurvive(f.flags);
    var len := PaddedLen(f.len);
    assert (data + fill)[..64][..len] == data + fill[..len - f.len];
  }

  lemma ZerosPad(data: seq<byte>, fill: seq<byte>, n: nat)
    requires fill == Zeros(|fill|) && n <= |fill| && |data| + n <= 64
    ensures Padded64(data + fill[..n]) == Padded64(data)
  {
  }

  /** So a frame comes back as it was, bytes past its length aside, exactly when its identifier is
      normalised, its length is in the table and no flag but ESI and BRS is set. */
  lemma FdIdentityIff(iface: byte, f: CanFdFrame, stamp: u32, len8Mode: bool)
    requires f.len <= 64
    ensures var fill := Zeros(SLOT_SIZE - HEADER_SIZE - RECV_HEADER_SIZE - f.len);
            var slot := Relay(Framed(CAN_MSG_SEND, SendBody(iface, FdHeader(f), f.data[..f.len])),
                              CAN_MSG_RECV, stamp, fill);
            var r := Decode(MsgData(slot), len8Mode);
            && r.Fd?
            && r.fd.data == Padded64(f.data[..f.len])
            && (r.fd.canId == f.canId && r.fd.len == f.len && r.fd.flags == f.flags
                <==> NormalId(f.canId) && IsFdLength(f.len) && f.flags < 4)
  {
    var fill := Zeros(SLOT_SIZE - HEADER_SIZE - RECV_HEADER_SIZE - f.len);
    FdRoundTrip(iface, f, stamp, fill, len8Mode);
    IdSurvivesIffNormal(f.canId);
    PaddedLenIsLeast(f.len);
    ZerosPad(f.data[..f.len], fill, PaddedLen(f.len) - f.len);
  }

  /** Classic CAN the same way, for either setting of the raw-DLC mode at both ends. */
  lemma ClassicRoundTrip(iface: byte, f: CanFrame, stamp: u32, fill: seq<byte>,
                         sendMode: bool, recvMode: bool)
    requires f.len <= 8 && |fill| == SLOT_SIZE - HEADER_SIZE - RECV_HEADER_SIZE - f.len
    ensures var slot := Relay(Framed(CAN_MSG_SEND, SendBody(iface, CcHeader(f, sendMode), f.data[..f.len])),
                              CAN_MSG_RECV, stamp, fill);
            var raw := SetCcLen(GetCcDlc(f.len, f.len8Dlc, sendMode), recvMode).1;
            Decode(MsgData(slot), recvMode)
            == Cc(CanFrame(IdAfter(f.canId), f.len, raw, Padded8(f.data[..f.len])),
                  stamp * TICK_NS)
  {
    var data := f.data[..f.len];
    CcLenRoundTrip(f.len, f.len8Dlc, sendMode, recvMode);
    var h := CcHeader(f, sendMode);
    RelayDecodes(iface, h, data, stamp, fill, recvMode);
    assert (data + fill)[..64][..f.len] == data;
  }

  /** A classic frame comes back as it was exactly when its identifier is normalised and its raw
      DLC is either absent or one that both ends pass on; a raw DLC that is lost becomes 0. */
  lemma ClassicIdentityIff(iface: byte, f: CanFrame, stamp: u32, fill: seq<byte>,
                           sendMode: bool, recvMode: bool)
    requires f.len <= 8 && |fill| == SLOT_SIZE - HEADER_SIZE - RECV_HEADER_SIZE - f.len
    ensures var slot := Relay(Framed(CAN_MSG_SEND, SendBody(iface, CcHeader(f, sendMode), f.data[..f.len])),
                              CAN_MSG_RECV, stamp, fill);
            var r := Decode(MsgData(slot), recvMode);
            && r.Cc? && r.cc.len == f.len && r.cc.data == Padded8(f.data[..f.len])
            && (r.cc.canId == f.canId && r.cc.len8Dlc == f.len8Dlc <==>
                  NormalId(f.canId)
                  && (f.len8Dlc == 0 || (sendMode && recvMode && f.len == 8 && 8 < f.len8Dlc <= 15)))
            && (r.cc.len8Dlc != f.len8Dlc ==> r.cc.len8Dlc == 0)
  {
    ClassicRoundTrip(iface, f, stamp, fill, sendMode, recvMode);
    IdSurvivesIffNormal(f.canId);
    CcLenRoundTrip(f.len, f.len8Dlc, sendMode, recvMode);
  }
}
