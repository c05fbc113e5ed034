/**
 * LIN frames on the wire. A LIN frame travels as a classic CAN frame whose identifier holds the
 * 6-bit LIN identifier and, above it, the enhanced-checksum flag.
 */
module LinCodec {
  import opened Kernel
  import opened Arith
  import opened Wire
  import opened Transport
  import opened CanDlc
  import opened CanCodec

  const LIN_MSG_SEND: u16 := 0x0D06
  const LIN_MSG_RECV: u16 := 0x0D07
  const LIN_IDS: byte := 0x40
  const LIN_ENHANCED_SUM_FLAG: byte := 0x40
  const LIN_MAX_DLEN: byte := 8
  const LIN_HEADER_SIZE := 7

  /** `struct lin_msg_header`: six bits of id, two flags, then the length byte. */
  datatype LinHeader = LinHeader(id: byte, remote: bool, enhanced: bool, dataLen: byte)

  function PackLin(h: LinHeader): (s: seq<byte>)
    requires h.id < LIN_IDS
    ensures |s| == 2
  {
    [h.id + 0x40 * Bit(h.remote) + 0x80 * Bit(h.enhanced), h.dataLen]
  }

  function UnpackLin(s: seq<byte>): (h: LinHeader)
    requires |s| == 2
    ensures h.id < LIN_IDS
  {
    LinHeader(s[0] % 0x40, s[0] / 0x40 % 2 == 1, s[0] / 0x80 == 1, s[1])
  }

  lemma PackLinBijection(h: LinHeader, s: seq<byte>)
    requires h.id < LIN_IDS && |s| == 2
    ensures UnpackLin(PackLin(h)) == h && PackLin(UnpackLin(s)) == s
  {
    assert s[0] == s[0] % 0x40 + 0x40 * (s[0] / 0x40 % 2) + 0x80 * (s[0] / 0x80);
  }

  function LinHeaderOf(f: CanFrame, len8Mode: bool): LinHeader {
    LinHeader(f.canId % LIN_IDS, HasFlag(f.canId, CAN_RTR_FLAG),
              HasFlag(f.canId, LIN_ENHANCED_SUM_FLAG), GetCcDlc(f.len, f.len8Dlc, len8Mode))
  }

  /** Interface, a delay of zero, header, data. */
  function LinSendBody(iface: byte, h: LinHeader, data: seq<byte>): (s: seq<byte>)
    requires h.id < LIN_IDS
    ensures |s| == LIN_HEADER_SIZE + |data|
  {
    [iface, 0, 0, 0, 0] + PackLin(h) + data
  }

  /** `linguru_lin_send`. */
  method LinSend(channelIdx: byte, frame: CanFrame, len8Mode: bool, k: Transfer)
    returns (err: int, wire: array?<byte>)
    requires frame.len <= 8
    ensures err == TransferError(k)
    ensures err == 0 <==> wire != null
    ensures err == 0 ==> wire[..] == Framed(LIN_MSG_SEND,
              LinSendBody(channelIdx, LinHeaderOf(frame, len8Mode), frame.data[..frame.len]))
  {
    var header := LinHeader(0, false, false, 0);
    header := header.(dataLen := GetCcDlc(frame.len, frame.len8Dlc, len8Mode));
    header := header.(remote := HasFlag(frame.canId, CAN_RTR_FLAG));
    header := header.(enhanced := HasFlag(frame.canId, LIN_ENHANCED_SUM_FLAG));
    header := header.(id := frame.canId % LIN_IDS);
    err, wire := SendLinStruct(channelIdx, header, frame.data, frame.len, k);
  }

  /** Lays out a zeroed `struct lin_msg_master` and sends its header and the first `len` bytes. */
  method SendLinStruct(channelIdx: byte, header: LinHeader, data: Data8, len: byte, k: Transfer)
    returns (err: int, wire: array?<byte>)
    requires header.id < LIN_IDS && len <= 8
    ensures err == TransferError(k)
    ensures err == 0 <==> wire != null
    ensures err == 0 ==> wire[..] == Framed(LIN_MSG_SEND, LinSendBody(channelIdx, header, data[..len]))
  {
    var msg := new byte[LIN_HEADER_SIZE + LIN_MAX_DLEN](_ => 0);
    var packed := PackLin(header);
    msg[0] := channelIdx;
    msg[5], msg[6] := packed[0], packed[1];
    forall i | 0 <= i < len {
      msg[LIN_HEADER_SIZE + i] := data[i];
    }
    assert msg[..LIN_HEADER_SIZE + len] == LinSendBody(channelIdx, header, data[..len]);
    err, wire := GuruSendData(LIN_MSG_SEND, msg, LIN_HEADER_SIZE + len, k);
  }

  /** The bytes of a LIN frame on the wire: frame header; interface; a delay of zero; six bits of
      identifier, remote bit, checksum bit; length; data. */
  lemma LinFrameBytes(iface: byte, f: CanFrame, len8Mode: bool)
    requires f.len <= 8
    ensures var rtr, sum := f.canId / 0x4000_0000 % 2, f.canId / 0x40 % 2;
            var len := if len8Mode && f.len == 8 && 8 < f.len8Dlc <= 15 then f.len8Dlc else f.len;
            Framed(LIN_MSG_SEND, LinSendBody(iface, LinHeaderOf(f, len8Mode), f.data[..f.len])) ==
            [0x58, 0, 0x06, 0x0D, 7 + f.len, iface, 0, 0, 0, 0, f.canId % 0x40 + 0x40 * rtr + 0x80 * sum, len]
            + f.data[..f.len]
  {
    FramedBytes(LIN_MSG_SEND, LinSendBody(iface, LinHeaderOf(f, len8Mode), f.data[..f.len]));
  }

  /** The identifier a received header yields. */
  function LinIdOf(h: LinHeader): u32
    requires h.id < LIN_IDS
  {
    h.id + (if h.remote then CAN_RTR_FLAG else 0) + (if h.enhanced then LIN_ENHANCED_SUM_FLAG else 0)
  }

  /** What a received message body means. The length byte is the number of bytes copied into the
      8-byte frame; above 8 the copy has no meaning, and there is no frame. */
  function LinDecode(body: seq<byte>, len8Mode: bool): Option<Received>
    requires |body| >= LIN_HEADER_SIZE + LIN_MAX_DLEN
  {
    LinDecodeParts(FromLE(body[1..5]) * TICK_NS, UnpackLin(body[5..7]), body[7..15], len8Mode)
  }

  function LinDecodeParts(timeNs: nat, h: LinHeader, payload: Data8, len8Mode: bool): Option<Received>
    requires h.id < LIN_IDS
  {
    if h.dataLen > LIN_MAX_DLEN then None
    else
      var (len, raw) := SetCcLen(h.dataLen, len8Mode);
      Some(Cc(CanFrame(LinIdOf(h), len, raw, Padded8(payload[..h.dataLen])), timeNs))
  }

  /** What any received message body means, byte by byte. */
  lemma LinDecodedBytes(body: seq<byte>, len8Mode: bool)
    requires |body| >= LIN_HEADER_SIZE + LIN_MAX_DLEN
    ensures LinDecode(body, len8Mode).Some? <==> body[6] <= 8
    ensures body[6] <= 8 ==>
              var b1: nat, b2: nat, b3: nat, b4: nat := body[1], body[2], body[3], body[4];
              var b5: nat, r := body[5], LinDecode(body, len8Mode).value;
              && r.Cc? && r.timeNs == (b1 + 0x100 * b2 + 0x1_0000 * b3 + 0x100_0000 * b4) * 100000
              && r.cc.canId == b5 % 0x40 + 0x4000_0000 * (b5 / 0x40 % 2) + 0x40 * (b5 / 0x80)
              && r.cc.len == body[6] && r.cc.len8Dlc == 0
              && forall i :: 0 <= i < 8 ==> r.cc.data[i] == if i < body[6] then body[7 + i] else 0
  {
    FromLEFour(body[1..5]);
    var h, payload := UnpackLin(body[5..7]), body[7..15];
    assert h.dataLen == body[6];
    if body[6] <= 8 {
      var r := LinDecode(body, len8Mode).value;
      forall i | 0 <= i < 8 ensures r.cc.data[i] == if i < body[6] then body[7 + i] else 0 {
        assert i < body[6] ==> payload[..h.dataLen][i] == body[7 + i];
      }
    }
  }

  /** The receive side of a LIN network device. */
  class LinNetDevice {
    const len8Mode: bool
    var rxPackets: nat
    var rxBytes: nat
    var received: seq<Received>

    constructor (len8Mode: bool)
      ensures Value() == Receiver(len8Mode, 0, 0, [])
    {
      this.len8Mode := len8Mode;
      rxPackets, rxBytes, received := 0, 0, [];
    }

    ghost function Value(): Receiver
      reads this
    {
      Receiver(len8Mode, rxPackets, rxBytes, received)
    }

    /** `linguru_net_recv`, on the message body that starts at `pos`. It relies on the device for
        a length byte of at most 8. */
    method NetRecv(buf: array<byte>, pos: nat)
      requires pos + LIN_HEADER_SIZE + LIN_MAX_DLEN <= buf.Length
      requires buf[pos + 6] <= LIN_MAX_DLEN
      modifies this
      ensures LinDecode(buf[pos..], len8Mode).Some?
      ensures Value() == Took(old(Value()), LinDecode(buf[pos..], len8Mode).value)
      ensures received == old(received) + [LinDecode(buf[pos..], len8Mode).value]
      ensures rxPackets == old(rxPackets) + 1 && rxBytes == old(rxBytes) + buf[pos + 6]
    {
      ghost var body := buf[pos..];
      assert buf[pos + 1..pos + 5] == body[1..5] && buf[pos + 5..pos + 7] == body[5..7];
      assert buf[pos + 7..pos + 15] == body[7..15];
      var timeNs := FromLE(buf[pos + 1..pos + 5]) * TICK_NS;
      var h := UnpackLin(buf[pos + 5..pos + 7]);
      var dataLen := h.dataLen;
      var frame := CanFrame(h.id, 0, 0, Zeros(8));
      var (len, raw) := SetCcLen(h.dataLen, len8Mode);
      frame := frame.(len := len, len8Dlc := raw);
      if h.remote {
        frame := frame.(canId := frame.canId + CAN_RTR_FLAG);
      }
      if h.enhanced {
        frame := frame.(canId := frame.canId + LIN_ENHANCED_SUM_FLAG);
      }
      frame := frame.(data := Padded8(buf[pos + 7..pos + 15][..dataLen]));
      rxPackets := rxPackets + 1;
      rxBytes := rxBytes + dataLen;
      received := received + [Cc(frame, timeNs)];
    }
  }

  /** The device as a relay: the time stamp takes the place of the delay. */
  function LinRelay(wire: seq<byte>, stamp: u32, fill: seq<byte>): (slot: seq<byte>)
    requires |wire| >= HEADER_SIZE + LIN_HEADER_SIZE
    requires |wire| + |fill| == SLOT_SIZE
    ensures |slot| == SLOT_SIZE
  {
    var body := MsgData(wire);
    [PREAMBLE, 1] + LE(LIN_MSG_RECV, 2) + [|body|] + ([body[0]] + LE(stamp, 4) + body[5..] + fill)
  }

  lemma LinRelayReads(iface: byte, h: LinHeader, data: seq<byte>, stamp: u32, fill: seq<byte>)
    requires h.id < LIN_IDS && |data| <= 8
    requires |fill| == SLOT_SIZE - HEADER_SIZE - LIN_HEADER_SIZE - |data|
    ensures var slot := LinRelay(Framed(LIN_MSG_SEND, LinSendBody(iface, h, data)), stamp, fill);
            && MsgId(slot) == LIN_MSG_RECV && MsgCount(slot) == LIN_HEADER_SIZE + |data|
            && MsgData(slot) == [iface] + LE(stamp, 4) + PackLin(h) + (data + fill)
  {
    var body := LinSendBody(iface, h, data);
    var wire := Framed(LIN_MSG_SEND, body);
    FramedReads(LIN_MSG_SEND, body);
    LETwo(LIN_MSG_RECV);
    BodyTail(iface, h, data);
    var rest := [iface] + LE(stamp, 4) + body[5..] + fill;
    var head: seq<byte> := [PREAMBLE, 1] + LE(LIN_MSG_RECV, 2) + [|body|];
    assert LinRelay(wire, stamp, fill) == head + rest && |head| == HEADER_SIZE;
    assert MsgData(head + rest) == rest;
    assert rest == [iface] + LE(stamp, 4) + PackLin(h) + (data + fill);
  }

  lemma BodyTail(iface: byte, h: LinHeader, data: seq<byte>)
    requires h.id < LIN_IDS
    ensures LinSendBody(iface, h, data)[0] == iface
    ensures LinSendBody(iface, h, data)[5..] == PackLin(h) + data
  {
  }

  lemma LinRelayDecodes(iface: byte, h: LinHeader, data: seq<byte>, stamp: u32, fill: seq<byte>,
                        len8Mode: bool)
    requires h.id < LIN_IDS && |data| <= 8
    requires |fill| == SLOT_SIZE - HEADER_SIZE - LIN_HEADER_SIZE - |data|
    ensures var body := [iface] + LE(stamp, 4) + PackLin(h) + (data + fill);
            && |body| == MAX_DATA_SIZE && body[0] == iface
            && LinDecode(body, len8Mode)
               == LinDecodeParts(stamp * TICK_NS, h, (data + fill)[..8], len8Mode)
  {
    var body := [iface] + LE(stamp, 4) + PackLin(h) + (data + fill);
    assert body[1..5] == LE(stamp, 4) && body[5..7] == PackLin(h);
    assert body[7..15] == (data + fill)[..8];
    Pow256Values();
    FromLEofLE(stamp, 4);
    PackLinBijection(h, PackLin(h));
  }

  /** An identifier made of the 6-bit id, the enhanced-checksum flag and RTR only. */
  predicate LinId(canId: u32) {
    canId % CAN_RTR_FLAG < 0x80 && canId < CAN_EFF_FLAG
  }

  /** The raw DLC takes the place of the length on this frame. */
  predicate RawDlcOverrides(f: CanFrame, len8Mode: bool) {
    len8Mode && f.len == 8 && 8 < f.len8Dlc <= 15
  }

  /** LIN through bytes, framing, relay and receive. There is a frame at the other end exactly when
      no raw DLC overrode the length; its length and data are then those sent, it carries no raw DLC,
      and its identifier is the one sent exactly when that was a LIN identifier. */
  lemma LinRoundTrip(iface: byte, f: CanFrame, stamp: u32, fill: seq<byte>, sendMode: bool, recvMode: bool)
    requires f.len <= 8 && |fill| == SLOT_SIZE - HEADER_SIZE - LIN_HEADER_SIZE - f.len
    ensures var slot := LinRelay(Framed(LIN_MSG_SEND,
                                   LinSendBody(iface, LinHeaderOf(f, sendMode), f.data[..f.len])),
                                 stamp, fill);
            var r := LinDecode(MsgData(slot), recvMode);
            && (r.Some? <==> !RawDlcOverrides(f, sendMode))
            && (r.Some? ==>
                  && r.value.Cc? && r.value.timeNs == stamp * TICK_NS
                  && r.value.cc.len == f.len && r.value.cc.data == Padded8(f.data[..f.len])
                  && (r.value.cc.canId == f.canId <==> LinId(f.canId))
                  && r.value.cc.len8Dlc == 0)
  {
    var h, data := LinHeaderOf(f, sendMode), f.data[..f.len];
    LinRelayReads(iface, h, data, stamp, fill);
    LinRelayDecodes(iface, h, data, stamp, fill, recvMode);
    LinIdSurvivesIff(f.canId, h);
    assert (data + fill)[..8][..f.len] == data;
  }

  lemma LinIdSurvivesIff(canId: u32, h: LinHeader)
    requires h.id == canId % LIN_IDS && h.remote == HasFlag(canId, CAN_RTR_FLAG)
             && h.enhanced == HasFlag(canId, LIN_ENHANCED_SUM_FLAG)
    ensures LinIdOf(h) == canId <==> LinId(canId)
  {
    var low, t := canId % 0x80, canId / 0x80;
    var mid, top := t % 0x80_0000, t / 0x80_0000;
    assert canId == low + 0x80 * t && t == mid + 0x80_0000 * top;
    Quotient(low + 0x80 * mid, CAN_RTR_FLAG, top);
    LowSevenBits(canId);
    assert LinIdOf(h) == low + CAN_RTR_FLAG * (top % 2);
  }

  lemma LowSevenBits(x: nat)
    ensures x % 0x80 == x % 0x40 + 0x40 * (x / 0x40 % 2)
  {
    var y := x / 0x40;
    assert x == x % 0x40 + 0x40 * (y % 2) + 0x80 * (y / 2);
    Quotient(x % 0x40 + 0x40 * (y % 2), 0x80, y / 2);
  }
}
