/** The framing every message travels in: a 5-byte header in front of at most 123 bytes. */
module Transport {
  import opened Kernel
  import opened Wire

  const PREAMBLE: byte := 0x58
  const HEADER_SIZE := 5
  const MAX_DATA_SIZE := 123
  const SLOT_SIZE := 128

  function Framed(id: u16, payload: seq<byte>): seq<byte>
    requires |payload| < 0x100
  {
    [PREAMBLE, 0] + LE(id, 2) + [|payload|] + payload
  }

  function MsgId(msg: seq<byte>): u16
    requires |msg| >= HEADER_SIZE
  {
    var high: nat := msg[3];
    msg[2] + 0x100 * high
  }

  function MsgCount(msg: seq<byte>): byte
    requires |msg| >= HEADER_SIZE
  {
    msg[4]
  }

  function MsgData(msg: seq<byte>): seq<byte>
    requires |msg| >= HEADER_SIZE
  {
    msg[HEADER_SIZE..]
  }

  lemma LETwo(v: u16)
    ensures LE(v, 2) == [v % 0x100, v / 0x100]
  {
    assert LE(v / 0x100, 1) == [v / 0x100 % 0x100] + LE(v / 0x100 / 0x100, 0);
  }

  /** A framed message reads back: same id, same payload, and its length is the payload's. */
  lemma FramedReads(id: u16, payload: seq<byte>)
    requires |payload| < 0x100
    ensures var m := Framed(id, payload);
            && |m| == HEADER_SIZE + |payload|
            && MsgId(m) == id && MsgCount(m) == |payload| && MsgData(m) == payload
  {
    LETwo(id);
  }

  /** The bytes of a framed message. */
  lemma FramedBytes(id: u16, payload: seq<byte>)
    requires |payload| < 0x100
    ensures Framed(id, payload) == [0x58, 0, id % 0x100, id / 0x100, |payload|] + payload
  {
    LETwo(id);
  }

  /** How a transfer can fail before it leaves. */
  datatype Transfer = Transfer(urbAllocated: bool, bufAllocated: bool, submitErr: int)

  function TransferError(k: Transfer): int {
    if !k.urbAllocated || !k.bufAllocated then -ENOMEM else k.submitErr
  }

  /** Without an URB or a buffer nothing is submitted and memory is reported short; otherwise the
      result is that of the submission. */
  lemma TransferResult(k: Transfer)
    ensures TransferError(k) == if k.urbAllocated && k.bufAllocated then k.submitErr else -12
    ensures TransferError(k) == 0 <==> k.urbAllocated && k.bufAllocated && k.submitErr == 0
  {
  }

  /** `guru_send_data`: on success `buf` holds the message handed to the USB core. Without data the
      payload bytes, if any, are those of the fresh buffer. */
  method GuruSendData(id: u16, data: array?<byte>, dataLen: byte, k: Transfer)
    returns (err: int, buf: array?<byte>)
    requires data != null ==> dataLen <= data.Length
    ensures err == TransferError(k)
    ensures err == if k.urbAllocated && k.bufAllocated then k.submitErr else -12
    ensures err == 0 <==> buf != null
    ensures err == 0 ==> fresh(buf)
    ensures err == 0 ==> buf.Length == HEADER_SIZE + dataLen
    ensures err == 0 ==>
              buf[..] == Framed(id, if data == null then buf[HEADER_SIZE..] else data[..dataLen])
  {
    err, buf := 0, null;
    var msgSize := HEADER_SIZE + dataLen;
    if !k.urbAllocated {
      err := -ENOMEM;
      return;
    }
    if !k.bufAllocated {
      err := -ENOMEM;
      return;
    }
    var msg := new byte[msgSize];
    msg[0] := PREAMBLE;
    msg[2], msg[3] := id % 0x100, id / 0x100;
    msg[1] := 0;
    msg[4] := dataLen;
    if data != null {
      forall i | 0 <= i < dataLen {
        msg[HEADER_SIZE + i] := data[i];
      }
    }
    err := k.submitErr;
    if err == 0 {
      buf := msg;
      LETwo(id);
      assert msg[..] == Framed(id, if data == null then msg[HEADER_SIZE..] else data[..dataLen]);
    }
  }
}
