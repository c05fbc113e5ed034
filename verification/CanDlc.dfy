/** The helpers of the CAN core that relate a length to the data length code of ISO 11898-1. */
module CanDlc {
  import opened Kernel

  const CAN_MAX_DLEN: byte := 8
  const CAN_MAX_RAW_DLC: byte := 15

  /** The lengths a CAN FD frame can have. */
  predicate IsFdLength(len: byte) {
    len <= 8 || len == 12 || len == 16 || len == 20 || len == 24 || len == 32 || len == 48 || len == 64
  }

  /** `can_fd_dlc2len`, which looks at four bits of the code. */
  function FdDlc2Len(dlc: byte): (len: byte)
    ensures len <= 64 && IsFdLength(len)
  {
    match dlc % 16
    case 9 => 12
    case 10 => 16
    case 11 => 20
    case 12 => 24
    case 13 => 32
    case 14 => 48
    case 15 => 64
    case small => small
  }

  /** `can_fd_len2dlc`. */
  function FdLen2Dlc(len: byte): (dlc: byte)
    ensures dlc < 16
  {
    if len <= 8 then len
    else if len <= 12 then 9
    else if len <= 16 then 10
    else if len <= 20 then 11
    else if len <= 24 then 12
    else if len <= 32 then 13
    else if len <= 48 then 14
    else 15
  }

  /** The sixteen codes stand for the sixteen lengths in increasing order, each for one. */
  lemma FdCodesAreLengths(d: byte, e: byte, len: byte)
    requires d < e < 16
    ensures FdDlc2Len(d) < FdDlc2Len(e)
    ensures FdLen2Dlc(FdDlc2Len(d)) == d && FdLen2Dlc(FdDlc2Len(e)) == e
    ensures IsFdLength(len) ==> FdDlc2Len(FdLen2Dlc(len)) == len
  {
  }

  /** The length a CAN FD frame has on the bus when `len` bytes are to be sent. */
  function PaddedLen(len: byte): (r: byte)
    ensures r <= 64
  {
    FdDlc2Len(FdLen2Dlc(len))
  }

  /** That is the least length of the table that is large enough, so a length of the table is its
      own. */
  lemma PaddedLenIsLeast(len: byte)
    requires len <= 64
    ensures IsFdLength(PaddedLen(len)) && len <= PaddedLen(len)
    ensures forall l :: IsFdLength(l) && len <= l ==> PaddedLen(len) <= l
    ensures PaddedLen(len) == len <==> IsFdLength(len)
  {
  }

  /** `can_cc_dlc2len`. */
  function CcDlc2Len(dlc: byte): (len: byte)
    ensures len <= 8
  {
    if dlc < CAN_MAX_DLEN then dlc else CAN_MAX_DLEN
  }

  /** `can_get_cc_dlc`: the raw code overrides the length when the mode asks for it, the frame is
      full and the raw code lies in 9..15. */
  function GetCcDlc(len: byte, len8Dlc: byte, len8Mode: bool): byte {
    if len8Mode && len == CAN_MAX_DLEN && CAN_MAX_DLEN < len8Dlc <= CAN_MAX_RAW_DLC then len8Dlc
    else len
  }

  /** `can_frame_set_cc_len` on a zeroed frame: the length and the raw code it ends up with. */
  function SetCcLen(dlc: byte, len8Mode: bool): (r: (byte, byte)) {
    (CcDlc2Len(dlc), if len8Mode && dlc > CAN_MAX_DLEN then dlc else 0)
  }

  /** Through the code and back the length survives, and the raw code exactly when it was
      effective. */
  lemma CcLenRoundTrip(len: byte, len8Dlc: byte, sendMode: bool, recvMode: bool)
    requires len <= CAN_MAX_DLEN
    ensures GetCcDlc(len, len8Dlc, sendMode) < 16
    ensures var (len', raw') := SetCcLen(GetCcDlc(len, len8Dlc, sendMode), recvMode);
            && len' == len
            && (raw' == len8Dlc <==>
                  len8Dlc == 0 || (sendMode && recvMode && len == CAN_MAX_DLEN
                                   && CAN_MAX_DLEN < len8Dlc <= CAN_MAX_RAW_DLC))
            && (raw' != len8Dlc ==> raw' == 0)
  {
  }
}
