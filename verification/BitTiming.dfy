/** The number of time quanta per bit the driver reports to the device. */
module BitTiming {
  import opened Kernel
  import opened Arith

  const CANGURU_CAN_CLK: u32 := 80000000

  /** The prescaler, computed in 32 bits: it wraps to 0 for the largest `brp`. */
  function Prescaler(brp: u32): u32 {
    (brp + 1) % 0x1_0000_0000
  }

  /** Unsigned division. */
  function Div(a: u32, b: u32): u32
    requires b > 0
  {
    QuotientBounded(a, b);
    a / b
  }

  /** The two divisions one after the other; None when the first would divide by zero. */
  function IdealTqNum(brp: u32, bitrate: u32): Option<u32> {
    if bitrate == 0 then Some(0)
    else if Prescaler(brp) == 0 then None
    else Some(Div(Div(CANGURU_CAN_CLK, Prescaler(brp)), bitrate))
  }

  /** The part of `canguru_set_bittiming` that fills in the number of quanta. */
  method SetTqNum(brp: u32, bitrate: u32) returns (idealTqNum: u32)
    requires bitrate != 0 ==> Prescaler(brp) != 0
    ensures IdealTqNum(brp, bitrate) == Some(idealTqNum)
    ensures bitrate == 0 ==> idealTqNum == 0
  {
    var prescaler := Prescaler(brp);
    idealTqNum := 0;
    if bitrate != 0 {
      idealTqNum := Div(Div(CANGURU_CAN_CLK, prescaler), bitrate);
    }
  }

  /** There is a result exactly when the bit rate is 0 or the prescaler did not wrap, and for a bit
      rate of 0 it is 0. */
  lemma DefinedIff(brp: u32, bitrate: u32)
    ensures IdealTqNum(brp, bitrate).Some? <==> bitrate == 0 || brp < 0xFFFF_FFFF
    ensures bitrate == 0 ==> IdealTqNum(brp, bitrate) == Some(0)
  {
  }

  /** Dividing twice is dividing by the product. */
  lemma TwoDivisions(v: nat, p: nat, b: nat)
    requires p > 0 && b > 0
    ensures p * b > 0 && v / p / b == v / (p * b)
    ensures v / p / b * (p * b) <= v < (v / p / b + 1) * (p * b)
  {
    var q1 := v / p;
    var q := q1 / b;
    MulMonotone(1, p, b);
    QuotientBrackets(v, p);
    QuotientBrackets(q1, b);
    MulMonotone(q * b, q1, p);
    MulMonotone(q1 + 1, (q + 1) * b, p);
    Regroup(q, b, p);
    Regroup(q + 1, b, p);
    QuotientUnique(v, p * b, q);
  }

  /** The quanta are the whole number of times p*b fits into the clock. */
  lemma QuantaAreFloor(brp: u32, bitrate: u32)
    requires bitrate > 0 && brp < 0xFFFF_FFFF
    ensures var p, q := brp + 1, IdealTqNum(brp, bitrate).value;
            && p * bitrate > 0 && q == 80_000_000 / (p * bitrate)
            && q * (p * bitrate) <= 80_000_000 < (q + 1) * (p * bitrate)
            && (80_000_000 % (p * bitrate) == 0 <==> q * (p * bitrate) == 80_000_000)
  {
    var p := brp + 1;
    assert Prescaler(brp) == p;
    TwoDivisions(CANGURU_CAN_CLK, p, bitrate);
    var m := p * bitrate;
    assert CANGURU_CAN_CLK == CANGURU_CAN_CLK / m * m + CANGURU_CAN_CLK % m;
  }

  /** A larger prescaler or a larger bit rate never gives more quanta. */
  lemma QuantaAntitone(brp: u32, bitrate: u32, brp': u32, bitrate': u32)
    requires 0 < bitrate <= bitrate' && brp <= brp' < 0xFFFF_FFFF
    ensures IdealTqNum(brp', bitrate').value <= IdealTqNum(brp, bitrate).value
  {
    QuantaAreFloor(brp, bitrate);
    QuantaAreFloor(brp', bitrate');
    var m, m' := (brp + 1) * bitrate, (brp' + 1) * bitrate';
    assert m <= m' by {
      MulMonotone(brp + 1, brp' + 1, bitrate);
      MulMonotone(bitrate, bitrate', brp' + 1);
    }
    FloorAntitone(CANGURU_CAN_CLK, m, m', IdealTqNum(brp, bitrate).value, IdealTqNum(brp', bitrate').value);
  }
}
