/** Little-endian numbers and the packed 40-bit CAN header, as bytes. */
module Wire {
  import opened Kernel
  import opened Arith

  /** The low n bytes of v, least significant first. */
  function LE(v: nat, n: nat): (s: seq<byte>)
    ensures |s| == n
  {
    if n == 0 then [] else [v % 0x100] + LE(v / 0x100, n - 1)
  }

  function FromLE(s: seq<byte>): nat {
    if s == [] then 0 else s[0] + 0x100 * FromLE(s[1..])
  }

  function Pow256(n: nat): nat {
    if n == 0 then 1 else 0x100 * Pow256(n - 1)
  }

  lemma {:induction false} FromLEofLE(v: nat, n: nat)
    requires v < Pow256(n)
    ensures FromLE(LE(v, n)) == v
  {
    if n > 0 {
      assert LE(v, n)[1..] == LE(v / 0x100, n - 1);
      FromLEofLE(v / 0x100, n - 1);
    }
  }

  lemma {:induction false} LEofFromLE(s: seq<byte>)
    ensures FromLE(s) < Pow256(|s|)
    ensures LE(FromLE(s), |s|) == s
  {
    if s != [] {
      LEofFromLE(s[1..]);
      Quotient(s[0], 0x100, FromLE(s[1..]));
      assert s == [s[0]] + s[1..];
    }
  }

  lemma Pow256Values()
    ensures Pow256(2) == 0x1_0000 && Pow256(4) == 0x1_0000_0000 && Pow256(5) == 0x100_0000_0000
  {
    assert Pow256(0) == 1;
    assert Pow256(1) == 0x100;
    assert Pow256(3) == 0x100 * Pow256(2);
    assert Pow256(4) == 0x100 * Pow256(3);
  }

  type u29 = x: int | 0 <= x < 0x2000_0000
  type u4 = x: int | 0 <= x < 16
  type u2 = x: int | 0 <= x < 4

  /** `struct can_msg_header`. */
  datatype CanHeader = CanHeader(id: u29, dlc: u4, ext: bool, rtr: bool, esi: bool, fd: bool,
                                 brs: bool, reserved: u2)

  function Bit(b: bool): nat {
    if b then 1 else 0
  }

  /** The seven bits above the dlc, the first declared lowest. */
  function FlagsValue(h: CanHeader): (f: nat)
    ensures f < 128
  {
    Bit(h.ext) + 2 * Bit(h.rtr) + 4 * Bit(h.esi) + 8 * Bit(h.fd) + 16 * Bit(h.brs) + 32 * h.reserved
  }

  /** The header as one number: each field above the one declared before it. */
  function HeaderValue(h: CanHeader): nat {
    h.id + 0x2000_0000 * (h.dlc + 16 * FlagsValue(h))
  }

  function HeaderFrom(id: u29, dlc: u4, flags: nat): CanHeader
    requires flags < 128
  {
    var f1 := flags / 2;
    var f2 := f1 / 2;
    var f3 := f2 / 2;
    var f4 := f3 / 2;
    CanHeader(id, dlc, flags % 2 == 1, f1 % 2 == 1, f2 % 2 == 1, f3 % 2 == 1, f4 % 2 == 1, f4 / 2)
  }

  function HeaderOf(v: nat): CanHeader
    requires v < 0x100_0000_0000
  {
    HeaderFrom(v % 0x2000_0000, v / 0x2000_0000 % 16, v / 0x2_0000_0000)
  }

  function Pack(h: CanHeader): (s: seq<byte>)
    ensures |s| == 5
  {
    LE(HeaderValue(h), 5)
  }

  function Unpack(s: seq<byte>): CanHeader
    requires |s| == 5
  {
    LEofFromLE(s);
    Pow256Values();
    HeaderOf(FromLE(s))
  }

  lemma BitsOfSum(e: nat, r: nat, s: nat, d: nat, b: nat, top: nat)
    requires e < 2 && r < 2 && s < 2 && d < 2 && b < 2
    ensures var f := e + 2 * r + 4 * s + 8 * d + 16 * b + 32 * top;
            var f1 := f / 2; var f2 := f1 / 2; var f3 := f2 / 2; var f4 := f3 / 2;
            f % 2 == e && f1 % 2 == r && f2 % 2 == s && f3 % 2 == d && f4 % 2 == b && f4 / 2 == top
  {
    Quotient(e, 2, r + 2 * (s + 2 * (d + 2 * (b + 2 * top))));
    Quotient(r, 2, s + 2 * (d + 2 * (b + 2 * top)));
    Quotient(s, 2, d + 2 * (b + 2 * top));
    Quotient(d, 2, b + 2 * top);
    Quotient(b, 2, top);
  }

  lemma FlagsRoundTrip(h: CanHeader)
    ensures HeaderFrom(h.id, h.dlc, FlagsValue(h)) == h
  {
    BitsOfSum(Bit(h.ext), Bit(h.rtr), Bit(h.esi), Bit(h.fd), Bit(h.brs), h.reserved);
    HeaderFromBits(h, FlagsValue(h));
  }

  lemma HeaderFromBits(h: CanHeader, f: nat)
    requires f < 128
    requires var f1 := f / 2; var f2 := f1 / 2; var f3 := f2 / 2; var f4 := f3 / 2;
             && f % 2 == Bit(h.ext) && f1 % 2 == Bit(h.rtr) && f2 % 2 == Bit(h.esi)
             && f3 % 2 == Bit(h.fd) && f4 % 2 == Bit(h.brs) && f4 / 2 == h.reserved
    ensures HeaderFrom(h.id, h.dlc, f) == h
  {
  }

  lemma HeaderValueFits(h: CanHeader)
    ensures HeaderValue(h) < 0x100_0000_0000
    ensures HeaderOf(HeaderValue(h)) == h
  {
    var v, f := HeaderValue(h), FlagsValue(h);
    Quotient(h.id, 0x2000_0000, h.dlc + 16 * f);
    Quotient(h.dlc, 16, f);
    assert v / 0x2_0000_0000 == v / 0x2000_0000 / 16;
    FlagsRoundTrip(h);
  }

  lemma HeaderOfThenValue(v: nat)
    requires v < 0x100_0000_0000
    ensures HeaderValue(HeaderOf(v)) == v
  {
    var f := v / 0x2_0000_0000;
    FlagsOf(v % 0x2000_0000, v / 0x2000_0000 % 16, f);
    assert f == v / 0x2000_0000 / 16;
  }

  lemma FlagsOf(id: u29, dlc: u4, f: nat)
    requires f < 128
    ensures FlagsValue(HeaderFrom(id, dlc, f)) == f
  {
    var f1 := f / 2;
    var f2 := f1 / 2;
    var f3 := f2 / 2;
    var f4 := f3 / 2;
    assert f == f % 2 + 2 * f1 && f1 == f1 % 2 + 2 * f2 && f2 == f2 % 2 + 2 * f3;
    assert f3 == f3 % 2 + 2 * f4 && f4 == f4 % 2 + 2 * (f4 / 2);
  }

  /** Packing is a bijection between headers and strings of five bytes: nothing is lost, no two
      fields share a bit, and every string is the packing of exactly one header. */
  lemma PackBijection(h: CanHeader, s: seq<byte>)
    requires |s| == 5
    ensures Unpack(Pack(h)) == h
    ensures Pack(Unpack(s)) == s
    ensures Pack(h) == s <==> h == Unpack(s)
  {
    Pow256Values();
    HeaderValueFits(h);
    FromLEofLE(HeaderValue(h), 5);
    LEofFromLE(s);
    HeaderOfThenValue(FromLE(s));
  }

  /** Where each field lies: 29 bits of id, then the dlc across the last two bytes, then flags. */
  lemma PackLayout(h: CanHeader)
    ensures Pack(h) == [h.id % 0x100, h.id / 0x100 % 0x100, h.id / 0x1_0000 % 0x100,
                        h.id / 0x100_0000 + 32 * (h.dlc % 8),
                        h.dlc / 8 + 2 * Bit(h.ext) + 4 * Bit(h.rtr) + 8 * Bit(h.esi)
                        + 16 * Bit(h.fd) + 32 * Bit(h.brs) + 64 * h.reserved]
  {
    LayoutValue(h.id, h.dlc, FlagsValue(h));
    LEofFromLE([h.id % 0x100, h.id / 0x100 % 0x100, h.id / 0x1_0000 % 0x100,
                h.id / 0x100_0000 + 32 * (h.dlc % 8), h.dlc / 8 + 2 * FlagsValue(h)]);
  }

  lemma LayoutValue(id: u29, dlc: u4, flags: nat)
    requires flags < 128
    ensures FromLE([id % 0x100, id / 0x100 % 0x100, id / 0x1_0000 % 0x100,
                    id / 0x100_0000 + 32 * (dlc % 8), dlc / 8 + 2 * flags])
            == id + 0x2000_0000 * (dlc + 16 * flags)
  {
    IdBytes(id);
    assert dlc == dlc % 8 + 8 * (dlc / 8);
    FromLEFive([id % 0x100, id / 0x100 % 0x100, id / 0x1_0000 % 0x100,
                id / 0x100_0000 + 32 * (dlc % 8), dlc / 8 + 2 * flags]);
  }

  lemma IdBytes(id: nat)
    ensures id == id % 0x100 + 0x100 * (id / 0x100 % 0x100 + 0x100 * (id / 0x1_0000 % 0x100
                  + 0x100 * (id / 0x100_0000)))
  {
    var i1 := id / 0x100;
    var i2 := i1 / 0x100;
    assert i2 == id / 0x1_0000 && i2 / 0x100 == id / 0x100_0000;
  }

  lemma FromLEFive(s: seq<byte>)
    requires |s| == 5
    ensures var b0: nat, b1: nat, b2: nat, b3: nat, b4: nat := s[0], s[1], s[2], s[3], s[4];
            FromLE(s) == b0 + 0x100 * (b1 + 0x100 * (b2 + 0x100 * (b3 + 0x100 * b4)))
  {
    assert FromLE(s[4..]) == s[4] + 0x100 * FromLE(s[5..]);
    assert FromLE(s[3..]) == s[3] + 0x100 * FromLE(s[4..]) by { assert s[3..][1..] == s[4..]; }
    assert FromLE(s[2..]) == s[2] + 0x100 * FromLE(s[3..]) by { assert s[2..][1..] == s[3..]; }
    assert FromLE(s[1..]) == s[1] + 0x100 * FromLE(s[2..]) by { assert s[1..][1..] == s[2..]; }
  }

  lemma FromLEFour(s: seq<byte>)
    requires |s| == 4
    ensures var b0: nat, b1: nat, b2: nat, b3: nat := s[0], s[1], s[2], s[3];
            FromLE(s) == b0 + 0x100 * b1 + 0x1_0000 * b2 + 0x100_0000 * b3
  {
    assert FromLE(s[3..]) == s[3] + 0x100 * FromLE(s[4..]);
    assert FromLE(s[2..]) == s[2] + 0x100 * FromLE(s[3..]) by { assert s[2..][1..] == s[3..]; }
    assert FromLE(s[1..]) == s[1] + 0x100 * FromLE(s[2..]) by { assert s[1..][1..] == s[2..]; }
  }

  /** And back: which bits of five bytes each field of the header is read from. */
  lemma UnpackLayout(s: seq<byte>)
    requires |s| == 5
    ensures var b0: nat, b1: nat, b2: nat, b3: nat, b4: nat := s[0], s[1], s[2], s[3], s[4];
            var h := Unpack(s);
            && h.id == b0 + 0x100 * b1 + 0x1_0000 * b2 + 0x100_0000 * (b3 % 32)
            && h.dlc == b3 / 32 + 8 * (b4 % 2)
            && (h.ext <==> b4 / 2 % 2 == 1) && (h.rtr <==> b4 / 4 % 2 == 1) && (h.esi <==> b4 / 8 % 2 == 1)
            && (h.fd <==> b4 / 16 % 2 == 1) && (h.brs <==> b4 / 32 % 2 == 1) && h.reserved == b4 / 64
  {
    var b0: nat, b1: nat, b2: nat, b3: nat, b4: nat := s[0], s[1], s[2], s[3], s[4];
    FromLEFive(s);
    LEofFromLE(s);
    Pow256Values();
    ValueFields(FromLE(s), b0, b1, b2, b3, b4);
    ByteHalves(b4);
  }

  lemma ValueFields(v: nat, b0: nat, b1: nat, b2: nat, b3: nat, b4: nat)
    requires b0 < 0x100 && b1 < 0x100 && b2 < 0x100 && b3 < 0x100
    requires v == b0 + 0x100 * (b1 + 0x100 * (b2 + 0x100 * (b3 + 0x100 * b4)))
    ensures v % 0x2000_0000 == b0 + 0x100 * b1 + 0x1_0000 * b2 + 0x100_0000 * (b3 % 32)
    ensures v / 0x2000_0000 % 16 == b3 / 32 + 8 * (b4 % 2) && v / 0x2_0000_0000 == b4 / 2
  {
    var id, dlc := b0 + 0x100 * b1 + 0x1_0000 * b2 + 0x100_0000 * (b3 % 32), b3 / 32 + 8 * (b4 % 2);
    assert b3 == b3 % 32 + 32 * (b3 / 32) && b4 == b4 % 2 + 2 * (b4 / 2);
    Quotient(id, 0x2000_0000, dlc + 16 * (b4 / 2));
    Quotient(dlc, 16, b4 / 2);
    assert v / 0x2_0000_0000 == v / 0x2000_0000 / 16;
  }

  lemma ByteHalves(b: nat)
    ensures b / 2 / 2 == b / 4 && b / 4 / 2 == b / 8 && b / 8 / 2 == b / 16 && b / 16 / 2 == b / 32
    ensures b / 32 / 2 == b / 64
  {
  }
}
