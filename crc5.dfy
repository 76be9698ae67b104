/** The 5-bit CRC of the MAX22190 SPI frame (drivers/digital-io/max22190/max22190.c,
    max22190_crc): generator x^5 + x^4 + x^2 + 1 (0x35), initial value 0x7.

    The three argument bytes form a 24-bit word whose low five bits are replaced by the
    initial value; the division keeps a 6-bit register, reduces the top six bits once and
    then shifts in the remaining 18 bits one at a time, reducing after each. */
module Crc5 {
  import opened Hal

  const CRC_LENGTH: bv32 := 19
  const CRC_INIT: bv32 := 0x7
  const CRC_POLY: bv8 := 0x35

  /** The word the CRC divides: `(data2 << 16) + (data1 << 8) + data0` with its low five
      bits replaced by the initial value. Only bits 23..5 of the bytes survive. */
  function Composite(d2: byte, d1: byte, d0: byte): bv32
  {
    ((((d2 as bv32) << 16) + ((d1 as bv32) << 8) + (d0 as bv32)) & 0xFF_FFE0) + CRC_INIT
  }

  /** The composite word has 24 bits: the initial value at the bottom and above it the
      top 19 bits of the three bytes, `data2` first. */
  lemma CompositeLayout(d2: byte, d1: byte, d0: byte)
    ensures Composite(d2, d1, d0) >> 24 == 0
    ensures Composite(d2, d1, d0) & 0x1F == CRC_INIT
    ensures Composite(d2, d1, d0) >> 5 == ((d2 as bv32) << 11) | ((d1 as bv32) << 3) | ((d0 as bv32) >> 5)
  {
  }

  /** One reduction step: a 6-bit value with bit 5 set has the generator subtracted. */
  function Reduce(t: bv8): (r: bv8)
    requires t < 0x40
    ensures r < 0x20
    ensures r == t || r == t ^ CRC_POLY
  {
    if t & 0x20 == 0x20 then t ^ CRC_POLY else t
  }

  /** Bit `p` of `w`. */
  function Bit(w: bv32, p: bv32): (b: bv8)
    requires p < 32
    ensures b <= 1
  {
    ((w >> p) & 1) as bv8
  }

  /** The first reduction, of the top six bits of the word. */
  function Top(w: bv32): (s: bv8)
    ensures s < 0x20
  {
    Reduce(((w & 0xFC_0000) >> 18) as bv8)
  }

  /** One step of the division: shift bit `x` into the five-bit register `s` and reduce. */
  function Step(s: bv8, x: bv8): (r: bv8)
    requires x <= 1
    ensures r < 0x20
  {
    Reduce(((s & 0x1F) << 1) + x)
  }

  /** The register once the division has consumed bits 23 down to `p` of `w`
      (`p == 18`: the first reduction of the top six bits). */
  function Register(w: bv32, p: bv32): (s: bv8)
    requires p <= 18
    ensures s < 0x20
    decreases 18 - p
  {
    if p == 18 then Top(w) else Step(Register(w, p + 1), Bit(w, p))
  }

  /** max22190_crc as a value: the register after all 24 bits, cut to five bits. */
  function Crc(d2: byte, d1: byte, d0: byte): (c: byte)
    ensures c < 0x20
  {
    Register(Composite(d2, d1, d0), 0) & 0x1F
  }

  /** max22190_crc as the source runs it: the composite word, then the division. */
  method ComputeCrc(data2: byte, data1: byte, data0: byte) returns (crc: byte)
    ensures crc == Crc(data2, data1, data0)
  {
    var datainput: bv32 := ((data2 as bv32) << 16) + ((data1 as bv32) << 8) + (data0 as bv32);
    datainput := (datainput & 0xFF_FFE0) + CRC_INIT;
    crc := Divide(datainput);
  }

  /** The loop of max22190_crc: one reduction of the top six bits, then 18
      shift-in-and-reduce steps over bits 17 down to 0. The loop counter is `i` of the
      source. */
  method Divide(datainput: bv32) returns (crc: byte)
    ensures crc == Register(datainput, 0) & 0x1F
  {
    var crcStep: bv8 := Top(datainput);
    var i: bv32 := 0;
    while i < CRC_LENGTH - 1
      invariant i <= 18
      invariant crcStep == Register(datainput, 18 - i)
      decreases 18 - i
    {
      crcStep := Step(crcStep, Bit(datainput, CRC_LENGTH - 2 - i));
      i := i + 1;
    }
    crc := crcStep & 0x1F;
  }

  /** The CRC depends only on bits 23..5 of the 24-bit word: the low five bits of
      `data0` are overwritten by the initial value before the division. */
  lemma CrcIgnoresLowBits(d2: byte, d1: byte, d0: byte, d0': byte)
    requires d0 & 0xE0 == d0' & 0xE0
    ensures Crc(d2, d1, d0) == Crc(d2, d1, d0')
  {
    assert Composite(d2, d1, d0) == Composite(d2, d1, d0');
  }

  /** The receiver's check of a 3-byte frame: the CRC of its first 19 bits equals the
      five bits at the bottom of its last byte. */
  predicate FrameValid(f: seq<byte>)
    requires |f| == 3
  {
    Crc(f[0], f[1], f[2]) == f[2] & 0x1F
  }

  /** The CRC byte a sender appends to the two bytes `b0`, `b1`. */
  function Seal(b0: byte, b1: byte): (c: byte)
    ensures c < 0x20
  {
    Crc(b0, b1, 0)
  }

  /** A sealed frame passes the receiver's check. */
  lemma SealedFrameValid(b0: byte, b1: byte)
    ensures FrameValid([b0, b1, Seal(b0, b1)])
  {
    CrcIgnoresLowBits(b0, b1, 0, Seal(b0, b1));
  }

  /** Known vector: the all-zero input has CRC 0x07 (only the initial value is divided). */
  lemma CrcOfZero()
    ensures Crc(0, 0, 0) == 0x07
  {
    var w := Composite(0, 0, 0);
    assert w == 0x7;
    assert Register(w, 18) == 0x00;
    assert Register(w, 17) == 0x00;
    assert Register(w, 16) == 0x00;
    assert Register(w, 15) == 0x00;
    assert Register(w, 14) == 0x00;
    assert Register(w, 13) == 0x00;
    assert Register(w, 12) == 0x00;
    assert Register(w, 11) == 0x00;
    assert Register(w, 10) == 0x00;
    assert Register(w, 9) == 0x00;
    assert Register(w, 8) == 0x00;
    assert Register(w, 7) == 0x00;
    assert Register(w, 6) == 0x00;
    assert Register(w, 5) == 0x00;
    assert Register(w, 4) == 0x00;
    assert Register(w, 3) == 0x00;
    assert Register(w, 2) == 0x01;
    assert Register(w, 1) == 0x03;
    assert Register(w, 0) == 0x07;
  }

  /** Known vector: a frame whose first byte is 0x19 and whose other bytes are zero. */
  lemma CrcVectorA()
    ensures Crc(0x19, 0x00, 0x00) == 0x00
  {
    var w := Composite(0x19, 0x00, 0x00);
    assert w == 0x190007;
    assert Register(w, 18) == 0x06;
    assert Register(w, 17) == 0x0C;
    assert Register(w, 16) == 0x19;
    assert Register(w, 15) == 0x07;
    assert Register(w, 14) == 0x0E;
    assert Register(w, 13) == 0x1C;
    assert Register(w, 12) == 0x0D;
    assert Register(w, 11) == 0x1A;
    assert Register(w, 10) == 0x01;
    assert Register(w, 9) == 0x02;
    assert Register(w, 8) == 0x04;
    assert Register(w, 7) == 0x08;
    assert Register(w, 6) == 0x10;
    assert Register(w, 5) == 0x15;
    assert Register(w, 4) == 0x1F;
    assert Register(w, 3) == 0x0B;
    assert Register(w, 2) == 0x17;
    assert Register(w, 1) == 0x1A;
    assert Register(w, 0) == 0x00;
  }

  /** Known vector: first byte 0x07, other bytes zero. */
  lemma CrcVectorB()
    ensures Crc(0x07, 0x00, 0x00) == 0x09
  {
    var w := Composite(0x07, 0x00, 0x00);
    assert w == 0x70007;
    assert Register(w, 18) == 0x01;
    assert Register(w, 17) == 0x03;
    assert Register(w, 16) == 0x07;
    assert Register(w, 15) == 0x0E;
    assert Register(w, 14) == 0x1C;
    assert Register(w, 13) == 0x0D;
    assert Register(w, 12) == 0x1A;
    assert Register(w, 11) == 0x01;
    assert Register(w, 10) == 0x02;
    assert Register(w, 9) == 0x04;
    assert Register(w, 8) == 0x08;
    assert Register(w, 7) == 0x10;
    assert Register(w, 6) == 0x15;
    assert Register(w, 5) == 0x1F;
    assert Register(w, 4) == 0x0B;
    assert Register(w, 3) == 0x16;
    assert Register(w, 2) == 0x18;
    assert Register(w, 1) == 0x04;
    assert Register(w, 0) == 0x09;
  }

  /** Known vector: first byte 0x01, second byte zero, last byte 0x07. */
  lemma CrcVectorC()
    ensures Crc(0x01, 0x00, 0x07) == 0x05
  {
    var w := Composite(0x01, 0x00, 0x07);
    assert w == 0x10007;
    assert Register(w, 18) == 0x00;
    assert Register(w, 17) == 0x00;
    assert Register(w, 16) == 0x01;
    assert Register(w, 15) == 0x02;
    assert Register(w, 14) == 0x04;
    assert Register(w, 13) == 0x08;
    assert Register(w, 12) == 0x10;
    assert Register(w, 11) == 0x15;
    assert Register(w, 10) == 0x1F;
    assert Register(w, 9) == 0x0B;
    assert Register(w, 8) == 0x16;
    assert Register(w, 7) == 0x19;
    assert Register(w, 6) == 0x07;
    assert Register(w, 5) == 0x0E;
    assert Register(w, 4) == 0x1C;
    assert Register(w, 3) == 0x0D;
    assert Register(w, 2) == 0x1B;
    assert Register(w, 1) == 0x02;
    assert Register(w, 0) == 0x05;
  }
}
