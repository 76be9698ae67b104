/** The bit-banged MDIO transport of the microwave project
    (projects/microwave/src/examples/mdio/mdio_bitbang.c): clause 22 management frames of
    IEEE 802.3 (section 22.2.4.5) driven onto two GPIO lines, MDC the clock and MDIO the
    data.

    The frame header is a pure bit-field expression; every transaction is a fixed
    sequence of GPIO calls whose statuses the driver ignores. The methods are proved to
    make exactly the calls the trace functions below describe, and the properties of the
    transport (frame layout, bit order, clock count, the read assembling what was on the
    line) are lemmas about those functions. */
module Mdio {
  import opened Hal

  // ---------------------------------------------------------------------------------
  // The frame word

  const MDIO_START: bv32 := 1
  const MDIO_WRITE: bv16 := 1
  const MDIO_READ: bv16 := 2
  const MDIO_TURNAROUND: bv32 := 2

  /** NO_OS_GENMASK(31, 30) and the other field masks of the frame word. */
  const START_MASK: bv32 := 0xC000_0000
  const READWRITE_MASK: bv32 := 0x3000_0000
  const PHYADDR_MASK: bv32 := 0x0F80_0000
  const REGADDR_MASK: bv32 := 0x007C_0000
  const TURNAROUND_MASK: bv32 := 0x0003_0000

  /** NO_OS_GPIO_LOW and NO_OS_GPIO_HIGH. */
  const LOW: int := 0
  const HIGH: int := 1

  /** no_os_field_prep on a 32-bit word: `val` shifted up to the field whose lowest bit
      is `shift`, and cut to the field. */
  function FieldPrep32(mask: bv32, shift: bv32, val: bv32): (r: bv32)
    requires shift < 32 && (mask >> shift) & 1 == 1 && mask & ((1 << shift) - 1) == 0
    ensures r & !mask == 0
  {
    (val << shift) & mask
  }

  /** The frame mdio_rw22 builds for operation `rw` on register `reg` of the PHY at `phy`. */
  function Frame(rw: bv16, phy: bv32, reg: bv16): bv32
  {
    FieldPrep32(START_MASK, 30, MDIO_START)
      | FieldPrep32(READWRITE_MASK, 28, rw as bv32)
      | FieldPrep32(PHYADDR_MASK, 23, phy)
      | FieldPrep32(REGADDR_MASK, 18, reg as bv32)
      | FieldPrep32(TURNAROUND_MASK, 16, MDIO_TURNAROUND)
  }

  /** Each field of the frame holds its value: ST = 01 in bits 31:30, the operation in
      29:28, the PHY address in 27:23, the register address in 22:18 and TA = 10 in
      17:16; the operation and the addresses are cut to their widths, and the data half
      is left clear. */
  lemma FrameFields(rw: bv16, phy: bv32, reg: bv16)
    ensures var f := Frame(rw, phy, reg);
      f >> 30 == 1 && (f >> 28) & 3 == (rw as bv32) & 3 && (f >> 23) & 0x1f == phy & 0x1f
      && (f >> 18) & 0x1f == (reg as bv32) & 0x1f && (f >> 16) & 3 == 2 && f & 0xffff == 0
  {
  }

  /** Bit `i` of `word` as the level `(bool)(frame & (1 << i))` drives onto MDIO. */
  function Bit(word: bv32, i: nat): (b: int)
    requires i < 32
    ensures b == 0 || b == 1
  {
    if word & (1 << i) != 0 then HIGH else LOW
  }

  /** The header bits mdio_rw22 shifts out: bits 31 down to 16 of the frame. */
  function HeaderBits(frame: bv32): (bits: seq<int>)
    ensures |bits| == 16
  {
    seq(16, k requires 0 <= k < 16 => Bit(frame, 31 - k))
  }

  /** On the wire the header is ST = 01, the two OP bits, the five PHYAD bits, the five
      REGAD bits and TA = 10, each field most significant bit first. */
  lemma HeaderOnWire(rw: bv16, phy: bv32, reg: bv16)
    ensures var h := HeaderBits(Frame(rw, phy, reg)); var op := rw as bv32; var ra := reg as bv32;
      h[0] == LOW && h[1] == HIGH
      && h[2] == Bit(op, 1) && h[3] == Bit(op, 0)
      && h[4] == Bit(phy, 4) && h[5] == Bit(phy, 3) && h[6] == Bit(phy, 2) && h[7] == Bit(phy, 1) && h[8] == Bit(phy, 0)
      && h[9] == Bit(ra, 4) && h[10] == Bit(ra, 3) && h[11] == Bit(ra, 2) && h[12] == Bit(ra, 1) && h[13] == Bit(ra, 0)
      && h[14] == HIGH && h[15] == LOW
  {
    var f := Frame(rw, phy, reg);
    FramingOnWire(rw, phy, reg);
    PhyOnWire(f, rw, phy, reg);
    RegOnWire(f, rw, phy, reg);
  }

  /** ST, OP and TA on the wire. */
  lemma FramingOnWire(rw: bv16, phy: bv32, reg: bv16)
    ensures var f := Frame(rw, phy, reg); var op := rw as bv32;
      Bit(f, 31) == LOW && Bit(f, 30) == HIGH && Bit(f, 29) == Bit(op, 1) && Bit(f, 28) == Bit(op, 0)
      && Bit(f, 17) == HIGH && Bit(f, 16) == LOW
  {
  }

  lemma PhyOnWire(f: bv32, rw: bv16, phy: bv32, reg: bv16)
    requires f == Frame(rw, phy, reg)
    ensures Bit(f, 27) == Bit(phy, 4) && Bit(f, 26) == Bit(phy, 3) && Bit(f, 25) == Bit(phy, 2)
      && Bit(f, 24) == Bit(phy, 1) && Bit(f, 23) == Bit(phy, 0)
  {
  }

  lemma RegOnWire(f: bv32, rw: bv16, phy: bv32, reg: bv16)
    requires f == Frame(rw, phy, reg)
    ensures var ra := reg as bv32;
      Bit(f, 22) == Bit(ra, 4) && Bit(f, 21) == Bit(ra, 3) && Bit(f, 20) == Bit(ra, 2)
      && Bit(f, 19) == Bit(ra, 1) && Bit(f, 18) == Bit(ra, 0)
  {
  }

  // ---------------------------------------------------------------------------------
  // Transactions as GPIO calls

  /** One MDC clock pulse: high, then low. */
  const Pulse: seq<Event> := [GpioSetValue(Mdc, HIGH), GpioSetValue(Mdc, LOW)]

  /** One preamble bit: MDIO driven high as an output, then a clock pulse. */
  const PreambleBit: seq<Event> := [GpioOutput(Mdio, HIGH)] + Pulse

  /** One data bit clocked in: MDIO sampled, then a clock pulse. */
  const SampleBit: seq<Event> := [GpioGetValue(Mdio)] + Pulse

  /** `k` copies of a three-call step. */
  function Repeat(step: seq<Event>, k: nat): (s: seq<Event>)
    requires |step| == 3
    ensures |s| == 3 * k
  {
    seq(3 * k, i requires 0 <= i < 3 * k => step[i % 3])
  }

  lemma RepeatSnoc(step: seq<Event>, k: nat)
    requires |step| == 3
    ensures Repeat(step, k + 1) == Repeat(step, k) + step
  {
    var a := Repeat(step, k + 1);
    var b := Repeat(step, k) + step;
    forall i | 0 <= i < 3 * k + 3
      ensures a[i] == b[i]
    {
      if i >= 3 * k {
        assert i % 3 == i - 3 * k;
      }
    }
  }

  /** `k` preamble bits: MDIO driven high for each of `k` clock pulses. */
  function Preamble(k: nat): (s: seq<Event>)
    ensures |s| == 3 * k
  {
    Repeat(PreambleBit, k)
  }

  /** The bits `bits` clocked out: each put on MDIO, then a clock pulse. */
  function Clocked(bits: seq<int>): (s: seq<Event>)
    ensures |s| == 3 * |bits|
  {
    if bits == [] then [] else Clocked(bits[..|bits| - 1]) + [GpioSetValue(Mdio, bits[|bits| - 1])] + Pulse
  }

  /** Clocking out one more bit appends its three calls. */
  lemma ClockedStep(t: seq<Event>, bits: seq<int>, k: nat)
    requires k < |bits|
    ensures t + Clocked(bits[..k + 1]) == t + Clocked(bits[..k]) + [GpioSetValue(Mdio, bits[k])] + Pulse
  {
    assert bits[..k + 1][..k] == bits[..k];
  }

  /** `k` data bits clocked in. */
  function Sampling(k: nat): (s: seq<Event>)
    ensures |s| == 3 * k
  {
    Repeat(SampleBit, k)
  }

  /** The calls of mdio_rw22: a 32-bit preamble, then the 16 header bits. */
  function HeaderEvents(rw: bv16, phy: bv32, reg: bv16): (s: seq<Event>)
    ensures |s| == 144
  {
    Preamble(32) + Clocked(HeaderBits(Frame(rw, phy, reg)))
  }

  /** A 16-bit data word, the `uint16_t` a write sends and a read stores. */
  type Word = x: int | 0 <= x < 0x1_0000

  /** Bit `i` of `v` is set, `(v >> i) & 1 == 1`, taking `v` apart one halving at a
      time. */
  function IsSet(v: nat, i: nat): bool
  {
    if i == 0 then v % 2 == 1 else IsSet(v / 2, i - 1)
  }

  /** Bit `i` of a data word as `(in >> i) & 0x1` drives it onto MDIO. */
  function DataBit(v: Word, i: nat): int
  {
    if IsSet(v, i) then HIGH else LOW
  }

  /** The 16 bits of a data word, most significant first. */
  function DataBits(v: Word): (bits: seq<int>)
    ensures |bits| == 16
  {
    seq(16, k requires 0 <= k < 16 => DataBit(v, 15 - k))
  }

  /** The calls of mdio_bitbang_write. */
  function WriteEvents(phy: bv32, reg: bv16, v: Word): seq<Event>
  {
    HeaderEvents(MDIO_WRITE, phy, reg) + Clocked(DataBits(v))
  }

  /** The calls of mdio_bitbang_read: the header, MDIO turned to an input, 16 samples. */
  function ReadEvents(phy: bv32, reg: bv16): seq<Event>
  {
    HeaderEvents(MDIO_READ, phy, reg) + [GpioInput(Mdio)] + Sampling(16)
  }

  /** The number of clock pulses in `s`. */
  function Pulses(s: seq<Event>): nat
  {
    multiset(s)[GpioSetValue(Mdc, HIGH)]
  }

  /** Each repetition of a step holds that step's pulses. */
  lemma {:induction false} RepeatPulses(step: seq<Event>, k: nat)
    requires |step| == 3
    ensures Pulses(Repeat(step, k)) == k * Pulses(step)
  {
    if k > 0 {
      RepeatPulses(step, k - 1);
      RepeatSnoc(step, k - 1);
      assert multiset(Repeat(step, k)) == multiset(Repeat(step, k - 1)) + multiset(step);
      assert Pulses(Repeat(step, k)) == Pulses(Repeat(step, k - 1)) + Pulses(step);
      assert k * Pulses(step) == (k - 1) * Pulses(step) + Pulses(step);
    } else {
      assert Repeat(step, k) == [];
    }
  }

  lemma {:induction false} ClockedPulses(bits: seq<int>)
    ensures Pulses(Clocked(bits)) == |bits|
  {
    if bits != [] {
      var init := bits[..|bits| - 1];
      ClockedPulses(init);
      assert multiset(Clocked(bits))
        == multiset(Clocked(init)) + multiset([GpioSetValue(Mdio, bits[|bits| - 1])]) + multiset(Pulse);
    }
  }

  /** Clocking out two bit strings one after the other is clocking out their
      concatenation. */
  lemma {:induction false} ClockedAppend(a: seq<int>, b: seq<int>)
    ensures Clocked(a + b) == Clocked(a) + Clocked(b)
    decreases |b|
  {
    if b == [] {
      assert a + b == a;
    } else {
      var b' := b[..|b| - 1];
      assert (a + b)[..|a + b| - 1] == a + b';
      ClockedAppend(a, b');
    }
  }

  /** A write is 32 preamble pulses followed by 32 bits clocked out MSB first: the 16
      header bits, then the 16 data bits. Each of the 64 bits takes exactly one clock
      pulse. */
  lemma WriteShape(phy: bv32, reg: bv16, v: Word)
    ensures WriteEvents(phy, reg, v) == Preamble(32) + Clocked(HeaderBits(Frame(MDIO_WRITE, phy, reg)) + DataBits(v))
    ensures Pulses(WriteEvents(phy, reg, v)) == 64
  {
    var hb := HeaderBits(Frame(MDIO_WRITE, phy, reg));
    ClockedAppend(hb, DataBits(v));
    AppendAssoc(Preamble(32), Clocked(hb), Clocked(DataBits(v)));
    RepeatPulses(PreambleBit, 32);
    ClockedPulses(hb + DataBits(v));
  }

  /** A read also takes 64 clock pulses: 32 of preamble, 16 for the header and one per
      sampled bit. */
  lemma ReadPulses(phy: bv32, reg: bv16)
    ensures Pulses(ReadEvents(phy, reg)) == 64
  {
    RepeatPulses(PreambleBit, 32);
    ClockedPulses(HeaderBits(Frame(MDIO_READ, phy, reg)));
    RepeatPulses(SampleBit, 16);
  }

  // ---------------------------------------------------------------------------------
  // Assembling a read

  /** The word a read builds from its samples, each one shifted in at the bottom. */
  function Assemble(samples: seq<bool>): nat
  {
    if samples == [] then 0
    else 2 * Assemble(samples[..|samples| - 1]) + (if samples[|samples| - 1] then 1 else 0)
  }

  lemma AssembleSnoc(s: seq<bool>, k: nat)
    requires k < |s|
    ensures Assemble(s[..k + 1]) == 2 * Assemble(s[..k]) + (if s[k] then 1 else 0)
  {
    assert s[..k + 1][..k] == s[..k];
  }

  function Pow2(k: nat): (p: nat)
    ensures p >= 1
  {
    if k == 0 then 1 else 2 * Pow2(k - 1)
  }

  lemma Pow2Sixteen()
    ensures Pow2(16) == 0x1_0000
  {
    assert Pow2(4) == 16;
    assert Pow2(8) == 256;
    assert Pow2(12) == 4096;
  }

  lemma {:induction false} Pow2Mono(a: nat, b: nat)
    requires a <= b
    ensures Pow2(a) <= Pow2(b)
  {
    if a < b {
      Pow2Mono(a, b - 1);
    }
  }

  /** `m` samples assemble to less than 2 to the `m`: nothing is shifted out of a
      word that has room for them. */
  lemma {:induction false} AssembleBound(s: seq<bool>)
    ensures Assemble(s) < Pow2(|s|)
  {
    if s != [] {
      AssembleBound(s[..|s| - 1]);
    }
  }

  /** `*out |= 1`: the low bit set. */
  function SetLow(x: Word): Word
  {
    if x % 2 == 1 then x else x + 1
  }

  /** `*out <<= 1` on a `uint16_t`: doubled, and cut back to 16 bits. */
  function ShiftUp(x: Word): Word
  {
    (2 * x) % 0x1_0000
  }

  /** What one pass of the read loop leaves in `*out`: the low bit set for a high sample,
      then the word shifted up when more passes follow. */
  function Pass(out: Word, high: bool, more: bool): Word
  {
    var w := if high then SetLow(out) else out;
    if more then ShiftUp(w) else w
  }

  /** `*out` after the first `k` of 16 passes over the samples `s`. */
  function Acc(s: seq<bool>, k: nat): Word
    requires k <= |s| == 16
  {
    if k == 0 then 0 else Pass(Acc(s, k - 1), s[k - 1], k != 16)
  }

  /** Before the last pass the loop holds the samples so far, shifted up by one; the
      16-bit shift never loses a sample. */
  lemma {:induction false} AccAssemble(s: seq<bool>, k: nat)
    requires |s| == 16 && k < 16
    ensures Acc(s, k) == 2 * Assemble(s[..k])
  {
    if k > 0 {
      AccAssemble(s, k - 1);
      AssembleSnoc(s, k - 1);
      PrefixFits(s, k);
      PassEven(Assemble(s[..k - 1]), s[k - 1]);
    } else {
      assert s[..0] == [];
    }
  }

  /** Fewer than 16 samples assemble to less than 2 to the 15. */
  lemma PrefixFits(s: seq<bool>, k: nat)
    requires k < 16 && k <= |s|
    ensures Assemble(s[..k]) < 0x8000
  {
    AssembleBound(s[..k]);
    Pow2Mono(k, 15);
    Pow2Sixteen();
  }

  /** A pass over a word whose low bit is clear adds the sample there; shifting it up
      loses nothing while the word is below 2 to the 15. */
  lemma PassEven(a: nat, b: bool)
    requires 2 * a + 1 < 0x8000
    ensures Pass(2 * a, b, true) == 2 * (2 * a + (if b then 1 else 0))
    ensures Pass(2 * a, b, false) == 2 * a + (if b then 1 else 0)
  {
  }

  lemma AccStep(s: seq<bool>, k: nat, high: bool)
    requires |s| == 16 && k < 16 && s[k] == high
    ensures Acc(s, k + 1) == Pass(Acc(s, k), high, k != 15)
  {
  }

  /** After the last pass the loop holds exactly the assembled samples. */
  lemma AccLast(s: seq<bool>)
    requires |s| == 16
    ensures Acc(s, 16) == Assemble(s)
  {
    AccAssemble(s, 15);
    AssembleSnoc(s, 15);
    assert s[..16] == s;
  }

  /** The 16 levels mdio_bitbang_read samples, the first at trace position `n`; a non-zero
      level reads as a one. */
  function Samples(o: nat -> Reply, n: nat): (s: seq<bool>)
    ensures |s| == 16
  {
    seq(16, j requires 0 <= j < 16 => o(n + 3 * j).level != 0)
  }

  /** The value mdio_bitbang_read stores, the read's first call at trace position `n`. */
  function ReadValue(phy: bv32, reg: bv16, o: nat -> Reply, n: nat): nat
  {
    Assemble(Samples(o, n + |HeaderEvents(MDIO_READ, phy, reg)| + 1))
  }

  /** Doubling a word and adding a bit puts that bit at position 0 and moves every other
      bit up by one. */
  lemma ShiftInBits(a: nat, b: bool, i: nat)
    ensures IsSet(2 * a + (if b then 1 else 0), 0) == b
    ensures IsSet(2 * a + (if b then 1 else 0), i + 1) == IsSet(a, i)
  {
    assert (2 * a + (if b then 1 else 0)) / 2 == a;
  }

  /** Sample `j` of `m` ends up in bit `m - 1 - j`: the first sample is the most
      significant. */
  lemma {:induction false} AssembleBit(s: seq<bool>, j: nat)
    requires j < |s|
    ensures IsSet(Assemble(s), |s| - 1 - j) == s[j]
  {
    var m := |s|;
    var init := s[..m - 1];
    if j < m - 1 {
      AssembleBit(init, j);
      ShiftInBits(Assemble(init), s[m - 1], m - 2 - j);
    } else {
      ShiftInBits(Assemble(init), s[m - 1], 0);
    }
  }

  /** The 16 samples of a read end up in bits 15 down to 0 of the result. */
  lemma ReadBitOrder(s: seq<bool>)
    requires |s| == 16
    ensures forall j :: 0 <= j < 16 ==> IsSet(Assemble(s), 15 - j) == s[j]
  {
    forall j | 0 <= j < 16
      ensures IsSet(Assemble(s), 15 - j) == s[j]
    {
      AssembleBit(s, j);
    }
  }

  /** Bits `n - 1` down to 0 of `v`. */
  function Digits(v: nat, n: nat): (s: seq<bool>)
    ensures |s| == n
  {
    seq(n, k requires 0 <= k < n => IsSet(v, n - 1 - k))
  }

  lemma DigitsSnoc(v: nat, n: nat)
    requires n > 0
    ensures Digits(v, n) == Digits(v / 2, n - 1) + [v % 2 == 1]
  {
    var d := Digits(v, n);
    assert v == 2 * (v / 2) + (if v % 2 == 1 then 1 else 0);
    assert d[n - 1] == IsSet(v, 0);
    forall k | 0 <= k < n - 1
      ensures d[k] == Digits(v / 2, n - 1)[k]
    {
      ShiftInBits(v / 2, v % 2 == 1, n - 2 - k);
    }
  }

  /** Any `v` below 2 to the `n` is rebuilt from its `n` low bits, most significant
      first. */
  lemma {:induction false} DigitsAssemble(v: nat, n: nat)
    requires v < Pow2(n)
    ensures Assemble(Digits(v, n)) == v
  {
    if n == 0 {
      assert Digits(v, n) == [];
    } else {
      var d := Digits(v, n);
      assert v / 2 < Pow2(n - 1);
      DigitsAssemble(v / 2, n - 1);
      DigitsSnoc(v, n);
      assert d[..n - 1] == Digits(v / 2, n - 1);
      assert Assemble(d) == 2 * Assemble(d[..n - 1]) + (if d[n - 1] then 1 else 0);
    }
  }

  /** The levels a write of `v` puts on MDIO, as a read samples them. */
  function WireSamples(v: Word): (s: seq<bool>)
    ensures |s| == 16
  {
    seq(16, k requires 0 <= k < 16 => DataBits(v)[k] == HIGH)
  }

  lemma WireSampleBit(v: Word, k: nat)
    requires k < 16
    ensures WireSamples(v)[k] == IsSet(v, 15 - k)
  {
    assert DataBits(v)[k] == DataBit(v, 15 - k);
  }

  /** A read whose samples are the bits a write of `v` put on the line returns `v`. */
  lemma WireRoundTrip(v: Word)
    ensures Assemble(WireSamples(v)) == v
  {
    forall k | 0 <= k < 16
      ensures WireSamples(v)[k] == Digits(v, 16)[k]
    {
      WireSampleBit(v, k);
    }
    assert WireSamples(v) == Digits(v, 16);
    Pow2Sixteen();
    DigitsAssemble(v, 16);
  }

  /** A read returns `v` exactly when it sampled the bits a write of `v` drives. */
  lemma ReadsBackIff(s: seq<bool>, v: Word)
    requires |s| == 16
    ensures Assemble(s) == v <==> s == WireSamples(v)
  {
    if s == WireSamples(v) {
      WireRoundTrip(v);
    }
    if Assemble(s) == v {
      forall j | 0 <= j < 16
        ensures s[j] == WireSamples(v)[j]
      {
        AssembleBit(s, j);
        WireSampleBit(v, j);
      }
    }
  }

  // ---------------------------------------------------------------------------------
  // Initialisation

  /** The calls of mdio_bitbang_init when all succeed: the transport's private state, the
      MDIO descriptor, the MDC and MDIO lines, MDC driven low, MDIO driven high. */
  const InitCalls: seq<Event> :=
    [Alloc, Alloc, GpioGet(Mdc), GpioGet(Mdio), GpioOutput(Mdc, LOW), GpioOutput(Mdio, HIGH)]

  /** The goto ladder of mdio_bitbang_init with the error code the failure of the second
      allocation evidently calls for; `stale` is what the code as written returns there
      instead: `ret` has not been assigned on that path. */
  function InitLadder(stale: int, o: nat -> Reply, n: nat): Run
  {
    if o(n).status != 0 then Run([Alloc], ENOMEM)
    else if o(n + 1).status != 0 then Run([Alloc, Alloc, Free], stale)
    else
      var l := LinesRun(o, n + 2);
      Run([Alloc, Alloc] + l.events, l.ret)
  }

  /** The GPIO half of mdio_bitbang_init, both allocations held: get MDC and MDIO, drive
      MDC low and MDIO high, and on a failure give back what is held, newest first. */
  function LinesRun(o: nat -> Reply, n: nat): Run
  {
    if o(n).status != 0 then Run([GpioGet(Mdc), Free, Free], o(n).status)
    else if o(n + 1).status != 0 then Run([GpioGet(Mdc), GpioGet(Mdio), GpioRemove(Mdc), Free, Free], o(n + 1).status)
    else if o(n + 2).status != 0 then Run(InitCalls[2..5] + Unwound, o(n + 2).status)
    else if o(n + 3).status != 0 then Run(InitCalls[2..] + Unwound, o(n + 3).status)
    else Run(InitCalls[2..], 0)
  }

  /** What a failure after both lines are held gives back. */
  const Unwound: seq<Event> := [GpioRemove(Mdio), GpioRemove(Mdc), Free, Free]

  /** mdio_bitbang_init as written. */
  function InitRunAsWritten(stale: int, o: nat -> Reply, n: nat): Run
  {
    InitLadder(stale, o, n)
  }

  /** mdio_bitbang_init with -ENOMEM returned when the descriptor cannot be allocated. */
  function InitRun(o: nat -> Reply, n: nat): Run
  {
    InitLadder(ENOMEM, o, n)
  }

  /** As written, a failed descriptor allocation can report success: when the unassigned
      `ret` happens to hold 0, init returns 0 having freed its state and set nothing. */
  lemma StaleStatusReportsSuccess(o: nat -> Reply, n: nat)
    requires o(n).status == 0 && o(n + 1).status != 0
    ensures InitRunAsWritten(0, o, n).ret == 0
    ensures InitRunAsWritten(0, o, n).events == [Alloc, Alloc, Free] != InitCalls
  {
  }

  /** With the error code corrected, init succeeds exactly when all six calls do, and then
      makes exactly those calls; a failure gives back, newest first, everything acquired
      before the failing call. */
  lemma InitOutcome(o: nat -> Reply, n: nat)
    ensures var r := InitRun(o, n);
      (r.ret == 0 <==> forall j :: n <= j < n + 6 ==> o(j).status == 0)
      && (r.ret == 0 ==> r.events == InitCalls)
      && (r.ret != 0 ==> UnwindsOnFailure(r.events))
  {
    var r := InitRun(o, n);
    if r.ret != 0 {
      InitFailureUnwinds(o, n);
    }
    if forall j :: n <= j < n + 6 ==> o(j).status == 0 {
      assert o(n + 5).status == 0;
    }
  }

  lemma InitFailureUnwinds(o: nat -> Reply, n: nat)
    requires InitRun(o, n).ret != 0
    ensures UnwindsOnFailure(InitRun(o, n).events)
  {
    var k := if o(n).status != 0 then 0 else if o(n + 1).status != 0 then 1
      else if o(n + 2).status != 0 then 2 else if o(n + 3).status != 0 then 3
      else if o(n + 4).status != 0 then 4 else 5;
    assert InitRun(o, n).events == InitCalls[..k + 1] + LadderTail(k);
    LadderUnwinds(k);
  }

  /** The releases after the `k`-th call of the ladder fails, as the labels list them. */
  function LadderTail(k: nat): seq<Event>
    requires k < 6
  {
    if k == 0 then [] else if k == 1 then [Free] else if k == 2 then [Free, Free]
    else if k == 3 then [GpioRemove(Mdc), Free, Free] else Unwound
  }

  /** Each label of the ladder gives back, newest first, what the calls before the
      failing one acquired. */
  lemma LadderUnwinds(k: nat)
    requires k < 6
    ensures UnwindsOnFailure(InitCalls[..k + 1] + LadderTail(k))
  {
    var held := InitCalls[..if k < 4 then k else 4];
    HeldBefore(k);
    UnwindHeld(|held|);
    assert InitCalls[..k + 1] == InitCalls[..k] + [InitCalls[k]];
    UnwindsAt(InitCalls[..k], InitCalls[k]);
  }

  /** The calls before the `k`-th acquire the first `min(k, 4)` of them and release nothing. */
  lemma HeldBefore(k: nat)
    requires k < 6
    ensures Releases(InitCalls[..k]) == [] && !IsRelease(InitCalls[k])
    ensures Acquisitions(InitCalls[..k]) == InitCalls[..if k < 4 then k else 4]
  {
    if k <= 4 {
      AllAcquire(InitCalls[..k]);
    } else {
      AllAcquire(InitCalls[..4]);
      AppendNeutral(InitCalls[..4], [InitCalls[4]]);
      assert InitCalls[..4] + [InitCalls[4]] == InitCalls[..k];
    }
  }

  lemma UnwindHeld(j: nat)
    requires j <= 4
    ensures Unwind(InitCalls[..j]) == LadderTail(j)
  {
    if j > 0 {
      UnwindHeld(j - 1);
      assert InitCalls[..j][..j - 1] == InitCalls[..j - 1];
    }
  }

  // ---------------------------------------------------------------------------------
  // The operations

  /** One MDC pulse. */
  method Clock(hw: Platform)
    modifies hw
    ensures hw.trace == old(hw.trace) + Pulse
  {
    var _ := hw.Call(GpioSetValue(Mdc, HIGH));
    var _ := hw.Call(GpioSetValue(Mdc, LOW));
  }

  /** One preamble bit. */
  method PreambleStep(hw: Platform)
    modifies hw
    ensures hw.trace == old(hw.trace) + PreambleBit
  {
    var _ := hw.Call(GpioOutput(Mdio, HIGH));
    Clock(hw);
  }

  /** One bit clocked out. */
  method ClockOut(hw: Platform, level: int)
    modifies hw
    ensures hw.trace == old(hw.trace) + [GpioSetValue(Mdio, level)] + Pulse
  {
    var _ := hw.Call(GpioSetValue(Mdio, level));
    Clock(hw);
  }

  /** One bit clocked in: the level MDIO reads, then a clock pulse. */
  method ClockIn(hw: Platform) returns (state: byte)
    modifies hw
    ensures hw.trace == old(hw.trace) + SampleBit
    ensures state == hw.oracle(|old(hw.trace)|).level
  {
    var _, level := hw.GetValue(Mdio);
    state := level;
    Clock(hw);
  }

  /** mdio_rw22: the preamble and the header of a clause 22 frame; statuses are ignored. */
  method Rw22(hw: Platform, phy: bv32, rw: bv16, reg: bv16) returns (ret: int)
    modifies hw
    ensures hw.trace == old(hw.trace) + HeaderEvents(rw, phy, reg) && ret == 0
  {
    var frame := Frame(rw, phy, reg);
    ghost var t0 := hw.trace;
    SendPreamble(hw);
    ghost var t1 := hw.trace;
    SendHeader(hw, frame);
    AppendAssoc(t0, Preamble(32), Clocked(HeaderBits(frame)));
    ret := 0;
  }

  /** The preamble loop of mdio_rw22. */
  method SendPreamble(hw: Platform)
    modifies hw
    ensures hw.trace == old(hw.trace) + Preamble(32)
  {
    var i := 31;
    while i >= 0
      invariant -1 <= i <= 31
      invariant hw.trace == old(hw.trace) + Preamble(31 - i)
    {
      PreambleStep(hw);
      RepeatSnoc(PreambleBit, 31 - i);
      i := i - 1;
    }
  }

  /** The header loop of mdio_rw22: frame bits 31 down to 16. */
  method SendHeader(hw: Platform, frame: bv32)
    modifies hw
    ensures hw.trace == old(hw.trace) + Clocked(HeaderBits(frame))
  {
    ghost var bits := HeaderBits(frame);
    var i := 31;
    while i >= 16
      invariant 15 <= i <= 31
      invariant hw.trace == old(hw.trace) + Clocked(bits[..31 - i])
    {
      var level := HeaderLevel(frame, i);
      ClockedStep(old(hw.trace), bits, 31 - i);
      ClockOut(hw, level);
      i := i - 1;
    }
    assert bits[..16] == bits;
  }

  /** The level `(bool)(frame & (1 << i))` the header loop drives onto MDIO for bit `i`. */
  method HeaderLevel(frame: bv32, i: int) returns (level: int)
    requires 16 <= i < 32
    ensures level == HeaderBits(frame)[31 - i]
  {
    level := Bit(frame, i);
  }

  /** mdio_bitbang_write: the header with OP = write, then the 16 data bits. */
  method Write(hw: Platform, phy: bv32, reg: bv16, v: Word) returns (ret: int)
    modifies hw
    ensures hw.trace == old(hw.trace) + WriteEvents(phy, reg, v) && ret == 0
  {
    ghost var t0 := hw.trace;
    ret := Rw22(hw, phy, MDIO_WRITE, reg);
    SendData(hw, v);
    AppendAssoc(t0, HeaderEvents(MDIO_WRITE, phy, reg), Clocked(DataBits(v)));
    ret := 0;
  }

  /** The data loop of mdio_bitbang_write: bits 15 down to 0 of `v`. */
  method SendData(hw: Platform, v: Word)
    modifies hw
    ensures hw.trace == old(hw.trace) + Clocked(DataBits(v))
  {
    ghost var bits := DataBits(v);
    var i := 15;
    while i >= 0
      invariant -1 <= i <= 15
      invariant hw.trace == old(hw.trace) + Clocked(bits[..15 - i])
    {
      ClockedStep(old(hw.trace), bits, 15 - i);
      ClockOut(hw, DataBit(v, i));
      i := i - 1;
    }
    assert bits[..16] == bits;
  }

  /** mdio_bitbang_read: the header with OP = read, MDIO turned to an input, then 16
      samples shifted in most significant first. */
  method Read(hw: Platform, phy: bv32, reg: bv16) returns (ret: int, out: Word)
    modifies hw
    ensures hw.trace == old(hw.trace) + ReadEvents(phy, reg) && ret == 0
    ensures out == ReadValue(phy, reg, hw.oracle, |old(hw.trace)|)
  {
    ghost var t0 := hw.trace;
    ret := Rw22(hw, phy, MDIO_READ, reg);
    var _ := hw.Call(GpioInput(Mdio));
    ghost var t1 := hw.trace;
    out := ShiftIn(hw);
    AppendAssoc(t0, HeaderEvents(MDIO_READ, phy, reg) + [GpioInput(Mdio)], Sampling(16));
    ret := 0;
  }

  /** The data loop of mdio_bitbang_read: `*out` starts at 0; each sample sets the low
      bit when MDIO reads non-zero, and every sample but the last is then shifted up. */
  method ShiftIn(hw: Platform) returns (out: Word)
    modifies hw
    ensures hw.trace == old(hw.trace) + Sampling(16)
    ensures out == Assemble(Samples(hw.oracle, |old(hw.trace)|))
  {
    ghost var s := Samples(hw.oracle, |hw.trace|);
    out := 0;
    var i := 15;
    while i >= 0
      invariant -1 <= i <= 15
      invariant hw.trace == old(hw.trace) + Sampling(15 - i)
      invariant out == Acc(s, 15 - i)
    {
      ghost var k := 15 - i;
      assert |hw.trace| == |old(hw.trace)| + 3 * k;
      out := SampleInto(hw, out, i);
      SamplingStep(old(hw.trace), k);
      AccStep(s, k, hw.oracle(|old(hw.trace)| + 3 * k).level != 0);
      i := i - 1;
    }
    AccLast(s);
  }

  lemma SamplingStep(t: seq<Event>, k: nat)
    ensures t + Sampling(k) + SampleBit == t + Sampling(k + 1)
  {
    RepeatSnoc(SampleBit, k);
  }

  /** One pass of the data loop: MDIO sampled, the low bit set on a non-zero level, the
      word shifted up unless this is the last bit, and a clock pulse. */
  method SampleInto(hw: Platform, out: Word, i: int) returns (r: Word)
    modifies hw
    ensures hw.trace == old(hw.trace) + SampleBit
    ensures r == Pass(out, hw.oracle(|old(hw.trace)|).level != 0, i != 0)
  {
    var state := ClockIn(hw);
    r := out;
    if state != 0 {
      r := SetLow(r);
    }
    if i != 0 {
      r := ShiftUp(r);
    }
  }

  /** mdio_bitbang_init, with the failed descriptor allocation reported as -ENOMEM. */
  method Init(hw: Platform) returns (ret: int)
    modifies hw
    ensures hw.trace == old(hw.trace) + InitRun(hw.oracle, |old(hw.trace)|).events
    ensures ret == InitRun(hw.oracle, |old(hw.trace)|).ret
  {
    ghost var t0 := hw.trace;
    ret := hw.Call(Alloc);
    if ret != 0 {
      return ENOMEM;
    }
    ret := hw.Call(Alloc);
    if ret != 0 {
      ret := Release(hw, [Free], ENOMEM);
      return;
    }
    ghost var t1 := hw.trace;
    ret := AcquireLines(hw);
    AppendAssoc(t0, [Alloc, Alloc], hw.trace[|t1|..]);
  }

  /** The GPIO half of mdio_bitbang_init, from the goto ladder's first line request on. */
  method AcquireLines(hw: Platform) returns (ret: int)
    modifies hw
    ensures hw.trace == old(hw.trace) + LinesRun(hw.oracle, |old(hw.trace)|).events
    ensures ret == LinesRun(hw.oracle, |old(hw.trace)|).ret
  {
    ret := hw.Call(GpioGet(Mdc));
    if ret != 0 {
      ret := Release(hw, [Free, Free], ret);
      return;
    }
    ret := hw.Call(GpioGet(Mdio));
    if ret != 0 {
      ret := Release(hw, [GpioRemove(Mdc), Free, Free], ret);
      return;
    }
    ret := hw.Call(GpioOutput(Mdc, LOW));
    if ret != 0 {
      ret := Release(hw, Unwound, ret);
      return;
    }
    ret := hw.Call(GpioOutput(Mdio, HIGH));
    if ret != 0 {
      ret := Release(hw, Unwound, ret);
      return;
    }
  }

  /** mdio_bitbang_remove: nothing to release. */
  method Remove() returns (ret: int)
    ensures ret == 0
  {
    ret := 0;
  }
}
