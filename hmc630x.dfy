/** The HMC6300 transmitter / HMC6301 receiver driver in its fake form
    (drivers/rf-transceiver/hmc630x/hmc630x_fake.c): the device is a 32-row register map
    kept in the descriptor, rows are read and written directly, and initialisation builds
    the table of VCO frequencies the chip can be tuned to for the chosen reference clock.

    Memory comes from the platform: each calloc is an `Alloc` call whose reply says
    whether it succeeded, each free a `Free` call. The descriptor is a class whose
    register map is a fixed 32-byte array; every operation on it is proved against a
    function on sequences, and the properties of the driver are lemmas about those
    functions. */
module Hmc630x {
  import opened Hal
  import opened Bits

  /** enum hmc630x_type; `OtherKind` stands for any other value the field can hold. */
  datatype Kind = Hmc6300 | Hmc6301 | OtherKind

  /** enum hmc630x_ref_clk; `OtherClock` stands for any other value. */
  datatype RefClock = Clock71p42857MHz | Clock75MHz | Clock142p8571MHz | Clock154p2857MHz | OtherClock

  /** The fields of struct hmc630x_init_param this driver reads. */
  datatype InitParam = InitParam(kind: Kind, refClock: RefClock)

  /** A device parameter: the row and the bit-field mask that HMC630X_ROW and HMC630X_MASK
      take out of its 16-bit code (hmc630x.h is not part of this model). */
  datatype Param = Param(row: Octet, mask: byte)

  /** A `uint8_t` used as a number: a row index or a table entry. */
  type Octet = x: int | 0 <= x < 256

  /** Every parameter names a non-empty field of one of the rows. */
  predicate ValidParam(p: Param)
  {
    p.row < ROWS && p.mask != 0
  }

  /** The size of fake_regmap. */
  const ROWS: nat := 32

  /** The rows of the datasheet defaults, and the rows write_regmap goes through. */
  const DEFAULT_ROWS: nat := 24

  /** The range of uint64_t. */
  const U64: int := 0x1_0000_0000_0000_0000

  /** hmc6300_default_regmap. */
  const Hmc6300Defaults: seq<byte> := [
    0x00, 0x4a, 0xf6, 0xf6, 0x00, 0xbf, 0x6c, 0x0f,
    0x8f, 0x00, 0x53, 0x03, 0x00, 0x00, 0x00, 0x00,
    0x36, 0xbb, 0x46, 0x02, 0x22, 0x12, 0x00, 0x62]

  /** hmc6301_default_regmap. */
  const Hmc6301Defaults: seq<byte> := [
    0x00, 0x10, 0x00, 0x03, 0x9f, 0x0f, 0xbf, 0x6d,
    0x80, 0x40, 0x00, 0x00, 0x00, 0x00, 0x00, 0x00,
    0x36, 0xbb, 0x46, 0x02, 0x22, 0x12, 0x00, 0x62]

  function Defaults(k: Kind): (m: seq<byte>)
    requires k != OtherKind
    ensures |m| == DEFAULT_ROWS
  {
    if k == Hmc6300 then Hmc6300Defaults else Hmc6301Defaults
  }

  /** The register map of a freshly initialised descriptor: the defaults copied over the
      zeroed allocation. */
  function InitialMap(k: Kind): (m: seq<byte>)
    requires k != OtherKind
    ensures |m| == ROWS
  {
    Defaults(k) + seq(ROWS - DEFAULT_ROWS, _ => 0)
  }

  // ---------------------------------------------------------------------------------
  // Which rows the register-map operations touch

  /** The first row the register-map loops visit: every type but HMC6301 starts at 1. */
  function FirstRow(k: Kind): nat
  {
    if k == Hmc6301 then 0 else 1
  }

  /** The first row of the block the loops skip; the block ends at row 15. */
  function SkipFrom(k: Kind): nat
  {
    if k == Hmc6301 then 10 else 13
  }

  const SKIP_TO: nat := 15

  predicate Skipped(k: Kind, r: nat)
  {
    SkipFrom(k) <= r <= SKIP_TO
  }

  /** The rows hmc630x_write_regmap writes. */
  predicate Writable(k: Kind, r: nat)
  {
    FirstRow(k) <= r < DEFAULT_ROWS && !Skipped(k, r)
  }

  /** The rows hmc630x_read_regmap reads from the device. */
  predicate Readable(k: Kind, r: nat)
  {
    FirstRow(k) <= r < ROWS && !Skipped(k, r)
  }

  /** The register map after hmc630x_write_regmap(src): the writable rows come from `src`,
      the others keep their value. */
  function Written(k: Kind, m: seq<byte>, src: seq<byte>): (w: seq<byte>)
    requires |m| == ROWS && |src| >= DEFAULT_ROWS
    ensures |w| == ROWS
  {
    seq(ROWS, r requires 0 <= r < ROWS => if Writable(k, r) then src[r] else m[r])
  }

  /** The caller's buffer after hmc630x_read_regmap: the readable rows hold the device's,
      the skipped rows hold zero, and the bytes before the first row or past the map are
      left alone. */
  function ReadBack(k: Kind, m: seq<byte>, out: seq<byte>): (b: seq<byte>)
    requires |m| == ROWS && |out| >= ROWS
    ensures |b| == |out|
  {
    seq(|out|, r requires 0 <= r < |out| =>
      if r < FirstRow(k) || r >= ROWS then out[r] else if Skipped(k, r) then 0 else m[r])
  }

  /** The map part-way through hmc630x_write_regmap: the writable rows below `r` written. */
  function WrittenBelow(k: Kind, m: seq<byte>, src: seq<byte>, r: nat): (w: seq<byte>)
    requires |m| == ROWS && |src| >= DEFAULT_ROWS
    ensures |w| == ROWS
  {
    seq(ROWS, i requires 0 <= i < ROWS => if i < r && Writable(k, i) then src[i] else m[i])
  }

  lemma WrittenStep(k: Kind, m: seq<byte>, src: seq<byte>, r: nat)
    requires |m| == ROWS && |src| >= DEFAULT_ROWS && r < DEFAULT_ROWS
    ensures WrittenBelow(k, m, src, r + 1)
      == if Writable(k, r) then WrittenBelow(k, m, src, r)[r := src[r]] else WrittenBelow(k, m, src, r)
  {
  }

  /** The caller's buffer part-way through hmc630x_read_regmap: the rows from the first
      one up to `r` filled. */
  function ReadBelow(k: Kind, m: seq<byte>, out: seq<byte>, r: nat): (b: seq<byte>)
    requires |m| == ROWS && |out| >= ROWS
    ensures |b| == |out|
  {
    seq(|out|, i requires 0 <= i < |out| =>
      if FirstRow(k) <= i < r && i < ROWS then (if Skipped(k, i) then 0 else m[i]) else out[i])
  }

  lemma ReadStep(k: Kind, m: seq<byte>, out: seq<byte>, r: nat)
    requires |m| == ROWS && |out| >= ROWS && FirstRow(k) <= r < ROWS
    ensures ReadBelow(k, m, out, r + 1) == ReadBelow(k, m, out, r)[r := if Skipped(k, r) then 0 else m[r]]
  {
  }

  /** Reading the map back after writing it returns every written row. */
  lemma RegmapRoundTrip(k: Kind, m: seq<byte>, src: seq<byte>, out: seq<byte>)
    requires |m| == ROWS && |src| >= DEFAULT_ROWS && |out| >= ROWS
    ensures forall r :: 0 <= r < DEFAULT_ROWS && Writable(k, r) ==> ReadBack(k, Written(k, m, src), out)[r] == src[r]
    ensures forall r :: 0 <= r < ROWS && !Writable(k, r) ==> Written(k, m, src)[r] == m[r]
  {
  }

  /** Every readable row is read, every skipped row reads as zero, and the buffer's first
      byte is left alone exactly for the types whose loops start at row 1. */
  lemma ReadBackShape(k: Kind, m: seq<byte>, out: seq<byte>)
    requires |m| == ROWS && |out| >= ROWS
    ensures var b := ReadBack(k, m, out);
      (forall r :: 0 <= r < ROWS && Readable(k, r) ==> b[r] == m[r])
      && (forall r :: 0 <= r < ROWS && Skipped(k, r) ==> b[r] == 0)
      && (b[0] == out[0] <==> k != Hmc6301 || m[0] == out[0])
  {
  }

  /** The rows the driver never writes hold zero in the datasheet defaults, so reading a
      freshly initialised map back yields the initial map on every row it covers. */
  lemma InitialMapReadsBack(k: Kind, out: seq<byte>)
    requires k != OtherKind && |out| >= ROWS
    ensures forall r :: 0 <= r < ROWS && Skipped(k, r) ==> InitialMap(k)[r] == 0
    ensures forall r :: FirstRow(k) <= r < ROWS ==> ReadBack(k, InitialMap(k), out)[r] == InitialMap(k)[r]
  {
    var m := InitialMap(k);
    forall r | 0 <= r < ROWS && Skipped(k, r)
      ensures m[r] == 0
    {
      assert m[r] == Defaults(k)[r];
    }
  }

  /** Writing the defaults over a freshly initialised map leaves it unchanged. */
  lemma DefaultsWriteIsIdentity(k: Kind)
    requires k != OtherKind
    ensures Written(k, InitialMap(k), Defaults(k)) == InitialMap(k)
  {
    var m := InitialMap(k);
    var w := Written(k, m, Defaults(k));
    forall r | 0 <= r < ROWS
      ensures w[r] == m[r]
    {
      if Writable(k, r) {
        assert m[r] == Defaults(k)[r];
      }
    }
  }

  // ---------------------------------------------------------------------------------
  // Parameters (bit-fields of one row)

  /** The map after hmc630x_write(p, value): the field is cleared and the prepared value
      put in its place. */
  function WriteField(m: seq<byte>, p: Param, value: byte): (w: seq<byte>)
    requires |m| == ROWS && ValidParam(p)
    ensures |w| == ROWS
  {
    m[p.row := (m[p.row] & !p.mask) | FieldPrep(p.mask, value)]
  }

  /** The value hmc630x_read(p) returns. */
  function ReadField(m: seq<byte>, p: Param): byte
    requires |m| == ROWS && ValidParam(p)
  {
    FieldGet(p.mask, m[p.row])
  }

  /** Reading a parameter after writing it returns the value, cut to the field's width. */
  lemma FieldRoundTrip(m: seq<byte>, p: Param, value: byte)
    requires |m| == ROWS && ValidParam(p)
    ensures ReadField(WriteField(m, p, value), p) == value & Span(p.mask)
  {
    var old_ := m[p.row] & !p.mask;
    GetIgnoresOutside(p.mask, old_, FieldPrep(p.mask, value));
    GetPrep(p.mask, value);
  }

  /** Writing a parameter changes only its own field: other rows and the bits of its row
      outside the mask are kept. */
  lemma WriteFieldFrame(m: seq<byte>, p: Param, value: byte)
    requires |m| == ROWS && ValidParam(p)
    ensures var w := WriteField(m, p, value);
      (forall r :: 0 <= r < ROWS && r != p.row ==> w[r] == m[r])
      && w[p.row] & !p.mask == m[p.row] & !p.mask
  {
    KeepOutside(m[p.row], p.mask, FieldPrep(p.mask, value));
  }

  lemma KeepOutside(x: byte, mask: byte, f: byte)
    requires f & !mask == 0
    ensures ((x & !mask) | f) & !mask == x & !mask
  {
  }

  /** Writing back the value just read leaves the map unchanged. */
  lemma RewriteIsIdentity(m: seq<byte>, p: Param)
    requires |m| == ROWS && ValidParam(p)
    ensures WriteField(m, p, ReadField(m, p)) == m
  {
    var x := m[p.row];
    PrepGet(p.mask, x);
    Recombine(x, p.mask);
  }

  lemma Recombine(x: byte, mask: byte)
    ensures (x & !mask) | (x & mask) == x
  {
  }

  // ---------------------------------------------------------------------------------
  // VCO table

  /** The arguments _hmc630x_generate_vco gets for one reference clock. */
  datatype VcoPlan = VcoPlan(fStart: nat, fStep: nat, fbdivStart: nat, entries: nat)

  /** The switch on the reference clock in hmc630x_init. */
  function PlanFor(clk: RefClock): (r: Result<VcoPlan>)
    ensures r.Err? <==> clk == OtherClock
    ensures r.Err? ==> r.code == EINVAL
  {
    match clk
    case Clock71p42857MHz => Ok(VcoPlan(56500000000, 250000000, 0x22, 31))
    case Clock75MHz => Ok(VcoPlan(55125000000, 262500000, 0x12, 43))
    case Clock142p8571MHz => Ok(VcoPlan(56500000000, 500000000, 0x11, 16))
    case Clock154p2857MHz => Ok(VcoPlan(57240000000, 540000000, 0x0a, 17))
    case OtherClock => Err(EINVAL)
  }

  /** Entry `e` of the frequency table as the loop computes it, in uint64_t arithmetic. */
  function VcoFreq(p: VcoPlan, e: nat): nat
  {
    (p.fStart + e * p.fStep) % U64
  }

  /** Entry `e` of the FBDIV table, stored into a uint8_t. */
  function VcoFbdiv(p: VcoPlan, e: nat): Octet
  {
    (p.fbdivStart + e) % 256
  }

  function VcoFreqs(p: VcoPlan): (s: seq<nat>)
    ensures |s| == p.entries
  {
    seq(p.entries, e requires 0 <= e < p.entries => VcoFreq(p, e))
  }

  function VcoFbdivs(p: VcoPlan): (s: seq<Octet>)
    ensures |s| == p.entries
  {
    seq(p.entries, e requires 0 <= e < p.entries => VcoFbdiv(p, e))
  }

  /** For every reference clock the tables are exact arithmetic progressions: no entry
      wraps around its 64-bit or 8-bit type, so the frequencies strictly increase and each
      FBDIV is the start value plus the entry's index. */
  lemma VcoTablesExact(clk: RefClock, p: VcoPlan, e: nat)
    requires PlanFor(clk) == Ok(p) && e < p.entries
    ensures VcoFreq(p, e) == p.fStart + e * p.fStep
  {
    PlanFits(clk);
    MulMonotone(e, p.entries, p.fStep);
    BelowModulus(p.fStart + e * p.fStep, U64);
  }

  /** Each FBDIV is the start value plus the entry's index. */
  lemma VcoFbdivExact(clk: RefClock, p: VcoPlan, e: nat)
    requires PlanFor(clk) == Ok(p) && e < p.entries
    ensures VcoFbdiv(p, e) == p.fbdivStart + e
  {
    PlanFits(clk);
    BelowModulus(p.fbdivStart + e, 256);
  }

  lemma BelowModulus(x: nat, m: nat)
    requires x < m
    ensures x % m == x
  {
  }

  /** The last entry of every table fits its type. */
  lemma PlanFits(clk: RefClock)
    requires PlanFor(clk).Ok?
    ensures var p := PlanFor(clk).value;
      p.fStart + p.entries * p.fStep < U64 && p.fbdivStart + p.entries <= 256
      && p.entries < 256 && 0 < p.fStep
  {
  }

  lemma MulMonotone(a: nat, b: nat, c: nat)
    requires a <= b
    ensures a * c <= b * c
  {
  }

  /** The frequency table is sorted, strictly. */
  lemma VcoFreqsIncrease(clk: RefClock, p: VcoPlan, e: nat, f: nat)
    requires PlanFor(clk) == Ok(p) && e < f < p.entries
    ensures VcoFreq(p, e) < VcoFreq(p, f)
  {
    VcoTablesExact(clk, p, e);
    VcoTablesExact(clk, p, f);
    PlanFits(clk);
    MulStrict(e, f, p.fStep);
  }

  lemma MulStrict(a: nat, b: nat, c: nat)
    requires a < b && 0 < c
    ensures a * c < b * c
  {
  }

  // ---------------------------------------------------------------------------------
  // Initialisation

  /** _hmc630x_generate_vco's allocations: the frequency table, then the FBDIV table,
      whose failure frees the first. */
  function VcoRun(o: nat -> Reply, n: nat): Run
  {
    if o(n).status != 0 then Run([Alloc], ENOMEM)
    else if o(n + 1).status != 0 then Run([Alloc, Alloc, Free], ENOMEM)
    else Run([Alloc, Alloc], 0)
  }

  /** hmc630x_init's calls and status; `hasDev` is false when the out-pointer is NULL.
      NULL pointers are refused before anything is allocated; an unknown type or
      reference clock, or a failed table allocation, frees the descriptor. */
  function InitRun(hasDev: bool, init: Option<InitParam>, o: nat -> Reply, n: nat): Run
  {
    if !hasDev || init.None? then Run([], EINVAL)
    else if o(n).status != 0 then Run([Alloc], ENOMEM)
    else
      var b := SetupRun(init.value, o, n + 1);
      Run([Alloc] + b.events, b.ret)
  }

  /** What hmc630x_init does once the descriptor is allocated: check the type, load the
      defaults, build the VCO tables, and free the descriptor on any failure. */
  function SetupRun(init: InitParam, o: nat -> Reply, n: nat): Run
  {
    if init.kind == OtherKind then Run([Free], EINVAL)
    else match PlanFor(init.refClock)
      case Err(e) => Run([Free], e)
      case Ok(p) =>
        var v := VcoRun(o, n);
        if v.ret != 0 then Run(v.events + [Free], v.ret) else Run(v.events, 0)
  }

  /** The allocations still held after `events`, the call at position `n` first: an
      `Alloc` counts when its reply is a success, a `Free` gives one back. */
  function Outstanding(events: seq<Event>, o: nat -> Reply, n: nat): int
    decreases |events|
  {
    if events == [] then 0
    else
      var held := if events[0] == Alloc && o(n).status == 0 then 1 else if events[0] == Free then -1 else 0;
      held + Outstanding(events[1..], o, n + 1)
  }

  /** A failed initialisation holds nothing; a successful one holds the descriptor and its
      two tables, which is what hmc630x_remove frees. */
  lemma InitHoldsOnSuccessOnly(hasDev: bool, init: Option<InitParam>, o: nat -> Reply, n: nat)
    ensures var r := InitRun(hasDev, init, o, n);
      Outstanding(r.events, o, n) == if r.ret == 0 then 3 else 0
  {
    var r := InitRun(hasDev, init, o, n);
    if hasDev && init.Some? && o(n).status == 0 {
      var b := SetupRun(init.value, o, n + 1);
      assert r.events[1..] == b.events;
      assert Outstanding(r.events, o, n) == 1 + Outstanding(b.events, o, n + 1);
      SetupHolds(init.value, o, n + 1);
    }
  }

  /** Once the descriptor is held, the rest of init takes the two tables on success and
      gives back the descriptor, and any table it took, on failure. */
  lemma SetupHolds(init: InitParam, o: nat -> Reply, n: nat)
    ensures var b := SetupRun(init, o, n);
      Outstanding(b.events, o, n) == if b.ret == 0 then 2 else -1
  {
    var b := SetupRun(init, o, n);
    if init.kind != OtherKind && PlanFor(init.refClock).Ok? {
      if o(n).status == 0 {
        assert Outstanding(b.events, o, n) == 1 + Outstanding(b.events[1..], o, n + 1);
        if o(n + 1).status != 0 {
          assert b.events[1..] == [Alloc, Free, Free];
          assert Outstanding(b.events[1..], o, n + 1) == Outstanding([Free, Free], o, n + 2);
        } else {
          assert b.events[1..] == [Alloc];
          assert Outstanding(b.events[1..], o, n + 1) == 1 + Outstanding([], o, n + 2);
        }
      } else {
        assert b.events == [Alloc, Free];
        assert Outstanding(b.events, o, n) == Outstanding([Free], o, n + 1);
      }
    }
  }

  /** hmc630x_init succeeds exactly when the parameters are given, name a known type and
      reference clock, and the three allocations succeed; it refuses bad parameters with
      -EINVAL and allocation failures with -ENOMEM. */
  lemma InitOutcome(hasDev: bool, init: Option<InitParam>, o: nat -> Reply, n: nat)
    ensures var r := InitRun(hasDev, init, o, n);
      (r.ret == 0 <==> hasDev && init.Some? && init.value.kind != OtherKind && init.value.refClock != OtherClock
                       && o(n).status == 0 && o(n + 1).status == 0 && o(n + 2).status == 0)
      && (!hasDev || init.None? ==> r.ret == EINVAL && r.events == [])
      && (hasDev && init.Some? && o(n).status == 0 && (init.value.kind == OtherKind || init.value.refClock == OtherClock)
          ==> r.ret == EINVAL && r.events == [Alloc, Free])
      && (r.ret != 0 && r.ret != EINVAL ==> r.ret == ENOMEM)
  {
  }

  // ---------------------------------------------------------------------------------
  // The descriptor

  /** struct hmc630x_dev. */
  class Dev {
    const hw: Platform
    var kind: Kind
    var freqs: array<nat>
    var fbdiv: array<Octet>
    var entries: nat
    var fakeFreq: nat
    const regmap: array<byte>

    /** The tables hold `entries` entries and the register map has its 32 rows. */
    predicate Valid()
      reads this
    {
      regmap.Length == ROWS && freqs.Length == entries && fbdiv.Length == entries
    }

    /** The descriptor hmc630x_init hands back for `init`: the type's datasheet defaults in
        the map, no fake frequency yet, and the VCO tables of the reference clock. */
    predicate Ready(init: InitParam)
      reads this, regmap, freqs, fbdiv
    {
      Valid() && kind == init.kind && kind != OtherKind && fakeFreq == 0
      && regmap[..] == InitialMap(kind) && PlanFor(init.refClock).Ok?
      && freqs[..] == VcoFreqs(PlanFor(init.refClock).value)
      && fbdiv[..] == VcoFbdivs(PlanFor(init.refClock).value)
      && entries == PlanFor(init.refClock).value.entries
    }

    /** The zero-filled descriptor calloc returns, with its type set. */
    constructor (hw: Platform, kind: Kind)
      ensures Valid() && this.hw == hw && this.kind == kind && entries == 0 && fakeFreq == 0
      ensures fresh(regmap) && regmap[..] == seq(ROWS, _ => 0)
    {
      this.hw := hw;
      this.kind := kind;
      freqs := new nat[0];
      fbdiv := new Octet[0];
      entries := 0;
      fakeFreq := 0;
      regmap := new byte[ROWS](_ => 0);
    }

    /** hmc630x_init; `hasDev` is false when the out-pointer is NULL, and `d` is what it
        stores through it. */
    static method Init(hw: Platform, hasDev: bool, init: Option<InitParam>) returns (ret: int, d: Dev?)
      modifies hw
      ensures hw.trace == old(hw.trace) + InitRun(hasDev, init, hw.oracle, |old(hw.trace)|).events
      ensures ret == InitRun(hasDev, init, hw.oracle, |old(hw.trace)|).ret
      ensures ret == 0 <==> d != null
      ensures d != null ==> fresh(d) && fresh(d.regmap) && d.hw == hw && d.Ready(init.value)
    {
      d := null;
      if !hasDev || init.None? {
        return EINVAL, null;
      }
      ghost var t0 := hw.trace;
      ret := hw.Call(Alloc);
      if ret != 0 {
        return ENOMEM, null;
      }
      ret, d := Setup(hw, init.value);
    }

    /** The rest of hmc630x_init, with the descriptor allocated. */
    static method Setup(hw: Platform, init: InitParam) returns (ret: int, d: Dev?)
      modifies hw
      ensures hw.trace == old(hw.trace) + SetupRun(init, hw.oracle, |old(hw.trace)|).events
      ensures ret == SetupRun(init, hw.oracle, |old(hw.trace)|).ret
      ensures ret == 0 <==> d != null
      ensures d != null ==> fresh(d) && fresh(d.regmap) && d.hw == hw && d.Ready(init)
    {
      d := null;
      var kind := init.kind;
      if kind == OtherKind {
        ret := Release(hw, [Free], EINVAL);
        return;
      }
      var dev := new Dev(hw, kind);
      dev.LoadDefaults();
      var plan := PlanFor(init.refClock);
      if plan.Err? {
        ret := Release(hw, [Free], plan.code);
        return;
      }
      ghost var t1 := hw.trace;
      ret := dev.GenerateVco(plan.value);
      if ret != 0 {
        ghost var t2 := hw.trace;
        ret := Release(hw, [Free], ret);
        AppendAssoc(t1, t2[|t1|..], [Free]);
        return;
      }
      d := dev;
    }

    /** The memcpy of the type's defaults over the first rows of the map. */
    method LoadDefaults()
      requires Valid() && kind != OtherKind && regmap[..] == seq(ROWS, _ => 0)
      modifies regmap
      ensures regmap[..] == InitialMap(kind)
    {
      var src := Defaults(kind);
      forall i | 0 <= i < DEFAULT_ROWS {
        regmap[i] := src[i];
      }
    }

    /** _hmc630x_generate_vco: allocate both tables, then fill them entry by entry. */
    method GenerateVco(p: VcoPlan) returns (ret: int)
      requires Valid()
      modifies this`freqs, this`fbdiv, this`entries, hw
      ensures hw.trace == old(hw.trace) + VcoRun(hw.oracle, |old(hw.trace)|).events
      ensures ret == VcoRun(hw.oracle, |old(hw.trace)|).ret
      ensures ret == 0 ==> Valid() && fresh(freqs) && fresh(fbdiv) && entries == p.entries
      ensures ret == 0 ==> freqs[..] == VcoFreqs(p) && fbdiv[..] == VcoFbdivs(p)
    {
      ghost var t0 := hw.trace;
      ret := hw.Call(Alloc);
      if ret != 0 {
        return ENOMEM;
      }
      ret := hw.Call(Alloc);
      if ret != 0 {
        ret := Release(hw, [Free], ENOMEM);
        assert hw.trace == t0 + [Alloc, Alloc, Free];
        return;
      }
      assert hw.trace == t0 + [Alloc, Alloc];
      var fs, fb := FillVco(p);
      freqs, fbdiv, entries := fs, fb, p.entries;
    }

    /** The loop of _hmc630x_generate_vco over two zeroed tables of `p.entries` entries. */
    static method FillVco(p: VcoPlan) returns (fs: array<nat>, fb: array<Octet>)
      ensures fresh(fs) && fresh(fb)
      ensures fs[..] == VcoFreqs(p) && fb[..] == VcoFbdivs(p)
    {
      fs := new nat[p.entries](_ => 0);
      fb := new Octet[p.entries](_ => 0);
      var e := 0;
      while e < p.entries
        invariant 0 <= e <= p.entries
        invariant forall i :: 0 <= i < e ==> fs[i] == VcoFreq(p, i) && fb[i] == VcoFbdiv(p, i)
      {
        fs[e] := VcoFreq(p, e);
        fb[e] := VcoFbdiv(p, e);
        e := e + 1;
      }
    }

    /** hmc630x_write_row. */
    method WriteRow(row: Octet, val: byte) returns (ret: int)
      requires Valid() && row < ROWS
      modifies regmap
      ensures regmap[..] == old(regmap[..])[row := val] && ret == 0
    {
      regmap[row] := val;
      ret := 0;
    }

    /** hmc630x_read_row. */
    method ReadRow(row: Octet) returns (ret: int, val: byte)
      requires Valid() && row < ROWS
      ensures ret == 0 && val == regmap[row]
    {
      val := regmap[row];
      ret := 0;
    }

    /** hmc630x_write_regmap: every writable row is written and read back; a row that
        reads back differently stops the loop with -EFAULT. */
    method WriteRegmap(src: seq<byte>) returns (ret: int)
      requires Valid() && |src| >= DEFAULT_ROWS
      modifies regmap
      ensures regmap[..] == Written(kind, old(regmap[..]), src) && ret == 0
    {
      var r: nat, skip1: nat, skip2: nat;
      if kind == Hmc6301 {
        r, skip1, skip2 := 0, 10, 15;
      } else {
        r, skip1, skip2 := 1, 13, 15;
      }
      ret := 0;
      while r < DEFAULT_ROWS
        invariant FirstRow(kind) <= r <= DEFAULT_ROWS && skip1 == SkipFrom(kind) && skip2 == SKIP_TO
        invariant ret == 0
        invariant regmap[..] == WrittenBelow(kind, old(regmap[..]), src, r)
      {
        WrittenStep(kind, old(regmap[..]), src, r);
        if r < skip1 || r > skip2 {
          ret := WriteChecked(r, src[r]);
          if ret != 0 {
            return;
          }
        }
        r := r + 1;
      }
      assert WrittenBelow(kind, old(regmap[..]), src, r) == Written(kind, old(regmap[..]), src);
    }

    /** One row of hmc630x_write_regmap: write it, read it back, -EFAULT on a mismatch. */
    method WriteChecked(row: Octet, val: byte) returns (ret: int)
      requires Valid() && row < ROWS
      modifies regmap
      ensures regmap[..] == old(regmap[..])[row := val] && ret == 0
    {
      ret := WriteRow(row, val);
      if ret < 0 {
        return;
      }
      var reg: byte;
      ret, reg := ReadRow(row);
      if ret < 0 {
        return;
      }
      if reg != val {
        return EFAULT;
      }
    }

    /** hmc630x_read_regmap into the caller's 32-byte buffer `out`. */
    method ReadRegmap(out: array<byte>) returns (ret: int)
      requires Valid() && out.Length >= ROWS && out != regmap
      modifies out
      ensures out[..] == ReadBack(kind, regmap[..], old(out[..])) && ret == 0
    {
      var r: nat, skip1: nat, skip2: nat;
      if kind == Hmc6301 {
        r, skip1, skip2 := 0, 10, 15;
      } else {
        r, skip1, skip2 := 1, 13, 15;
      }
      ret := 0;
      while r < ROWS
        invariant FirstRow(kind) <= r <= ROWS && skip1 == SkipFrom(kind) && skip2 == SKIP_TO
        invariant ret == 0
        invariant out[..] == ReadBelow(kind, regmap[..], old(out[..]), r)
      {
        ReadStep(kind, regmap[..], old(out[..]), r);
        ret := FetchRow(out, r, r < skip1 || r > skip2);
        if ret != 0 {
          break;
        }
        r := r + 1;
      }
      assert ReadBelow(kind, regmap[..], old(out[..]), r) == ReadBack(kind, regmap[..], old(out[..]));
    }

    /** One row of hmc630x_read_regmap: the caller's byte is cleared, then, unless the row
        is skipped, the device row is read into it. */
    method FetchRow(out: array<byte>, row: Octet, read: bool) returns (ret: int)
      requires Valid() && row < ROWS && row < out.Length && out != regmap
      modifies out
      ensures out[..] == old(out[..])[row := if read then regmap[row] else 0] && ret == 0
    {
      out[row] := 0;
      ret := 0;
      if read {
        var v: byte;
        ret, v := ReadRow(row);
        out[row] := v;
      }
    }

    /** hmc630x_write: read the row, clear the field, put the prepared value in it. */
    method Write(p: Param, value: byte) returns (ret: int)
      requires Valid() && ValidParam(p)
      modifies regmap
      ensures regmap[..] == WriteField(old(regmap[..]), p, value) && ret == 0
    {
      var reg: byte;
      ret, reg := ReadRow(p.row);
      if ret != 0 {
        return;
      }
      reg := reg & !p.mask;
      reg := reg | FieldPrep(p.mask, value);
      ret := WriteRow(p.row, reg);
    }

    /** hmc630x_read; `hasDest` is false when the destination pointer is NULL. */
    method Read(p: Param, hasDest: bool) returns (ret: int, value: byte)
      requires Valid() && ValidParam(p)
      ensures !hasDest ==> ret == EINVAL
      ensures hasDest ==> ret == 0 && value == ReadField(regmap[..], p)
    {
      if !hasDest {
        return EINVAL, 0;
      }
      var reg: byte;
      ret, reg := ReadRow(p.row);
      if ret != 0 {
        return;
      }
      value := FieldGet(p.mask, reg);
    }

    /** hmc630x_set_vco: the fake driver only records the frequency. */
    method SetVco(frequency: nat) returns (ret: int)
      requires frequency < U64
      modifies this`fakeFreq
      ensures fakeFreq == frequency && ret == 0
    {
      fakeFreq := frequency;
      ret := 0;
    }

    /** hmc630x_get_avail_vco: the descriptor's frequency table and its length; `hasAvail`
        and `hasNum` are false when the matching destination pointer is NULL. */
    static method GetAvailVco(d: Dev?, hasAvail: bool, hasNum: bool) returns (ret: int, avail: array?<nat>, num: nat)
      ensures d == null || !hasAvail || !hasNum ==> ret == EINVAL && avail == null
      ensures d != null && hasAvail && hasNum ==> ret == 0 && avail == d.freqs && num == d.entries
    {
      if d == null || !hasAvail || !hasNum {
        return EINVAL, null, 0;
      }
      return 0, d.freqs, d.entries;
    }
  }
}
