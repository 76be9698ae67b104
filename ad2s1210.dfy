/** The AD2S1210 resolver-to-digital converter driver. The chip shares its serial port
    between register access and conversion results, and two mode pins A0/A1 choose
    which: registers are reachable only in configuration mode. The driver caches the mode
    it last drove onto the pins. When the mode pins are not wired, conversions are read
    back through the position and velocity registers. The register addresses, the
    control register's resolution bits and the enumerator values come from a header that
    is not part of this model; they are the fields of `Config`. */
module Ad2s1210 {
  import opened Hal

  datatype Config = Config(
    regMin: byte,        // AD2S1210_REG_MIN, the lowest register address
    regControl: byte,    // AD2S1210_REG_CONTROL
    regPosition: byte,   // AD2S1210_REG_POSITION, high byte first, the low byte next
    regVelocity: byte,   // AD2S1210_REG_VELOCITY, likewise
    resMask: byte,       // AD2S1210_CONTROL_RES_MASK
    res0: byte,          // AD2S1210_CONTROL_RES0
    res1: byte,          // AD2S1210_CONTROL_RES1
    modePos: nat,        // MODE_POS
    modeVel: nat,        // MODE_VEL
    modeConfig: nat,     // MODE_CONFIG
    res10: int,          // AD2S1210_RES_10BIT
    res12: int,          // AD2S1210_RES_12BIT
    res14: int,          // AD2S1210_RES_14BIT
    res16: int)          // AD2S1210_RES_16BIT

  /** What the header guarantees: the control register is a register, both resolution
      bits lie inside the resolution field, and the four resolutions are distinct case
      labels. */
  predicate ValidConfig(c: Config)
  {
    c.regMin <= c.regControl
    && c.res0 & !c.resMask == 0 && c.res1 & !c.resMask == 0
    && c.res10 != c.res12 && c.res10 != c.res14 && c.res10 != c.res16
    && c.res12 != c.res14 && c.res12 != c.res16 && c.res14 != c.res16
  }

  /** enum ad2s1210_channel: angle or velocity. */
  datatype Channel = Position | Velocity

  // ---------------------------------------------------------------------------------
  // Mode pins

  /** The value set_mode_pins drives onto A0: `mode & BIT(0)`. */
  function A0Level(mode: nat): int
  {
    mode % 2
  }

  /** The value set_mode_pins drives onto A1: `mode & BIT(1)`, which is 0 or 2. */
  function A1Level(mode: nat): int
  {
    mode / 2 % 2 * 2
  }

  /** The two pin writes of set_mode_pins, A0 first. */
  function ModeWrites(mode: nat): seq<Event>
  {
    [GpioSetValue(A0, A0Level(mode)), GpioSetValue(A1, A1Level(mode))]
  }

  /** The calls a driver operation makes, its status, and the cached mode afterwards. */
  datatype DevRun = DevRun(events: seq<Event>, ret: int, mode: nat)

  /** ad2s1210_set_mode_pins from the cached mode `cached` to `mode`, the first call at
      trace position `n`. */
  function SetModeRun(cached: nat, mode: nat, o: nat -> Reply, n: nat): DevRun
  {
    if cached == mode then DevRun([], 0, cached)
    else if o(n).status != 0 then DevRun(ModeWrites(mode)[..1], o(n).status, cached)
    else if o(n + 1).status != 0 then DevRun(ModeWrites(mode), o(n + 1).status, cached)
    else DevRun(ModeWrites(mode), 0, mode)
  }

  /** Switching modes touches the pins only when the mode changes, writes A0 then A1
      and stops at the first failure, and the cache follows the pins: it holds the new
      mode exactly when the switch succeeds and keeps the old one otherwise. */
  lemma SetModeOutcome(cached: nat, mode: nat, o: nat -> Reply, n: nat)
    ensures var r := SetModeRun(cached, mode, o, n);
      (cached == mode ==> r.events == [] && r.ret == 0)
      && (cached != mode ==> 0 < |r.events| && r.events == ModeWrites(mode)[..|r.events|])
      && (r.ret == 0 <==> cached == mode || (o(n).status == 0 && o(n + 1).status == 0))
      && r.mode == (if r.ret == 0 then mode else cached)
  {
  }

  /** The two levels set_mode_pins writes add up to the two low bits of the mode. */
  lemma ModeLevelsEncode(mode: nat)
    ensures A0Level(mode) in {0, 1} && A1Level(mode) in {0, 2}
    ensures A0Level(mode) + A1Level(mode) == mode % 4
  {
  }

  /** As written, A1 never receives the level NO_OS_GPIO_HIGH (1): for every mode with
      bit 1 set it receives 2, the next value of the GPIO level enumeration. */
  lemma A1LevelIsNeverHigh(mode: nat)
    ensures A1Level(mode) != 1
    ensures mode % 4 >= 2 ==> A1Level(mode) == 2
  {
  }

  /** The level A1 was evidently meant to get, `!!(mode & BIT(1))`, as the driver
      itself writes the RES1 pin. */
  function A1LevelIntended(mode: nat): int
  {
    mode / 2 % 2
  }

  /** The intended levels are both 0 or 1, and together they spell the mode's two low
      bits: A0 is bit 0 and A1 is bit 1. */
  lemma IntendedModeLevels(mode: nat)
    ensures A0Level(mode) in {0, 1} && A1LevelIntended(mode) in {0, 1}
    ensures A0Level(mode) + 2 * A1LevelIntended(mode) == mode % 4
    ensures A1LevelIntended(mode) == 1 <==> A1Level(mode) != 0
  {
  }

  // ---------------------------------------------------------------------------------
  // Register access

  /** One single-byte no_os_spi_write_and_read sending `b`. */
  function Xfer(b: byte): Event
  {
    SpiWriteAndRead([b])
  }

  /** ad2s1210_reg_write: configuration mode, then the address and the value, each in its
      own one-byte exchange. */
  function RegWriteRun(c: Config, cached: nat, addr: byte, val: byte, o: nat -> Reply, n: nat): DevRun
  {
    if addr < c.regMin then DevRun([], EINVAL, cached)
    else
      var m := SetModeRun(cached, c.modeConfig, o, n);
      var k := n + |m.events|;
      if m.ret != 0 then m
      else if o(k).status != 0 then DevRun(m.events + [Xfer(addr)], o(k).status, m.mode)
      else DevRun(m.events + [Xfer(addr), Xfer(val)], o(k + 1).status, m.mode)
  }

  /** A register read: the run and, when it succeeds, the byte read. */
  datatype ReadRun = ReadRun(run: DevRun, val: byte)

  /** ad2s1210_reg_read: configuration mode, then two one-byte exchanges that both send
      the address; the byte clocked in by the second is the register's value. */
  function RegReadRun(c: Config, cached: nat, addr: byte, o: nat -> Reply, n: nat): ReadRun
  {
    if addr < c.regMin then ReadRun(DevRun([], EINVAL, cached), 0)
    else
      var m := SetModeRun(cached, c.modeConfig, o, n);
      var k := n + |m.events|;
      if m.ret != 0 then ReadRun(m, 0)
      else if o(k).status != 0 then ReadRun(DevRun(m.events + [Xfer(addr)], o(k).status, m.mode), 0)
      else ReadRun(DevRun(m.events + [Xfer(addr), Xfer(addr)], o(k + 1).status, m.mode),
                   if o(k + 1).status == 0 then Received(o(k + 1), 1)[0] else 0)
  }

  /** An address below the register range is refused with -EINVAL before any pin or bus
      activity, by both accessors. */
  lemma RegAccessRejectsLowAddress(c: Config, cached: nat, addr: byte, val: byte, o: nat -> Reply, n: nat)
    requires addr < c.regMin
    ensures RegWriteRun(c, cached, addr, val, o, n) == DevRun([], EINVAL, cached)
    ensures RegReadRun(c, cached, addr, o, n).run == DevRun([], EINVAL, cached)
  {
  }

  /** A register write switches to configuration mode first and touches the bus only once
      that succeeded: its calls are the mode switch followed by the exchange of `addr` and
      then of `val`, cut after the first failure; on success the device is left in
      configuration mode. */
  lemma RegWriteSendsAddressThenValue(c: Config, cached: nat, addr: byte, val: byte, o: nat -> Reply, n: nat)
    requires c.regMin <= addr
    ensures var r := RegWriteRun(c, cached, addr, val, o, n);
      var m := SetModeRun(cached, c.modeConfig, o, n);
      var full := m.events + [Xfer(addr), Xfer(val)];
      |m.events| <= |r.events| <= |full| && r.events == full[..|r.events|]
      && (|r.events| > |m.events| ==> m.ret == 0 && r.mode == c.modeConfig)
      && (r.ret == 0 <==> r.events == full && o(n + |m.events|).status == 0 && o(n + |m.events| + 1).status == 0)
      && (r.ret == 0 ==> r.mode == c.modeConfig)
  {
    var r := RegWriteRun(c, cached, addr, val, o, n);
    var m := SetModeRun(cached, c.modeConfig, o, n);
    SetModeOutcome(cached, c.modeConfig, o, n);
    if m.ret == 0 && o(n + |m.events|).status != 0 {
      assert r.events == (m.events + [Xfer(addr), Xfer(val)])[..|m.events| + 1];
    }
  }

  /** Both exchanges of a register read send the register's address, and a successful
      read returns the byte clocked in by the second exchange, the last call. */
  lemma RegReadSendsAddressTwice(c: Config, cached: nat, addr: byte, o: nat -> Reply, n: nat)
    requires c.regMin <= addr
    ensures var r := RegReadRun(c, cached, addr, o, n);
      var m := SetModeRun(cached, c.modeConfig, o, n);
      r.run.events[..|m.events|] == m.events
      && (forall i :: |m.events| <= i < |r.run.events| ==> r.run.events[i] == Xfer(addr))
      && (r.run.ret == 0 ==> |r.run.events| == |m.events| + 2 && r.run.mode == c.modeConfig
                             && r.val == Received(o(n + |r.run.events| - 1), 1)[0])
  {
    SetModeOutcome(cached, c.modeConfig, o, n);
  }

  /** Once the cache says configuration mode, register access never touches the mode
      pins again and the cache stays put. */
  lemma RegAccessInConfigMode(c: Config, addr: byte, val: byte, o: nat -> Reply, n: nat)
    ensures var w := RegWriteRun(c, c.modeConfig, addr, val, o, n);
      w.mode == c.modeConfig && (forall e | e in w.events :: e.SpiWriteAndRead?)
    ensures var r := RegReadRun(c, c.modeConfig, addr, o, n).run;
      r.mode == c.modeConfig && (forall e | e in r.events :: e.SpiWriteAndRead?)
  {
    assert SetModeRun(c.modeConfig, c.modeConfig, o, n) == DevRun([], 0, c.modeConfig);
    var w := RegWriteRun(c, c.modeConfig, addr, val, o, n).events;
    var r := RegReadRun(c, c.modeConfig, addr, o, n).run.events;
    assert w == [] || w == [Xfer(addr)] || w == [Xfer(addr), Xfer(val)];
    assert r == [] || r == [Xfer(addr)] || r == [Xfer(addr), Xfer(addr)];
  }

  // ---------------------------------------------------------------------------------
  // Resolution

  /** The resolution field's bits for each supported resolution; anything else is
      refused with -EINVAL. */
  function ResolutionCode(c: Config, res: int): Result<byte>
  {
    if res == c.res10 then Ok(0)
    else if res == c.res12 then Ok(c.res0)
    else if res == c.res14 then Ok(c.res1)
    else if res == c.res16 then Ok(c.res1 | c.res0)
    else Err(EINVAL)
  }

  /** `control` with its resolution field cleared and `code` or-ed in. */
  function ControlWith(c: Config, control: byte, code: byte): byte
  {
    (control & !c.resMask) | code
  }

  /** The level set_resolution drives onto RES0: `control & BIT(0)`. */
  function Res0Level(control: byte): int
  {
    (control & 1) as int
  }

  /** The level set_resolution drives onto RES1: `!!(control & BIT(1))`. */
  function Res1Level(control: byte): int
  {
    if control & 2 == 0 then 0 else 1
  }

  /** The run `r` after the calls `pre`. */
  function After(pre: seq<Event>, r: DevRun): DevRun
  {
    DevRun(pre + r.events, r.ret, r.mode)
  }

  /** ad2s1210_set_resolution with resolution pins when `pins`. */
  function SetResolutionRun(c: Config, cached: nat, pins: bool, res: int, o: nat -> Reply, n: nat): DevRun
  {
    var rd := RegReadRun(c, cached, c.regControl, o, n);
    if rd.run.ret != 0 then rd.run
    else match ResolutionCode(c, res)
      case Err(e) => DevRun(rd.run.events, e, rd.run.mode)
      case Ok(code) =>
        After(rd.run.events, WriteControlRun(c, rd.run.mode, pins, ControlWith(c, rd.val, code), o, n + |rd.run.events|))
  }

  /** The end of set_resolution: CONTROL is written with `control`, then the resolution
      pins, when there are any, are driven from it. */
  function WriteControlRun(c: Config, cached: nat, pins: bool, control: byte, o: nat -> Reply, k: nat): DevRun
  {
    var wr := RegWriteRun(c, cached, c.regControl, control, o, k);
    var j := k + |wr.events|;
    if wr.ret != 0 || !pins then wr
    else if o(j).status != 0 then DevRun(wr.events + [GpioSetValue(Res0, Res0Level(control))], o(j).status, wr.mode)
    else DevRun(wr.events + [GpioSetValue(Res0, Res0Level(control)), GpioSetValue(Res1, Res1Level(control))],
                o(j + 1).status, wr.mode)
  }

  /** Exactly the four resolutions are accepted, and each code lies inside the field. */
  lemma ResolutionCodeInField(c: Config, res: int)
    requires ValidConfig(c)
    ensures ResolutionCode(c, res).Ok? <==> res in {c.res10, c.res12, c.res14, c.res16}
    ensures ResolutionCode(c, res).Ok? ==> ResolutionCode(c, res).value & !c.resMask == 0
    ensures ResolutionCode(c, res).Err? ==> ResolutionCode(c, res).code == EINVAL
  {
    if res == c.res16 {
      OrOutside(c.res1, c.res0, c.resMask);
    }
  }

  lemma OrOutside(a: byte, b: byte, m: byte)
    requires a & !m == 0 && b & !m == 0
    ensures (a | b) & !m == 0
  {
  }

  /** The written control byte keeps every bit of the byte read outside the resolution
      field, and the field holds exactly the code. */
  lemma ControlWithFields(c: Config, control: byte, code: byte)
    requires code & !c.resMask == 0
    ensures ControlWith(c, control, code) & !c.resMask == control & !c.resMask
    ensures ControlWith(c, control, code) & c.resMask == code
  {
  }

  /** With the chip's layout (RES0 is bit 0 and RES1 bit 1 of the control register) the
      two resolution pins repeat the field just written: RES0 is high for 12 and 16 bits,
      RES1 for 14 and 16 bits. */
  lemma ResolutionPinsMatchField(c: Config, control: byte, res: int)
    requires ValidConfig(c) && c.res0 == 1 && c.res1 == 2 && c.resMask == 3
    requires ResolutionCode(c, res).Ok?
    ensures var w := ControlWith(c, control, ResolutionCode(c, res).value);
      (Res0Level(w) == 1 <==> res == c.res12 || res == c.res16) && Res0Level(w) in {0, 1}
      && (Res1Level(w) == 1 <==> res == c.res14 || res == c.res16) && Res1Level(w) in {0, 1}
  {
    var code := ResolutionCode(c, res).value;
    var w := ControlWith(c, control, code);
    LowBitsOfControl(control, code);
  }

  lemma LowBitsOfControl(control: byte, code: byte)
    requires code & !3 == 0
    ensures ((control & !3) | code) & 1 == code & 1
    ensures ((control & !3) | code) & 2 == code & 2
  {
  }

  /** set_resolution reads CONTROL first; when the read succeeds but the resolution is
      not one of the four, it returns -EINVAL having written nothing. */
  lemma SetResolutionRejectsInvalid(c: Config, cached: nat, pins: bool, res: int, o: nat -> Reply, n: nat)
    requires ResolutionCode(c, res).Err? && ValidConfig(c)
    ensures var rd := RegReadRun(c, cached, c.regControl, o, n).run;
      var r := SetResolutionRun(c, cached, pins, res, o, n);
      r.events == rd.events && r.mode == rd.mode
      && r.ret == (if rd.ret != 0 then rd.ret else EINVAL)
  {
    ResolutionCodeInField(c, res);
  }

  /** For a supported resolution and a successful read of CONTROL, set_resolution goes
      on to write CONTROL with the field replaced by the code. */
  lemma SetResolutionWritesField(c: Config, cached: nat, pins: bool, res: int, o: nat -> Reply, n: nat)
    requires ValidConfig(c) && ResolutionCode(c, res).Ok?
    requires RegReadRun(c, cached, c.regControl, o, n).run.ret == 0
    ensures var rd := RegReadRun(c, cached, c.regControl, o, n);
      var w := ControlWith(c, rd.val, ResolutionCode(c, res).value);
      w & !c.resMask == rd.val & !c.resMask && w & c.resMask == ResolutionCode(c, res).value
      && rd.run.mode == c.modeConfig
      && SetResolutionRun(c, cached, pins, res, o, n)
         == After(rd.run.events, WriteControlRun(c, c.modeConfig, pins, w, o, n + |rd.run.events|))
  {
    var rd := RegReadRun(c, cached, c.regControl, o, n);
    ResolutionCodeInField(c, res);
    ControlWithFields(c, rd.val, ResolutionCode(c, res).value);
    RegReadLeavesConfigMode(c, cached, c.regControl, o, n);
  }

  /** From configuration mode, writing CONTROL is the exchange of the address and then of
      the byte, and the resolution pins are driven, RES0 first, only when there are pins
      and the write succeeded, each from the byte written; the first failure ends it. */
  lemma WriteControlOutcome(c: Config, pins: bool, control: byte, o: nat -> Reply, k: nat)
    requires ValidConfig(c)
    ensures var r := WriteControlRun(c, c.modeConfig, pins, control, o, k);
      var full := [Xfer(c.regControl), Xfer(control)]
                  + (if pins then [GpioSetValue(Res0, Res0Level(control)), GpioSetValue(Res1, Res1Level(control))] else []);
      0 < |r.events| <= |full| && r.events == full[..|r.events|] && r.mode == c.modeConfig
      && (r.ret == 0 <==> r.events == full && forall j :: k <= j < k + |full| ==> o(j).status == 0)
  {
  }

  /** Started from configuration mode, setting the resolution leaves the cached mode
      there, whatever the outcome. */
  lemma SetResolutionLeavesConfigMode(c: Config, pins: bool, res: int, o: nat -> Reply, n: nat)
    requires ValidConfig(c)
    ensures SetResolutionRun(c, c.modeConfig, pins, res, o, n).mode == c.modeConfig
  {
    var rd := RegReadRun(c, c.modeConfig, c.regControl, o, n);
    RegAccessInConfigMode(c, c.regControl, 0, o, n);
    if rd.run.ret == 0 && ResolutionCode(c, res).Ok? {
      var w := ControlWith(c, rd.val, ResolutionCode(c, res).value);
      WriteControlOutcome(c, pins, w, o, n + |rd.run.events|);
    }
  }

  /** Started from configuration mode, as initialisation does, setting the resolution
      never touches the mode pins and leaves the cached mode alone: it makes only SPI
      exchanges and writes to the resolution pins. */
  lemma SetResolutionKeepsConfigMode(c: Config, pins: bool, res: int, o: nat -> Reply, n: nat)
    requires ValidConfig(c)
    ensures var r := SetResolutionRun(c, c.modeConfig, pins, res, o, n);
      r.mode == c.modeConfig && 0 < |r.events| && OnlyResolutionCalls(r.events)
  {
    var rd := RegReadRun(c, c.modeConfig, c.regControl, o, n);
    RegAccessInConfigMode(c, c.regControl, 0, o, n);
    SetResolutionLeavesConfigMode(c, pins, res, o, n);
    if rd.run.ret == 0 && ResolutionCode(c, res).Ok? {
      var w := ControlWith(c, rd.val, ResolutionCode(c, res).value);
      WriteControlTouchesOnlyResolution(c, pins, w, o, n + |rd.run.events|);
    }
  }

  /** The calls of a resolution update: SPI exchanges and writes to the resolution pins. */
  predicate OnlyResolutionCalls(events: seq<Event>)
  {
    forall e | e in events :: e.SpiWriteAndRead? || (e.GpioSetValue? && (e.pin == Res0 || e.pin == Res1))
  }

  /** Writing the control register from configuration mode makes only SPI exchanges and
      writes to the resolution pins. */
  lemma WriteControlTouchesOnlyResolution(c: Config, pins: bool, control: byte, o: nat -> Reply, k: nat)
    requires ValidConfig(c)
    ensures OnlyResolutionCalls(WriteControlRun(c, c.modeConfig, pins, control, o, k).events)
  {
    var r := WriteControlRun(c, c.modeConfig, pins, control, o, k);
    WriteControlOutcome(c, pins, control, o, k);
    var full := [Xfer(c.regControl), Xfer(control)]
                + (if pins then [GpioSetValue(Res0, Res0Level(control)), GpioSetValue(Res1, Res1Level(control))] else []);
    forall e | e in r.events
      ensures e.SpiWriteAndRead? || (e.GpioSetValue? && (e.pin == Res0 || e.pin == Res1))
    {
      assert e in full;
    }
  }

  // ---------------------------------------------------------------------------------
  // Single conversion

  const SamplePulse: seq<Event> := [GpioSetValue(Sample, 0), GpioSetValue(Sample, 1)]

  /** A conversion: the run and the two bytes of the caller's buffer afterwards. */
  datatype Conversion = Conversion(run: DevRun, data: seq<byte>)

  /** The mode a conversion of `chn` uses when the mode pins are wired. */
  function ChannelMode(c: Config, chn: Channel): nat
  {
    if chn == Velocity then c.modeVel else c.modePos
  }

  /** The register holding the high byte of `chn`'s result. */
  function ChannelRegister(c: Config, chn: Channel): byte
  {
    if chn == Velocity then c.regVelocity else c.regPosition
  }

  /** ad2s1210_spi_single_conversion into the two bytes `data` (in memory order). */
  function ConversionRun(c: Config, cached: nat, modePins: bool, chn: Channel, data: seq<byte>,
                         o: nat -> Reply, n: nat): Conversion
    requires |data| == 2
  {
    var p := SampleRun(o, n);
    if p.ret != 0 then Conversion(DevRun(p.events, p.ret, cached), data)
    else
      var r := ReadChannelRun(c, cached, modePins, chn, data, o, n + 2);
      Conversion(After(SamplePulse, r.run), r.data)
  }

  /** The sample pulse of a conversion, which stops at the first failing edge. */
  function SampleRun(o: nat -> Reply, n: nat): Run
  {
    if o(n).status != 0 then Run(SamplePulse[..1], o(n).status) else Run(SamplePulse, o(n + 1).status)
  }

  /** The part of a conversion after the sample pulse, which depends on whether the mode
      pins are wired. */
  function ReadChannelRun(c: Config, cached: nat, modePins: bool, chn: Channel, data: seq<byte>,
                          o: nat -> Reply, n: nat): Conversion
    requires |data| == 2
  {
    if modePins then InModeRun(c, cached, chn, data, o, n) else ThroughRegistersRun(c, cached, chn, data, o, n)
  }

  /** The conversion branch with the mode pins wired: the channel's mode, then one
      two-byte exchange of the caller's buffer, which receives the bytes clocked in. */
  function InModeRun(c: Config, cached: nat, chn: Channel, data: seq<byte>, o: nat -> Reply, n: nat): Conversion
    requires |data| == 2
  {
    var m := SetModeRun(cached, ChannelMode(c, chn), o, n);
    var k := n + |m.events|;
    if m.ret != 0 then Conversion(m, data)
    else Conversion(DevRun(m.events + [SpiWriteAndRead(data)], o(k).status, m.mode), Received(o(k), 2))
  }

  /** ad2s1210_reg_read into byte `i` of the caller's buffer, which only a successful
      read writes. */
  function ReadIntoRun(c: Config, cached: nat, addr: byte, data: seq<byte>, i: nat, o: nat -> Reply, n: nat): Conversion
    requires i < |data|
  {
    var r := RegReadRun(c, cached, addr, o, n);
    Conversion(r.run, if r.run.ret == 0 then data[i := r.val] else data)
  }

  /** The conversion branch without mode pins: the channel's register into byte 0, then
      the next register into byte 1. */
  function ThroughRegistersRun(c: Config, cached: nat, chn: Channel, data: seq<byte>, o: nat -> Reply, n: nat): Conversion
    requires |data| == 2
  {
    var addr := ChannelRegister(c, chn);
    var lo := ReadIntoRun(c, cached, addr, data, 0, o, n);
    if lo.run.ret != 0 then lo
    else
      var hi := ReadIntoRun(c, lo.run.mode, addr + 1, lo.data, 1, o, n + |lo.run.events|);
      Conversion(After(lo.run.events, hi.run), hi.data)
  }

  /** Every conversion starts by pulling SAMPLE low and then high, and a failure of
      either ends it there with the buffer untouched. */
  lemma ConversionSamplesFirst(c: Config, cached: nat, modePins: bool, chn: Channel, data: seq<byte>,
                               o: nat -> Reply, n: nat)
    requires |data| == 2
    ensures var r := ConversionRun(c, cached, modePins, chn, data, o, n);
      0 < |r.run.events| && r.run.events[0] == GpioSetValue(Sample, 0)
      && (o(n).status == 0 ==> 1 < |r.run.events| && r.run.events[1] == GpioSetValue(Sample, 1))
      && (o(n).status != 0 || o(n + 1).status != 0 ==> r.data == data && r.run.events == SamplePulse[..|r.run.events|])
  {
  }

  /** With the mode pins wired, a successful conversion selects the channel's mode and
      returns the two raw bytes clocked in by a two-byte exchange, its last call. */
  lemma ConversionWithModePins(c: Config, cached: nat, chn: Channel, data: seq<byte>, o: nat -> Reply, n: nat)
    requires |data| == 2
    ensures var r := InModeRun(c, cached, chn, data, o, n);
      r.run.ret == 0 ==>
        r.run.mode == ChannelMode(c, chn)
        && r.run.events[|r.run.events| - 1] == SpiWriteAndRead(data)
        && r.data == Received(o(n + |r.run.events| - 1), 2)
        && (forall e | e in r.run.events :: !e.SpiWriteAndRead? || e == SpiWriteAndRead(data))
  {
    SetModeOutcome(cached, ChannelMode(c, chn), o, n);
  }

  /** Without the mode pins, a successful conversion is two register reads: the
      channel's register into byte 0 and the next register into byte 1, leaving the
      device in configuration mode. */
  lemma ConversionThroughRegisters(c: Config, cached: nat, chn: Channel, data: seq<byte>, o: nat -> Reply, n: nat)
    requires |data| == 2
    ensures var r := ThroughRegistersRun(c, cached, chn, data, o, n);
      var addr := ChannelRegister(c, chn);
      var r1 := RegReadRun(c, cached, addr, o, n);
      var r2 := RegReadRun(c, r1.run.mode, addr + 1, o, n + |r1.run.events|);
      r.run.ret == 0 ==>
        r1.run.ret == 0 && r2.run.ret == 0
        && |r.data| == 2 && r.data[0] == r1.val && r.data[1] == r2.val
        && r.run == After(r1.run.events, r2.run)
        && r.run.mode == c.modeConfig
  {
    var addr := ChannelRegister(c, chn);
    var r1 := RegReadRun(c, cached, addr, o, n);
    if r1.run.ret == 0 {
      RegReadLeavesConfigMode(c, r1.run.mode, addr + 1, o, n + |r1.run.events|);
    }
  }

  /** A successful register read leaves the device in configuration mode. */
  lemma RegReadLeavesConfigMode(c: Config, cached: nat, addr: byte, o: nat -> Reply, n: nat)
    ensures var r := RegReadRun(c, cached, addr, o, n).run;
      r.ret == 0 ==> r.mode == c.modeConfig
  {
    SetModeOutcome(cached, c.modeConfig, o, n);
  }

  // ---------------------------------------------------------------------------------
  // Initialisation

  /** The calls of ad2s1210_init after the allocation, up to the SPI initialisation. The
      optional lines are requested, and later driven, even when they turn out absent. */
  const SetupCalls: seq<Event> := [
    GpioGet(Sample), GpioGetOptional(A0), GpioGetOptional(A1), GpioGetOptional(Res0),
    GpioGetOptional(Res1), GpioOutput(A0, 1), GpioOutput(A1, 1), GpioOutput(Res0, 1),
    GpioOutput(Res1, 1), GpioOutput(Sample, 1), SpiInit]

  /** The error labels of ad2s1210_init, from err_spi down to err_sample, as one
      fall-through sequence of calls. */
  const Teardown: seq<Event> := [
    SpiRemove, GpioRemove(Res1), GpioRemove(Res0), GpioRemove(A1), GpioRemove(A0),
    GpioRemove(Sample), Free]

  /** The calls from the label a failure of setup call `i` jumps to: the request of line
      `i` jumps past the removals of line `i` and those after it; every direction and SPI
      failure jumps to err_output. */
  function ErrLabel(i: nat): seq<Event>
    requires i < |SetupCalls|
  {
    if i < 5 then Teardown[6 - i..] else Teardown[1..]
  }

  /** Whether both resolution lines exist, read from the replies to their requests. */
  function HaveResolutionPins(o: nat -> Reply, base: nat): bool
  {
    o(base + 4).present && o(base + 5).present
  }

  /** The calls of ad2s1210_init when the allocation is the call at trace position
      `base`. */
  function InitRun(c: Config, res: int, o: nat -> Reply, base: nat): Run
  {
    if o(base).status != 0 then Run([Alloc], ENOMEM)
    else Prefixed([Alloc], SetupFrom(c, res, o, base, 0))
  }

  /** The calls of ad2s1210_init from setup call `i` on. */
  function SetupFrom(c: Config, res: int, o: nat -> Reply, base: nat, i: nat): Run
    requires i <= |SetupCalls|
    decreases |SetupCalls| - i
  {
    if i == |SetupCalls| then ResolutionStage(c, res, o, base)
    else if o(base + 1 + i).status != 0 then Run([SetupCalls[i]] + ErrLabel(i), o(base + 1 + i).status)
    else Prefixed([SetupCalls[i]], SetupFrom(c, res, o, base, i + 1))
  }

  /** The resolution is set from the cached configuration mode; a failure goes to
      err_spi. */
  function ResolutionStage(c: Config, res: int, o: nat -> Reply, base: nat): Run
  {
    var r := SetResolutionRun(c, c.modeConfig, HaveResolutionPins(o, base), res, o, base + 1 + |SetupCalls|);
    if r.ret != 0 then Run(r.events + Teardown, r.ret) else Run(r.events, 0)
  }

  /** The first five setup calls acquire, each released by the matching teardown call;
      the next five are neutral; the last brings up SPI. */
  lemma SetupCallFacts()
    ensures forall j :: 0 <= j < 5 ==> IsAcquire(SetupCalls[j]) && ReleaseOf(SetupCalls[j]) == Teardown[5 - j]
    ensures forall j :: 5 <= j < 10 ==> IsNeutral(SetupCalls[j])
    ensures SetupCalls[10] == SpiInit
  {
  }

  /** The allocation and the first `i` line requests acquire everything they make. */
  lemma LinesAcquire(i: nat)
    requires i <= 5
    ensures Acquisitions([Alloc] + SetupCalls[..i]) == [Alloc] + SetupCalls[..i]
    ensures Releases([Alloc] + SetupCalls[..i]) == []
  {
    SetupCallFacts();
    AllAcquire([Alloc] + SetupCalls[..i]);
  }

  /** The unwinding of the allocation and the first `i` line requests is the last
      `i + 1` teardown calls. */
  lemma {:induction false} LinesUnwind(i: nat)
    requires i <= 5
    ensures Unwind([Alloc] + SetupCalls[..i]) == Teardown[6 - i..]
  {
    var pre := [Alloc] + SetupCalls[..i];
    SetupCallFacts();
    if i > 0 {
      LinesUnwind(i - 1);
      PrefixSnoc(Alloc, SetupCalls, i);
      SuffixCons(Teardown, 6 - i);
      assert Unwind(pre) == [ReleaseOf(SetupCalls[i - 1])] + Unwind([Alloc] + SetupCalls[..i - 1]);
    }
  }

  /** Each error label gives back, newest first, exactly what the calls before the
      failing one acquired: the goto ladder is an unwinding. */
  lemma ErrLabelIsUnwind(i: nat)
    requires i < |SetupCalls|
    ensures ErrLabel(i) == Unwind(Acquisitions([Alloc] + SetupCalls[..i]))
    ensures Releases([Alloc] + SetupCalls[..i]) == []
  {
    if i <= 5 {
      LinesUnwind(i);
      LinesAcquire(i);
    } else {
      var acq := [Alloc] + SetupCalls[..5];
      LinesUnwind(5);
      LinesAcquire(5);
      SetupCallFacts();
      assert [Alloc] + SetupCalls[..i] == acq + SetupCalls[5..i];
      AppendNeutral(acq, SetupCalls[5..i]);
    }
  }

  /** The calls of set_resolution are a non-empty run of neutral calls. */
  lemma ResolutionCallsNeutral(c: Config, pins: bool, res: int, o: nat -> Reply, n: nat)
    requires ValidConfig(c)
    ensures var r := SetResolutionRun(c, c.modeConfig, pins, res, o, n);
      0 < |r.events| && forall i :: 0 <= i < |r.events| ==> IsNeutral(r.events[i])
  {
    SetResolutionKeepsConfigMode(c, pins, res, o, n);
    var r := SetResolutionRun(c, c.modeConfig, pins, res, o, n);
    forall i | 0 <= i < |r.events| ensures IsNeutral(r.events[i]) {
      assert r.events[i] in r.events;
    }
  }

  /** A failed initialisation frees what it acquired and nothing else, newest first; a
      successful one holds the sample line, the four optional lines, the SPI device and
      the descriptor, and has released nothing. */
  lemma InitKeepsPromise(c: Config, res: int, o: nat -> Reply, base: nat)
    requires ValidConfig(c)
    ensures var r := InitRun(c, res, o, base);
      (r.ret != 0 ==> UnwindsOnFailure(r.events))
      && (r.ret == 0 ==> Acquisitions(r.events) == [Alloc] + SetupCalls[..5] + [SpiInit]
                         && Releases(r.events) == [])
  {
    var r := InitRun(c, res, o, base);
    if o(base).status != 0 {
      UnwindsAtRun([], Alloc, [], r.events);
    } else {
      SetupFromOutcome(c, res, o, base, 0, [Alloc]);
    }
  }

  /** ad2s1210_init returns 0 exactly when the resolution is one of the four supported
      and every call it makes succeeds; a failed allocation gives -ENOMEM. */
  lemma InitSucceedsIff(c: Config, res: int, o: nat -> Reply, base: nat)
    requires ValidConfig(c)
    ensures var r := InitRun(c, res, o, base);
      (r.ret == 0 <==> ResolutionCode(c, res).Ok? && AllSucceed(o, base, |r.events|))
      && (o(base).status != 0 ==> r.ret == ENOMEM)
  {
    var r := InitRun(c, res, o, base);
    if o(base).status != 0 {
      FailureBreaks(o, base, |r.events|, base);
    } else {
      var s := SetupFrom(c, res, o, base, 0);
      SetupSucceedsIff(c, res, o, base, 0);
      AllSucceedSplit(o, base, 1, |s.events|);
    }
  }

  /** Setup from call `i` on succeeds exactly when the resolution is supported and every
      call it makes succeeds. */
  lemma {:induction false} SetupSucceedsIff(c: Config, res: int, o: nat -> Reply, base: nat, i: nat)
    requires ValidConfig(c) && i <= |SetupCalls|
    ensures var r := SetupFrom(c, res, o, base, i);
      r.ret == 0 <==> ResolutionCode(c, res).Ok? && AllSucceed(o, base + 1 + i, |r.events|)
    decreases |SetupCalls| - i
  {
    if i == |SetupCalls| {
      ResolutionStageSucceedsIff(c, res, o, base);
    } else if o(base + 1 + i).status != 0 {
      SetupCallBreaks(c, res, o, base, i);
    } else {
      SetupSucceedsIff(c, res, o, base, i + 1);
      SetupCallPasses(c, res, o, base, i);
    }
  }

  /** A failing setup call makes init fail. */
  lemma SetupCallBreaks(c: Config, res: int, o: nat -> Reply, base: nat, i: nat)
    requires i < |SetupCalls| && o(base + 1 + i).status != 0
    ensures var r := SetupFrom(c, res, o, base, i);
      r.ret != 0 && !AllSucceed(o, base + 1 + i, |r.events|)
  {
    var r := SetupFrom(c, res, o, base, i);
    FailureBreaks(o, base + 1 + i, |r.events|, base + 1 + i);
  }

  /** A successful setup call passes the promise of the calls after it back to itself. */
  lemma SetupCallPasses(c: Config, res: int, o: nat -> Reply, base: nat, i: nat)
    requires i < |SetupCalls| && o(base + 1 + i).status == 0
    requires var rest := SetupFrom(c, res, o, base, i + 1);
      rest.ret == 0 <==> ResolutionCode(c, res).Ok? && AllSucceed(o, base + 1 + (i + 1), |rest.events|)
    ensures var r := SetupFrom(c, res, o, base, i);
      r.ret == 0 <==> ResolutionCode(c, res).Ok? && AllSucceed(o, base + 1 + i, |r.events|)
  {
    var rest := SetupFrom(c, res, o, base, i + 1);
    assert SetupFrom(c, res, o, base, i) == Prefixed([SetupCalls[i]], rest);
    assert AllSucceed(o, base + 1 + i, 1) by {
      assert Status(o, base + 1 + i) == 0;
    }
    PrefixedSucceedsIff(o, base + 1 + i, [SetupCalls[i]], rest, ResolutionCode(c, res).Ok?);
  }

  /** The resolution stage of init succeeds exactly when the resolution is supported and
      every call of set_resolution succeeds; on failure the teardown follows. */
  lemma ResolutionStageSucceedsIff(c: Config, res: int, o: nat -> Reply, base: nat)
    requires ValidConfig(c)
    ensures var r := ResolutionStage(c, res, o, base);
      r.ret == 0 <==> ResolutionCode(c, res).Ok? && AllSucceed(o, base + 1 + |SetupCalls|, |r.events|)
  {
    var k := base + 1 + |SetupCalls|;
    var s := SetResolutionRun(c, c.modeConfig, HaveResolutionPins(o, base), res, o, k);
    SetResolutionSucceedsIff(c, HaveResolutionPins(o, base), res, o, k);
    if s.ret != 0 {
      AllSucceedSplit(o, k, |s.events|, |Teardown|);
    }
  }

  /** From configuration mode, set_resolution succeeds exactly when the resolution is
      supported and every call it makes succeeds. */
  lemma SetResolutionSucceedsIff(c: Config, pins: bool, res: int, o: nat -> Reply, k: nat)
    requires ValidConfig(c)
    ensures var r := SetResolutionRun(c, c.modeConfig, pins, res, o, k);
      r.ret == 0 <==> ResolutionCode(c, res).Ok? && AllSucceed(o, k, |r.events|)
  {
    if o(k).status != 0 || o(k + 1).status != 0 || ResolutionCode(c, res).Err? {
      SetResolutionFails(c, pins, res, o, k);
    } else {
      ControlWriteSucceedsIff(c, pins, res, o, k);
    }
  }

  /** From configuration mode, a failed read of CONTROL or an unsupported resolution
      makes set_resolution fail. */
  lemma SetResolutionFails(c: Config, pins: bool, res: int, o: nat -> Reply, k: nat)
    requires ValidConfig(c)
    requires o(k).status != 0 || o(k + 1).status != 0 || ResolutionCode(c, res).Err?
    ensures var r := SetResolutionRun(c, c.modeConfig, pins, res, o, k);
      r.ret != 0 && (ResolutionCode(c, res).Err? || !AllSucceed(o, k, |r.events|))
  {
    var r := SetResolutionRun(c, c.modeConfig, pins, res, o, k);
    assert SetModeRun(c.modeConfig, c.modeConfig, o, k) == DevRun([], 0, c.modeConfig);
    if o(k).status != 0 {
      FailureBreaks(o, k, |r.events|, k);
    } else if o(k + 1).status != 0 {
      FailureBreaks(o, k, |r.events|, k + 1);
    }
  }

  /** From configuration mode, once CONTROL is read and the resolution is supported,
      set_resolution succeeds exactly when the write of CONTROL and the pins does. */
  lemma ControlWriteSucceedsIff(c: Config, pins: bool, res: int, o: nat -> Reply, k: nat)
    requires ValidConfig(c)
    requires o(k).status == 0 && o(k + 1).status == 0 && ResolutionCode(c, res).Ok?
    ensures var r := SetResolutionRun(c, c.modeConfig, pins, res, o, k);
      r.ret == 0 <==> AllSucceed(o, k, |r.events|)
  {
    var r := SetResolutionRun(c, c.modeConfig, pins, res, o, k);
    assert SetModeRun(c.modeConfig, c.modeConfig, o, k) == DevRun([], 0, c.modeConfig);
    var rd := RegReadRun(c, c.modeConfig, c.regControl, o, k);
    var control := ControlWith(c, rd.val, ResolutionCode(c, res).value);
    var w := WriteControlRun(c, c.modeConfig, pins, control, o, k + 2);
    assert rd.run.events == [Xfer(c.regControl), Xfer(c.regControl)] && rd.run.ret == 0;
    assert r == After(rd.run.events, w);
    WriteControlSucceedsIff(c, pins, control, o, k + 2);
    assert AllSucceed(o, k, 2) by {
      assert Status(o, k) == 0 && Status(o, k + 1) == 0;
    }
    AllSucceedSplit(o, k, 2, |w.events|);
  }

  /** From configuration mode, writing CONTROL and the resolution pins succeeds exactly
      when every call made succeeds. */
  lemma WriteControlSucceedsIff(c: Config, pins: bool, control: byte, o: nat -> Reply, k: nat)
    requires ValidConfig(c)
    ensures var r := WriteControlRun(c, c.modeConfig, pins, control, o, k);
      r.ret == 0 <==> AllSucceed(o, k, |r.events|)
  {
    var r := WriteControlRun(c, c.modeConfig, pins, control, o, k);
    assert SetModeRun(c.modeConfig, c.modeConfig, o, k) == DevRun([], 0, c.modeConfig);
    if o(k).status != 0 {
      FailureBreaks(o, k, |r.events|, k);
    } else if o(k + 1).status != 0 {
      FailureBreaks(o, k, |r.events|, k + 1);
    } else if pins && o(k + 2).status != 0 {
      FailureBreaks(o, k, |r.events|, k + 2);
    } else if pins && o(k + 3).status != 0 {
      FailureBreaks(o, k, |r.events|, k + 3);
    }
  }

  /** The outcome of setup from call `i` on, after the calls `pre` that precede it. */
  lemma {:induction false} SetupFromOutcome(c: Config, res: int, o: nat -> Reply, base: nat, i: nat, pre: seq<Event>)
    requires ValidConfig(c) && i <= |SetupCalls| && pre == [Alloc] + SetupCalls[..i]
    ensures var r := Prefixed(pre, SetupFrom(c, res, o, base, i));
      (r.ret != 0 ==> UnwindsOnFailure(r.events))
      && (r.ret == 0 ==> Acquisitions(r.events) == [Alloc] + SetupCalls[..5] + [SpiInit]
                         && Releases(r.events) == [])
    decreases |SetupCalls| - i
  {
    if i == |SetupCalls| {
      assert pre == [Alloc] + SetupCalls;
      ResolutionOutcome(c, res, o, base, pre);
    } else if o(base + 1 + i).status != 0 {
      SetupCallFails(i, pre);
    } else {
      assert pre + [SetupCalls[i]] == [Alloc] + SetupCalls[..i + 1];
      SetupFromOutcome(c, res, o, base, i + 1, pre + [SetupCalls[i]]);
      AppendAssoc(pre, [SetupCalls[i]], SetupFrom(c, res, o, base, i + 1).events);
    }
  }

  /** A failing setup call followed by its error label unwinds. */
  lemma SetupCallFails(i: nat, pre: seq<Event>)
    requires i < |SetupCalls| && pre == [Alloc] + SetupCalls[..i]
    ensures UnwindsOnFailure(pre + ([SetupCalls[i]] + ErrLabel(i)))
  {
    var call, tail := SetupCalls[i], ErrLabel(i);
    ErrLabelIsUnwind(i);
    assert !IsRelease(call) by {
      SetupCallFacts();
    }
    AppendAssoc(pre, [call], tail);
    UnwindsAtRun(pre, call, tail, pre + ([call] + tail));
  }

  /** The outcome of the resolution stage after all the setup calls. */
  lemma ResolutionOutcome(c: Config, res: int, o: nat -> Reply, base: nat, pre: seq<Event>)
    requires ValidConfig(c) && pre == [Alloc] + SetupCalls
    ensures var r := Prefixed(pre, ResolutionStage(c, res, o, base));
      (r.ret != 0 ==> UnwindsOnFailure(r.events))
      && (r.ret == 0 ==> Acquisitions(r.events) == [Alloc] + SetupCalls[..5] + [SpiInit]
                         && Releases(r.events) == [])
  {
    var rr := SetResolutionRun(c, c.modeConfig, HaveResolutionPins(o, base), res, o, base + 1 + |SetupCalls|);
    ResolutionCallsNeutral(c, HaveResolutionPins(o, base), res, o, base + 1 + |SetupCalls|);
    NeutralThenTeardown(pre, rr.events);
  }

  /** Neutral calls after all the setup calls: the driver still holds everything, and a
      teardown after them is an unwinding whose failing call is the last of them. */
  lemma NeutralThenTeardown(pre: seq<Event>, evs: seq<Event>)
    requires pre == [Alloc] + SetupCalls
    requires 0 < |evs| && forall i :: 0 <= i < |evs| ==> IsNeutral(evs[i])
    ensures UnwindsOnFailure(pre + (evs + Teardown))
    ensures Acquisitions(pre + evs) == [Alloc] + SetupCalls[..5] + [SpiInit] && Releases(pre + evs) == []
  {
    HeldAfterSetup(pre);
    var last := evs[|evs| - 1];
    var body := pre + evs[..|evs| - 1];
    AppendNeutral(pre, evs[..|evs| - 1]);
    AppendNeutral(pre, evs);
    assert pre + (evs + Teardown) == body + [last] + Teardown;
    UnwindsAtRun(body, last, Teardown, pre + (evs + Teardown));
  }

  /** After all the setup calls, the driver holds every line, the SPI device and the
      descriptor, and the teardown gives them back newest first. */
  lemma HeldAfterSetup(pre: seq<Event>)
    requires pre == [Alloc] + SetupCalls
    ensures Acquisitions(pre) == [Alloc] + SetupCalls[..5] + [SpiInit] && Releases(pre) == []
    ensures Unwind(Acquisitions(pre)) == Teardown
  {
    var outputs := [Alloc] + SetupCalls[..10];
    LinesThenOutputs();
    assert pre == outputs + [SpiInit];
    AcquisitionsAppend(outputs, [SpiInit]);
    ReleasesAppend(outputs, [SpiInit]);
    AllAcquire([SpiInit]);
    TeardownIsUnwind();
  }

  /** The fall-through teardown of ad2s1210_init releases, in reverse, everything held
      once the SPI device is up. */
  lemma TeardownIsUnwind()
    ensures Unwind([Alloc] + SetupCalls[..5] + [SpiInit]) == Teardown
  {
    var acq := [Alloc] + SetupCalls[..5];
    var held := acq + [SpiInit];
    LinesUnwind(5);
    assert held[..|held| - 1] == acq;
    assert Teardown == [SpiRemove] + Teardown[1..];
  }

  /** Driving the lines acquires and releases nothing: after the direction calls the
      descriptor and the five lines are held. */
  lemma LinesThenOutputs()
    ensures Acquisitions([Alloc] + SetupCalls[..10]) == [Alloc] + SetupCalls[..5]
    ensures Releases([Alloc] + SetupCalls[..10]) == []
  {
    var acq := [Alloc] + SetupCalls[..5];
    LinesAcquire(5);
    SetupCallFacts();
    assert [Alloc] + SetupCalls[..10] == acq + SetupCalls[5..10];
    AppendNeutral(acq, SetupCalls[5..10]);
  }

  // ---------------------------------------------------------------------------------
  // Removal

  /** The lines ad2s1210_remove gives back, in its order. */
  const RemovalOrder: seq<Pin> := [Res1, Res0, A0, A1, Sample]

  /** The removals of the lines from position `i` of `RemovalOrder` on that `held` says
      exist. */
  function HeldCalls(held: seq<bool>, i: nat): seq<Event>
    requires |held| == |RemovalOrder| && i <= |held|
    decreases |held| - i
  {
    if i == |held| then []
    else (if held[i] then [GpioRemove(RemovalOrder[i])] else []) + HeldCalls(held, i + 1)
  }

  /** The releasing calls of ad2s1210_remove, in order: SPI, then RES1, RES0, A0, A1 and
      the sample line where they exist. */
  function RemoveCalls(held: seq<bool>): seq<Event>
    requires |held| == |RemovalOrder|
  {
    [SpiRemove] + HeldCalls(held, 0)
  }

  /** ad2s1210_remove's line removals from position `i` of `RemovalOrder` on, then the
      free; `held[i]` says whether line `i` exists. */
  function RemoveLinesFrom(held: seq<bool>, i: nat, o: nat -> Reply, n: nat): Run
    requires |held| == |RemovalOrder| && i <= |held|
    decreases |held| - i
  {
    if i == |held| then Run([Free], 0)
    else if !held[i] then RemoveLinesFrom(held, i + 1, o, n)
    else if o(n).status != 0 then Run([GpioRemove(RemovalOrder[i])], o(n).status)
    else Prefixed([GpioRemove(RemovalOrder[i])], RemoveLinesFrom(held, i + 1, o, n + 1))
  }

  /** ad2s1210_remove on a descriptor (`given`) whose lines exist as `held` says. */
  function RemoveRun(given: bool, held: seq<bool>, o: nat -> Reply, n: nat): Run
    requires |held| == |RemovalOrder|
  {
    if !given then Run([], EINVAL)
    else if o(n).status != 0 then Run([SpiRemove], o(n).status)
    else Prefixed([SpiRemove], RemoveLinesFrom(held, 0, o, n + 1))
  }

  /** Making the calls `calls` in order, stopping at the first failure, then freeing the
      descriptor. */
  function ReleaseAll(calls: seq<Event>, o: nat -> Reply, n: nat): Run
    decreases |calls|
  {
    if calls == [] then Run([Free], 0)
    else if o(n).status != 0 then Run([calls[0]], o(n).status)
    else Prefixed([calls[0]], ReleaseAll(calls[1..], o, n + 1))
  }

  /** Skipping the absent lines, the removals are the releases of the held lines, one
      after the other, stopping at the first failure. */
  lemma {:induction false} RemoveLinesAreReleaseAll(held: seq<bool>, i: nat, o: nat -> Reply, n: nat)
    requires |held| == |RemovalOrder| && i <= |held|
    ensures RemoveLinesFrom(held, i, o, n) == ReleaseAll(HeldCalls(held, i), o, n)
    decreases |held| - i
  {
    if i < |held| {
      RemoveLinesAreReleaseAll(held, i + 1, o, if held[i] then n + 1 else n);
      if held[i] {
        var calls := HeldCalls(held, i);
        assert calls[0] == GpioRemove(RemovalOrder[i]) && calls[1..] == HeldCalls(held, i + 1);
      } else {
        assert HeldCalls(held, i) == HeldCalls(held, i + 1);
      }
    }
  }

  /** ad2s1210_remove on a descriptor makes the releasing calls one after the other. */
  lemma RemoveIsReleaseAll(held: seq<bool>, o: nat -> Reply, n: nat)
    requires |held| == |RemovalOrder|
    ensures RemoveRun(true, held, o, n) == ReleaseAll(RemoveCalls(held), o, n)
  {
    var calls := RemoveCalls(held);
    assert calls[0] == SpiRemove && calls[1..] == HeldCalls(held, 0);
    RemoveLinesAreReleaseAll(held, 0, o, n + 1);
  }

  /** Removal stops at the first failing call and returns its status, without freeing
      the descriptor. */
  lemma {:induction false} ReleaseAllStops(calls: seq<Event>, o: nat -> Reply, n: nat, k: nat)
    requires k < |calls| && o(n + k).status != 0
    requires forall j :: n <= j < n + k ==> o(j).status == 0
    ensures var r := ReleaseAll(calls, o, n);
      r.events == calls[..k + 1] && r.ret == o(n + k).status
  {
    if k > 0 {
      ReleaseAllStops(calls[1..], o, n + 1, k - 1);
      assert [calls[0]] + calls[1..][..k] == calls[..k + 1];
    }
  }

  /** When every call succeeds, removal frees the descriptor last and returns 0. */
  lemma {:induction false} ReleaseAllCompletes(calls: seq<Event>, o: nat -> Reply, n: nat)
    requires forall j :: n <= j < n + |calls| ==> o(j).status == 0
    ensures var r := ReleaseAll(calls, o, n);
      r.events == calls + [Free] && r.ret == 0
  {
    if calls != [] {
      ReleaseAllCompletes(calls[1..], o, n + 1);
      assert [calls[0]] + (calls[1..] + [Free]) == calls + [Free];
    }
  }

  /** Removing a device on which every line exists gives back what initialisation
      acquired, but not in the reverse order: A0 goes before A1. */
  lemma RemoveOrderOfFullDevice()
    ensures RemoveCalls([true, true, true, true, true]) + [Free]
            == Teardown[..3] + [Teardown[4], Teardown[3]] + Teardown[5..]
    ensures RemoveCalls([true, true, true, true, true]) + [Free] != Teardown
  {
    var h := [true, true, true, true, true];
    assert HeldCalls(h, 4) == [GpioRemove(Sample)];
    assert HeldCalls(h, 3) == [GpioRemove(A1), GpioRemove(Sample)];
    assert HeldCalls(h, 2) == [GpioRemove(A0), GpioRemove(A1), GpioRemove(Sample)];
    assert HeldCalls(h, 1) == [GpioRemove(Res0), GpioRemove(A0), GpioRemove(A1), GpioRemove(Sample)];
    var s := RemoveCalls(h) + [Free];
    assert s[3] == GpioRemove(A0) != Teardown[3];
  }

  // ---------------------------------------------------------------------------------
  // The descriptor

  class Dev {
    const hw: Platform
    const cfg: Config
    var mode: nat                  // the mode last driven onto A0/A1
    var resolution: int
    var a0: bool                   // whether each optional line exists
    var a1: bool
    var res0: bool
    var res1: bool
    var haveModePins: bool
    var haveResolutionPins: bool

    /** The zero-filled descriptor of ad2s1210_init with the mode and resolution set. */
    constructor (hw: Platform, cfg: Config, resolution: int)
      ensures this.hw == hw && this.cfg == cfg && this.resolution == resolution
      ensures mode == cfg.modeConfig
      ensures !a0 && !a1 && !res0 && !res1 && !haveModePins && !haveResolutionPins
    {
      this.hw := hw;
      this.cfg := cfg;
      this.resolution := resolution;
      mode := cfg.modeConfig;
      a0, a1, res0, res1 := false, false, false, false;
      haveModePins, haveResolutionPins := false, false;
    }

    /** The lines up to setup call `i` recorded from the replies, the allocation being
        the call at position `base`. */
    predicate Recorded(base: nat, i: nat)
      reads this`a0, this`a1, this`res0, this`res1
    {
      (i > 1 ==> a0 == hw.oracle(base + 2).present)
      && (i > 2 ==> a1 == hw.oracle(base + 3).present)
      && (i > 3 ==> res0 == hw.oracle(base + 4).present)
      && (i > 4 ==> res1 == hw.oracle(base + 5).present)
    }

    /** The state of a descriptor that ad2s1210_init hands out. */
    predicate Ready(base: nat)
      reads this`a0, this`a1, this`res0, this`res1, this`haveModePins, this`haveResolutionPins, this`mode
    {
      Recorded(base, 5)
      && haveModePins == (a0 && a1) && haveResolutionPins == (res0 && res1)
      && mode == cfg.modeConfig
    }

    /** What each stage of initialisation from setup call `i` on promises. */
    predicate SetupDone(base: nat, i: nat, t0: seq<Event>, ret: int)
      requires i <= |SetupCalls|
      reads this`a0, this`a1, this`res0, this`res1, this`haveModePins, this`haveResolutionPins, this`mode, this`resolution, hw
    {
      var r := SetupFrom(cfg, resolution, hw.oracle, base, i);
      hw.trace == t0 + r.events && ret == r.ret && (ret == 0 ==> Ready(base))
    }

    /** ad2s1210_set_mode_pins. */
    method SetModePins(m: nat) returns (ret: int)
      modifies this`mode, hw
      ensures hw.trace == old(hw.trace) + SetModeRun(old(mode), m, hw.oracle, |old(hw.trace)|).events
      ensures ret == SetModeRun(old(mode), m, hw.oracle, |old(hw.trace)|).ret
      ensures mode == SetModeRun(old(mode), m, hw.oracle, |old(hw.trace)|).mode
    {
      if mode == m {
        return 0;
      }
      ghost var t0 := hw.trace;
      ret := hw.Call(GpioSetValue(A0, A0Level(m)));
      if ret != 0 {
        return;
      }
      ret := hw.Call(GpioSetValue(A1, A1Level(m)));
      if ret != 0 {
        return;
      }
      mode := m;
    }

    /** ad2s1210_reg_write. */
    method RegWrite(addr: byte, val: byte) returns (ret: int)
      modifies this`mode, hw
      ensures hw.trace == old(hw.trace) + RegWriteRun(cfg, old(mode), addr, val, hw.oracle, |old(hw.trace)|).events
      ensures ret == RegWriteRun(cfg, old(mode), addr, val, hw.oracle, |old(hw.trace)|).ret
      ensures mode == RegWriteRun(cfg, old(mode), addr, val, hw.oracle, |old(hw.trace)|).mode
    {
      if addr < cfg.regMin {
        return EINVAL;
      }
      ghost var t0 := hw.trace;
      ret := SetModePins(cfg.modeConfig);
      if ret != 0 {
        return;
      }
      ghost var t1 := hw.trace;
      ret := hw.Call(Xfer(addr));
      if ret != 0 {
        return;
      }
      ret := hw.Call(Xfer(val));
      AppendAssoc(t0, t1[|t0|..], [Xfer(addr), Xfer(val)]);
    }

    /** ad2s1210_reg_read; `val` is meaningful when `ret` is 0. */
    method RegRead(addr: byte) returns (ret: int, val: byte)
      modifies this`mode, hw
      ensures hw.trace == old(hw.trace) + RegReadRun(cfg, old(mode), addr, hw.oracle, |old(hw.trace)|).run.events
      ensures ret == RegReadRun(cfg, old(mode), addr, hw.oracle, |old(hw.trace)|).run.ret
      ensures mode == RegReadRun(cfg, old(mode), addr, hw.oracle, |old(hw.trace)|).run.mode
      ensures val == RegReadRun(cfg, old(mode), addr, hw.oracle, |old(hw.trace)|).val
    {
      val := 0;
      if addr < cfg.regMin {
        return EINVAL, 0;
      }
      ghost var t0 := hw.trace;
      ret := SetModePins(cfg.modeConfig);
      if ret != 0 {
        return;
      }
      ghost var t1 := hw.trace;
      var rx: seq<byte>;
      ret, rx := hw.WriteAndRead([addr]);
      if ret != 0 {
        return;
      }
      ret, rx := hw.WriteAndRead([addr]);
      if ret != 0 {
        return;
      }
      val := rx[0];
      AppendAssoc(t0, t1[|t0|..], [Xfer(addr), Xfer(addr)]);
    }

    /** ad2s1210_set_resolution. */
    method SetResolution(res: int) returns (ret: int)
      modifies this`mode, hw
      ensures hw.trace == old(hw.trace)
        + SetResolutionRun(cfg, old(mode), haveResolutionPins, res, hw.oracle, |old(hw.trace)|).events
      ensures ret == SetResolutionRun(cfg, old(mode), haveResolutionPins, res, hw.oracle, |old(hw.trace)|).ret
      ensures mode == SetResolutionRun(cfg, old(mode), haveResolutionPins, res, hw.oracle, |old(hw.trace)|).mode
    {
      ghost var t0 := hw.trace;
      var control: byte;
      ret, control := RegRead(cfg.regControl);
      if ret != 0 {
        return;
      }
      var code := ResolutionCode(cfg, res);
      if code.Err? {
        return code.code;
      }
      control := ControlWith(cfg, control, code.value);
      ghost var t1 := hw.trace;
      ret := WriteControl(control);
      AppendAssoc(t0, t1[|t0|..], hw.trace[|t1|..]);
    }

    /** The end of ad2s1210_set_resolution, from the write of CONTROL on. */
    method WriteControl(control: byte) returns (ret: int)
      modifies this`mode, hw
      ensures hw.trace == old(hw.trace)
        + WriteControlRun(cfg, old(mode), haveResolutionPins, control, hw.oracle, |old(hw.trace)|).events
      ensures ret == WriteControlRun(cfg, old(mode), haveResolutionPins, control, hw.oracle, |old(hw.trace)|).ret
      ensures mode == WriteControlRun(cfg, old(mode), haveResolutionPins, control, hw.oracle, |old(hw.trace)|).mode
    {
      ghost var t0 := hw.trace;
      ret := RegWrite(cfg.regControl, control);
      if ret != 0 || !haveResolutionPins {
        return;
      }
      ghost var t1 := hw.trace;
      ret := hw.Call(GpioSetValue(Res0, Res0Level(control)));
      if ret != 0 {
        return;
      }
      ret := hw.Call(GpioSetValue(Res1, Res1Level(control)));
      AppendAssoc(t0, t1[|t0|..], [GpioSetValue(Res0, Res0Level(control)), GpioSetValue(Res1, Res1Level(control))]);
    }

    /** ad2s1210_spi_single_conversion into `data`, the two bytes of the caller's
        result in memory order; the exchange clocks its bytes into `data` itself. */
    method SingleConversion(chn: Channel, data: array<byte>) returns (ret: int)
      requires data.Length == 2
      modifies this`mode, hw, data
      ensures var r := ConversionRun(cfg, old(mode), haveModePins, chn, old(data[..]), hw.oracle, |old(hw.trace)|);
        hw.trace == old(hw.trace) + r.run.events && ret == r.run.ret && mode == r.run.mode && data[..] == r.data
    {
      ghost var t0 := hw.trace;
      ret := PulseSample();
      if ret != 0 {
        return;
      }
      ghost var r := ReadChannelRun(cfg, mode, haveModePins, chn, data[..], hw.oracle, |hw.trace|);
      ret := ReadChannel(chn, data);
      AppendAssoc(t0, SamplePulse, r.run.events);
    }

    /** SAMPLE low, then high, which starts a conversion. */
    method PulseSample() returns (ret: int)
      modifies hw
      ensures hw.trace == old(hw.trace) + SampleRun(hw.oracle, |old(hw.trace)|).events
      ensures ret == SampleRun(hw.oracle, |old(hw.trace)|).ret
    {
      ret := hw.Call(GpioSetValue(Sample, 0));
      if ret != 0 {
        return;
      }
      ret := hw.Call(GpioSetValue(Sample, 1));
    }

    /** The rest of a conversion after the sample pulse. */
    method ReadChannel(chn: Channel, data: array<byte>) returns (ret: int)
      requires data.Length == 2
      modifies this`mode, hw, data
      ensures var r := ReadChannelRun(cfg, old(mode), haveModePins, chn, old(data[..]), hw.oracle, |old(hw.trace)|);
        hw.trace == old(hw.trace) + r.run.events && ret == r.run.ret && mode == r.run.mode && data[..] == r.data
    {
      if haveModePins {
        ret := ConvertInMode(chn, data);
      } else {
        ret := ConvertThroughRegisters(chn, data);
      }
    }

    /** The branch of a conversion with the mode pins wired. */
    method ConvertInMode(chn: Channel, data: array<byte>) returns (ret: int)
      requires data.Length == 2
      modifies this`mode, hw, data
      ensures var r := InModeRun(cfg, old(mode), chn, old(data[..]), hw.oracle, |old(hw.trace)|);
        hw.trace == old(hw.trace) + r.run.events && ret == r.run.ret && mode == r.run.mode && data[..] == r.data
    {
      var m := ChannelMode(cfg, chn);
      ret := SetModePins(m);
      if ret != 0 {
        return;
      }
      var rx: seq<byte>;
      ret, rx := hw.WriteAndRead(data[..]);
      data[0], data[1] := rx[0], rx[1];
      assert data[..] == rx;
    }

    /** The branch of a conversion without mode pins. */
    method ConvertThroughRegisters(chn: Channel, data: array<byte>) returns (ret: int)
      requires data.Length == 2
      modifies this`mode, hw, data
      ensures var r := ThroughRegistersRun(cfg, old(mode), chn, old(data[..]), hw.oracle, |old(hw.trace)|);
        hw.trace == old(hw.trace) + r.run.events && ret == r.run.ret && mode == r.run.mode && data[..] == r.data
    {
      ghost var t0 := hw.trace;
      var addr := ChannelRegister(cfg, chn);
      ghost var lo := ReadIntoRun(cfg, mode, addr, data[..], 0, hw.oracle, |t0|);
      ret := RegReadInto(addr, data, 0);
      if ret != 0 {
        return;
      }
      ghost var hi := ReadIntoRun(cfg, mode, addr + 1, data[..], 1, hw.oracle, |hw.trace|);
      ret := RegReadInto(addr + 1, data, 1);
      AppendAssoc(t0, lo.run.events, hi.run.events);
    }

    /** ad2s1210_reg_read with `data[i]` as the destination. */
    method RegReadInto(addr: byte, data: array<byte>, i: nat) returns (ret: int)
      requires i < data.Length
      modifies this`mode, hw, data
      ensures var r := ReadIntoRun(cfg, old(mode), addr, old(data[..]), i, hw.oracle, |old(hw.trace)|);
        hw.trace == old(hw.trace) + r.run.events && ret == r.run.ret && mode == r.run.mode && data[..] == r.data
    {
      var val: byte;
      ret, val := RegRead(addr);
      if ret == 0 {
        data[i] := val;
      }
    }

    /** ad2s1210_init. */
    static method Init(hw: Platform, cfg: Config, res: int) returns (ret: int, d: Dev?)
      requires ValidConfig(cfg)
      modifies hw
      ensures hw.trace == old(hw.trace) + InitRun(cfg, res, hw.oracle, |old(hw.trace)|).events
      ensures ret == InitRun(cfg, res, hw.oracle, |old(hw.trace)|).ret
      ensures ret == 0 <==> d != null
      ensures d != null ==> fresh(d) && d.hw == hw && d.cfg == cfg && d.resolution == res
                            && d.Ready(|old(hw.trace)|)
    {
      ghost var t0 := hw.trace;
      d := null;
      ret := hw.Call(Alloc);
      if ret != 0 {
        return ENOMEM, null;
      }
      var dev := new Dev(hw, cfg, res);
      ghost var t1 := hw.trace;
      ret := dev.GetSample(|t0|);
      AppendAssoc(t0, [Alloc], hw.trace[|t1|..]);
      if ret == 0 {
        d := dev;
      }
    }

    /** Setup call 0: the sample line; a failure goes to err_sample. */
    method GetSample(ghost base: nat) returns (ret: int)
      requires ValidConfig(cfg) && |hw.trace| == base + 1 && mode == cfg.modeConfig
      modifies this`a0, this`a1, this`res0, this`res1, this`haveModePins, this`haveResolutionPins, this`mode, hw
      ensures SetupDone(base, 0, old(hw.trace), ret)
    {
      ghost var t0 := hw.trace;
      ret := hw.Call(GpioGet(Sample));
      if ret != 0 {
        ret := Release(hw, ErrLabel(0), ret);
        return;
      }
      ghost var t1 := hw.trace;
      ret := GetA0(base);
      AppendAssoc(t0, [SetupCalls[0]], hw.trace[|t1|..]);
    }

    /** Setup call 1: the optional A0 line; a failure goes to err_a0. */
    method GetA0(ghost base: nat) returns (ret: int)
      requires ValidConfig(cfg) && |hw.trace| == base + 2 && mode == cfg.modeConfig
      modifies this`a0, this`a1, this`res0, this`res1, this`haveModePins, this`haveResolutionPins, this`mode, hw
      ensures SetupDone(base, 1, old(hw.trace), ret)
    {
      ghost var t0 := hw.trace;
      var present: bool;
      ret, present := hw.GetOptional(A0);
      if ret != 0 {
        ret := Release(hw, ErrLabel(1), ret);
        return;
      }
      a0 := present;
      ghost var t1 := hw.trace;
      ret := GetA1(base);
      AppendAssoc(t0, [SetupCalls[1]], hw.trace[|t1|..]);
    }

    /** Setup call 2: the optional A1 line; a failure goes to err_a1. */
    method GetA1(ghost base: nat) returns (ret: int)
      requires ValidConfig(cfg) && |hw.trace| == base + 3 && mode == cfg.modeConfig && Recorded(base, 2)
      modifies this`a1, this`res0, this`res1, this`haveModePins, this`haveResolutionPins, this`mode, hw
      ensures SetupDone(base, 2, old(hw.trace), ret)
    {
      ghost var t0 := hw.trace;
      var present: bool;
      ret, present := hw.GetOptional(A1);
      if ret != 0 {
        ret := Release(hw, ErrLabel(2), ret);
        return;
      }
      a1 := present;
      ghost var t1 := hw.trace;
      ret := GetRes0(base);
      AppendAssoc(t0, [SetupCalls[2]], hw.trace[|t1|..]);
    }

    /** Setup call 3: the optional RES0 line; a failure goes to err_res0. */
    method GetRes0(ghost base: nat) returns (ret: int)
      requires ValidConfig(cfg) && |hw.trace| == base + 4 && mode == cfg.modeConfig && Recorded(base, 3)
      modifies this`res0, this`res1, this`haveModePins, this`haveResolutionPins, this`mode, hw
      ensures SetupDone(base, 3, old(hw.trace), ret)
    {
      ghost var t0 := hw.trace;
      var present: bool;
      ret, present := hw.GetOptional(Res0);
      if ret != 0 {
        ret := Release(hw, ErrLabel(3), ret);
        return;
      }
      res0 := present;
      ghost var t1 := hw.trace;
      ret := GetRes1(base);
      AppendAssoc(t0, [SetupCalls[3]], hw.trace[|t1|..]);
    }

    /** Setup call 4: the optional RES1 line; a failure goes to err_res1. */
    method GetRes1(ghost base: nat) returns (ret: int)
      requires ValidConfig(cfg) && |hw.trace| == base + 5 && mode == cfg.modeConfig && Recorded(base, 4)
      modifies this`res1, this`haveModePins, this`haveResolutionPins, this`mode, hw
      ensures SetupDone(base, 4, old(hw.trace), ret)
    {
      ghost var t0 := hw.trace;
      var present: bool;
      ret, present := hw.GetOptional(Res1);
      if ret != 0 {
        ret := Release(hw, ErrLabel(4), ret);
        return;
      }
      res1 := present;
      ghost var t1 := hw.trace;
      ret := DriveA0(base);
      AppendAssoc(t0, [SetupCalls[4]], hw.trace[|t1|..]);
    }
    /** Setup calls 5 to 10 drive the lines high and bring up SPI; each failure goes to
        err_output. */
    method DriveA0(ghost base: nat) returns (ret: int)
      requires ValidConfig(cfg) && |hw.trace| == base + 6 && mode == cfg.modeConfig && Recorded(base, 5)
      modifies this`haveModePins, this`haveResolutionPins, this`mode, hw
      ensures SetupDone(base, 5, old(hw.trace), ret)
    {
      ghost var t0 := hw.trace;
      ret := hw.Call(GpioOutput(A0, 1));
      if ret != 0 {
        ret := Release(hw, ErrLabel(5), ret);
        return;
      }
      ghost var t1 := hw.trace;
      ret := DriveA1(base);
      AppendAssoc(t0, [SetupCalls[5]], hw.trace[|t1|..]);
    }

    method DriveA1(ghost base: nat) returns (ret: int)
      requires ValidConfig(cfg) && |hw.trace| == base + 7 && mode == cfg.modeConfig && Recorded(base, 5)
      modifies this`haveModePins, this`haveResolutionPins, this`mode, hw
      ensures SetupDone(base, 6, old(hw.trace), ret)
    {
      ghost var t0 := hw.trace;
      ret := hw.Call(GpioOutput(A1, 1));
      if ret != 0 {
        ret := Release(hw, ErrLabel(6), ret);
        return;
      }
      ghost var t1 := hw.trace;
      ret := DriveRes0(base);
      AppendAssoc(t0, [SetupCalls[6]], hw.trace[|t1|..]);
    }

    method DriveRes0(ghost base: nat) returns (ret: int)
      requires ValidConfig(cfg) && |hw.trace| == base + 8 && mode == cfg.modeConfig && Recorded(base, 5)
      modifies this`haveModePins, this`haveResolutionPins, this`mode, hw
      ensures SetupDone(base, 7, old(hw.trace), ret)
    {
      ghost var t0 := hw.trace;
      ret := hw.Call(GpioOutput(Res0, 1));
      if ret != 0 {
        ret := Release(hw, ErrLabel(7), ret);
        return;
      }
      ghost var t1 := hw.trace;
      ret := DriveRes1(base);
      AppendAssoc(t0, [SetupCalls[7]], hw.trace[|t1|..]);
    }

    method DriveRes1(ghost base: nat) returns (ret: int)
      requires ValidConfig(cfg) && |hw.trace| == base + 9 && mode == cfg.modeConfig && Recorded(base, 5)
      modifies this`haveModePins, this`haveResolutionPins, this`mode, hw
      ensures SetupDone(base, 8, old(hw.trace), ret)
    {
      ghost var t0 := hw.trace;
      ret := hw.Call(GpioOutput(Res1, 1));
      if ret != 0 {
        ret := Release(hw, ErrLabel(8), ret);
        return;
      }
      ghost var t1 := hw.trace;
      ret := DriveSample(base);
      AppendAssoc(t0, [SetupCalls[8]], hw.trace[|t1|..]);
    }

    method DriveSample(ghost base: nat) returns (ret: int)
      requires ValidConfig(cfg) && |hw.trace| == base + 10 && mode == cfg.modeConfig && Recorded(base, 5)
      modifies this`haveModePins, this`haveResolutionPins, this`mode, hw
      ensures SetupDone(base, 9, old(hw.trace), ret)
    {
      ghost var t0 := hw.trace;
      ret := hw.Call(GpioOutput(Sample, 1));
      if ret != 0 {
        ret := Release(hw, ErrLabel(9), ret);
        return;
      }
      ghost var t1 := hw.trace;
      ret := StartSpi(base);
      AppendAssoc(t0, [SetupCalls[9]], hw.trace[|t1|..]);
    }

    method StartSpi(ghost base: nat) returns (ret: int)
      requires ValidConfig(cfg) && |hw.trace| == base + 11 && mode == cfg.modeConfig && Recorded(base, 5)
      modifies this`haveModePins, this`haveResolutionPins, this`mode, hw
      ensures SetupDone(base, 10, old(hw.trace), ret)
    {
      ghost var t0 := hw.trace;
      ret := hw.Call(SpiInit);
      if ret != 0 {
        ret := Release(hw, ErrLabel(10), ret);
        return;
      }
      ghost var t1 := hw.trace;
      ret := ApplyResolution(base);
      AppendAssoc(t0, [SetupCalls[10]], hw.trace[|t1|..]);
    }

    /** The pin flags, then the resolution; a failure goes to err_spi. */
    method ApplyResolution(ghost base: nat) returns (ret: int)
      requires ValidConfig(cfg) && |hw.trace| == base + 12 && mode == cfg.modeConfig && Recorded(base, 5)
      modifies this`haveModePins, this`haveResolutionPins, this`mode, hw
      ensures SetupDone(base, 11, old(hw.trace), ret)
    {
      haveModePins := a0 && a1;
      haveResolutionPins := res0 && res1;
      assert Ready(base);
      assert SetupFrom(cfg, resolution, hw.oracle, base, 11) == ResolutionStage(cfg, resolution, hw.oracle, base);
      ret := ResolveOrTearDown(base);
      assert Ready(base);
    }

    /** The call of ad2s1210_set_resolution at the end of ad2s1210_init, and the
        teardown from err_spi when it fails. */
    method ResolveOrTearDown(ghost base: nat) returns (ret: int)
      requires ValidConfig(cfg) && mode == cfg.modeConfig && haveResolutionPins == HaveResolutionPins(hw.oracle, base)
      requires |hw.trace| == base + 12
      modifies this`mode, hw
      ensures var r := ResolutionStage(cfg, resolution, hw.oracle, base);
        hw.trace == old(hw.trace) + r.events && ret == r.ret && mode == cfg.modeConfig
    {
      ghost var t0 := hw.trace;
      ghost var rs := SetResolutionRun(cfg, cfg.modeConfig, haveResolutionPins, resolution, hw.oracle, |t0|);
      assert ResolutionStage(cfg, resolution, hw.oracle, base)
          == if rs.ret != 0 then Run(rs.events + Teardown, rs.ret) else Run(rs.events, 0);
      ret := SetResolution(resolution);
      SetResolutionLeavesConfigMode(cfg, haveResolutionPins, resolution, hw.oracle, |t0|);
      if ret != 0 {
        ret := Release(hw, Teardown, ret);
        AppendAssoc(t0, rs.events, Teardown);
      }
    }

    /** Whether each line exists, in the order ad2s1210_remove gives them back; the
        sample line always does, since its request is not optional. */
    function HeldLines(): (held: seq<bool>)
      reads this
      ensures |held| == |RemovalOrder|
    {
      [res1, res0, a0, a1, true]
    }

    /** ad2s1210_remove. */
    static method Remove(hw: Platform, d: Dev?) returns (ret: int)
      requires d != null ==> d.hw == hw
      modifies hw
      ensures d == null ==> hw.trace == old(hw.trace) && ret == RemoveRun(false, [true, true, true, true, true], hw.oracle, 0).ret
      ensures d != null ==> var r := RemoveRun(true, d.HeldLines(), hw.oracle, |old(hw.trace)|);
        hw.trace == old(hw.trace) + r.events && ret == r.ret
    {
      if d == null {
        return EINVAL;
      }
      ghost var t0 := hw.trace;
      ret := hw.Call(SpiRemove);
      if ret != 0 {
        return;
      }
      ghost var t1 := hw.trace;
      ret := d.RemoveRes1();
      AppendAssoc(t0, [SpiRemove], hw.trace[|t1|..]);
    }

    /** The line removals of ad2s1210_remove, each made only when the line exists and
        each returning at its first failure: RES1 first. */
    method RemoveRes1() returns (ret: int)
      modifies hw
      ensures hw.trace == old(hw.trace) + RemoveLinesFrom(HeldLines(), 0, hw.oracle, |old(hw.trace)|).events
      ensures ret == RemoveLinesFrom(HeldLines(), 0, hw.oracle, |old(hw.trace)|).ret
    {
      ghost var t0 := hw.trace;
      if res1 {
        ret := hw.Call(GpioRemove(Res1));
        if ret != 0 {
          return;
        }
      }
      ghost var t1 := hw.trace;
      ret := RemoveRes0();
      AppendAssoc(t0, t1[|t0|..], hw.trace[|t1|..]);
    }

    method RemoveRes0() returns (ret: int)
      modifies hw
      ensures hw.trace == old(hw.trace) + RemoveLinesFrom(HeldLines(), 1, hw.oracle, |old(hw.trace)|).events
      ensures ret == RemoveLinesFrom(HeldLines(), 1, hw.oracle, |old(hw.trace)|).ret
    {
      ghost var t0 := hw.trace;
      if res0 {
        ret := hw.Call(GpioRemove(Res0));
        if ret != 0 {
          return;
        }
      }
      ghost var t1 := hw.trace;
      ret := RemoveA0();
      AppendAssoc(t0, t1[|t0|..], hw.trace[|t1|..]);
    }

    method RemoveA0() returns (ret: int)
      modifies hw
      ensures hw.trace == old(hw.trace) + RemoveLinesFrom(HeldLines(), 2, hw.oracle, |old(hw.trace)|).events
      ensures ret == RemoveLinesFrom(HeldLines(), 2, hw.oracle, |old(hw.trace)|).ret
    {
      ghost var t0 := hw.trace;
      if a0 {
        ret := hw.Call(GpioRemove(A0));
        if ret != 0 {
          return;
        }
      }
      ghost var t1 := hw.trace;
      ret := RemoveA1();
      AppendAssoc(t0, t1[|t0|..], hw.trace[|t1|..]);
    }

    method RemoveA1() returns (ret: int)
      modifies hw
      ensures hw.trace == old(hw.trace) + RemoveLinesFrom(HeldLines(), 3, hw.oracle, |old(hw.trace)|).events
      ensures ret == RemoveLinesFrom(HeldLines(), 3, hw.oracle, |old(hw.trace)|).ret
    {
      ghost var t0 := hw.trace;
      if a1 {
        ret := hw.Call(GpioRemove(A1));
        if ret != 0 {
          return;
        }
      }
      ghost var t1 := hw.trace;
      ret := RemoveSample();
      AppendAssoc(t0, t1[|t0|..], hw.trace[|t1|..]);
    }

    /** The sample line, which always exists: its request is not optional. */
    method RemoveSample() returns (ret: int)
      modifies hw
      ensures hw.trace == old(hw.trace) + RemoveLinesFrom(HeldLines(), 4, hw.oracle, |old(hw.trace)|).events
      ensures ret == RemoveLinesFrom(HeldLines(), 4, hw.oracle, |old(hw.trace)|).ret
    {
      ghost var t0 := hw.trace;
      ret := hw.Call(GpioRemove(Sample));
      if ret != 0 {
        return;
      }
      ghost var t1 := hw.trace;
      ret := FreeDescriptor();
      AppendAssoc(t0, t1[|t0|..], hw.trace[|t1|..]);
    }

    /** The descriptor is freed once every line is given back. */
    method FreeDescriptor() returns (ret: int)
      modifies hw
      ensures hw.trace == old(hw.trace) + RemoveLinesFrom(HeldLines(), 5, hw.oracle, |old(hw.trace)|).events
      ensures ret == RemoveLinesFrom(HeldLines(), 5, hw.oracle, |old(hw.trace)|).ret
    {
      ret := hw.Call(Free);
      return 0;
    }
  }
}
