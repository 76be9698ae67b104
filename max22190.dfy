/** The MAX22190 octal digital-input driver (drivers/digital-io/max22190/max22190.c):
    register access over SPI with an optional 5-bit CRC, initialisation and removal.

    Every SPI frame is the control byte (register address and read/write field), the data
    byte and, when CRC is enabled, a third byte carrying the CRC in its low five bits. The
    methods of `Desc` do what the source does, including the three defects listed in the
    README; the functions `WriteControl`, `SealedWriteFrame` and `CheckedReadResult` are the
    corrected frame layout, with their properties proved beside them. */
module Max22190 {
  import opened Hal
  import opened Bits
  import opened Crc5

  /** MAX22190_FRAME_SIZE: the control byte and the data byte. */
  const FRAME_SIZE: nat := 2

  /** The header constants the driver relies on (max22190.h is not part of this model). */
  datatype Config = Config(
    addrMask: byte,       // MAX22190_ADDR_MASK
    rwMask: byte,         // MAX22190_RW_MASK
    channels: nat,        // MAX22190_CHANNELS
    wireBreakReg: bv32,   // MAX22190_WIRE_BREAK_REG
    fault2Reg: bv32)      // MAX22190_FAULT2_REG

  /** Both fields of the control byte are non-empty and do not overlap. */
  predicate ValidConfig(c: Config)
  {
    c.addrMask != 0 && c.rwMask != 0 && c.addrMask & c.rwMask == 0
  }

  /** The low byte of a 32-bit argument: what survives a store into one byte of the frame
      buffer. (no_os_field_prep with a one-byte mask keeps only bits of this byte.) */
  function Low(x: bv32): byte
  {
    (x & 0xFF) as byte
  }

  /** The number of bytes of a frame. */
  function FrameLen(crcEn: bool): nat
  {
    if crcEn then FRAME_SIZE + 1 else FRAME_SIZE
  }

  // ---------------------------------------------------------------------------------
  // Register read (max22190_reg_read)

  /** The control byte of a read: the address field, and 0 in the read/write field. */
  function ReadControl(c: Config, reg: byte): byte
    requires ValidConfig(c)
  {
    FieldPrep(c.addrMask, reg) | FieldPrep(c.rwMask, 0)
  }

  /** The bytes a read sends: its control byte followed by zeros. */
  function ReadRequest(c: Config, crcEn: bool, addr: bv32): (tx: seq<byte>)
    requires ValidConfig(c)
    ensures |tx| == FrameLen(crcEn)
  {
    [ReadControl(c, Low(addr))] + seq(FrameLen(crcEn) - 1, _ => 0)
  }

  /** The CRC test the driver applies to a received frame: max22190_crc(buff[2], 0, buff[0])
      must be zero. */
  predicate ReadCheckPasses(rx: seq<byte>)
    requires |rx| == 3
  {
    Crc(rx[2], 0, rx[0]) == 0
  }

  /** What max22190_reg_read returns when the transfer gets reply `r`: the transfer's error,
      -EINVAL when CRC is enabled and the test fails, and otherwise the received data byte. */
  function ReadResult(crcEn: bool, r: Reply): (res: Result<byte>)
    ensures res.Err? ==> res.code != 0
    ensures res.Ok? <==> r.status == 0 && (crcEn ==> ReadCheckPasses(Received(r, 3)))
    ensures res.Ok? ==> res.value == Received(r, FrameLen(crcEn))[1]
  {
    var rx := Received(r, FrameLen(crcEn));
    if r.status != 0 then Err(r.status)
    else if crcEn && !ReadCheckPasses(rx) then Err(EINVAL)
    else Ok(rx[1])
  }

  /** The address field of a read's control byte holds the register address (cut to the
      field's width) and its read/write field is 0. */
  lemma ReadControlFields(c: Config, reg: byte)
    requires ValidConfig(c)
    ensures FieldGet(c.addrMask, ReadControl(c, reg)) == reg & Span(c.addrMask)
    ensures FieldGet(c.rwMask, ReadControl(c, reg)) == 0
  {
    GetFirstOfTwo(c.addrMask, c.rwMask, reg, 0);
    GetSecondOfTwoZero(c.addrMask, c.rwMask, reg);
  }

  // ---------------------------------------------------------------------------------
  // Register write (max22190_reg_write), as written

  /** The control byte of a write as the driver builds it: only the address field, because
      the read/write field it prepares is thrown away. */
  function WriteControlAsWritten(c: Config, reg: byte): byte
    requires ValidConfig(c)
  {
    FieldPrep(c.addrMask, reg)
  }

  /** The bytes a write sends as the driver builds them: control byte, data byte and, when
      CRC is enabled, max22190_crc(0, data, control). */
  function WriteFrame(c: Config, crcEn: bool, addr: bv32, val: bv32): (tx: seq<byte>)
    requires ValidConfig(c)
    ensures |tx| == FrameLen(crcEn)
  {
    var ctrl := WriteControlAsWritten(c, Low(addr));
    [ctrl, Low(val)] + (if crcEn then [Crc(0, Low(val), ctrl)] else [])
  }

  /** As written, a write's control byte is the control byte of a read of the same register:
      the device is told to read. */
  lemma WriteControlIsReadControl(c: Config, crcEn: bool, addr: bv32, val: bv32)
    requires ValidConfig(c)
    ensures WriteFrame(c, crcEn, addr, val)[0] == ReadRequest(c, crcEn, addr)[0]
    ensures FieldGet(c.rwMask, WriteFrame(c, crcEn, addr, val)[0]) == 0
  {
    var ctrl := FieldPrep(c.addrMask, Low(addr));
    assert WriteFrame(c, crcEn, addr, val)[0] == ctrl;
    assert ReadRequest(c, crcEn, addr)[0] == ReadControl(c, Low(addr));
    assert ReadControl(c, Low(addr)) == ctrl by {
      PrepZero(c.rwMask);
    }
    assert FieldGet(c.rwMask, ctrl) == 0 by {
      ReadControlFields(c, Low(addr));
    }
  }

  /** A configuration with the address in bits 4..0 and the read/write field in bit 7. */
  const SampleConfig: Config := Config(0x1F, 0x80, 8, 0, 0)

  /** As written, the CRC byte of a write does not match the frame it is sent in: writing 0
      to register 1 sends 01 00 07, whose CRC is 05. */
  lemma WriteFrameFailsCheck()
    ensures ValidConfig(SampleConfig)
    ensures WriteFrame(SampleConfig, true, 1, 0) == [0x01, 0x00, 0x07]
    ensures !FrameValid(WriteFrame(SampleConfig, true, 1, 0))
  {
    assert LowestSetBit(0x1F) == 0;
    assert FieldPrep(0x1F, 1) == 1;
    CrcIgnoresLowBits(0, 0, 1, 0);
    CrcOfZero();
    CrcVectorC();
  }

  // ---------------------------------------------------------------------------------
  // The corrected frame layout

  /** The control byte of a write with its read/write field set to 1. */
  function WriteControl(c: Config, reg: byte): (ctrl: byte)
    requires ValidConfig(c)
  {
    FieldPrep(c.addrMask, reg) | FieldPrep(c.rwMask, 1)
  }

  /** The corrected write control byte is marked as a write. */
  lemma WriteControlIsWrite(c: Config, reg: byte)
    requires ValidConfig(c)
    ensures FieldGet(c.rwMask, WriteControl(c, reg)) == 1
  {
    GetSecondOfTwoOne(c.addrMask, c.rwMask, reg);
  }

  /** The corrected write control byte carries the address field of a read of the same
      register. */
  lemma WriteControlKeepsAddress(c: Config, reg: byte)
    requires ValidConfig(c)
    ensures FieldGet(c.addrMask, WriteControl(c, reg)) == FieldGet(c.addrMask, ReadControl(c, reg))
  {
    GetFirstOfTwo(c.addrMask, c.rwMask, reg, 1);
    ReadControlFields(c, reg);
  }

  /** The corrected write control byte carries the same address as a read of the register,
      is marked as a write, and so differs from the read control byte. */
  lemma WriteControlMarksWrite(c: Config, reg: byte)
    requires ValidConfig(c)
    ensures FieldGet(c.rwMask, WriteControl(c, reg)) == 1
    ensures FieldGet(c.addrMask, WriteControl(c, reg)) == FieldGet(c.addrMask, ReadControl(c, reg))
    ensures WriteControl(c, reg) != ReadControl(c, reg)
  {
    WriteControlIsWrite(c, reg);
    WriteControlKeepsAddress(c, reg);
    ReadControlFields(c, reg);
  }

  /** A frame whose third byte is the CRC of the first two. */
  function SealedWriteFrame(c: Config, crcEn: bool, addr: bv32, val: bv32): (tx: seq<byte>)
    requires ValidConfig(c)
    ensures |tx| == FrameLen(crcEn)
    ensures tx[0] == WriteControl(c, Low(addr)) && tx[1] == Low(val)
  {
    var ctrl := WriteControl(c, Low(addr));
    [ctrl, Low(val)] + (if crcEn then [Seal(ctrl, Low(val))] else [])
  }

  /** Every sealed write frame passes the receiver's check. */
  lemma SealedWriteFrameValid(c: Config, addr: bv32, val: bv32)
    requires ValidConfig(c)
    ensures FrameValid(SealedWriteFrame(c, true, addr, val))
  {
    SealedFrameValid(WriteControl(c, Low(addr)), Low(val));
  }

  // ---------------------------------------------------------------------------------
  // The CRC test of a read, as written and corrected

  /** As written, a read accepts 00 vv 19 for every data byte vv and returns vv; with
      vv = 00 that frame fails the receiver's check. */
  lemma ReadCheckAcceptsInvalidFrame(v: byte)
    ensures ReadCheckPasses([0x00, v, 0x19])
    ensures ReadResult(true, Reply(0, [0x00, v, 0x19], false, 0)) == Ok(v)
    ensures !FrameValid([0x00, 0x00, 0x19])
  {
    CrcVectorA();
    CrcIgnoresLowBits(0, 0, 0x19, 0);
    CrcOfZero();
    var r := Reply(0, [0x00, v, 0x19], false, 0);
    assert Received(r, 3) == [0x00, v, 0x19];
  }

  /** As written, a read rejects a frame that passes the receiver's check: 00 00 07. */
  lemma ReadCheckRejectsValidFrame()
    ensures FrameValid([0x00, 0x00, 0x07])
    ensures ReadResult(true, Reply(0, [0x00, 0x00, 0x07], false, 0)) == Err(EINVAL)
  {
    CrcIgnoresLowBits(0, 0, 7, 0);
    CrcOfZero();
    CrcVectorB();
    var r := Reply(0, [0x00, 0x00, 0x07], false, 0);
    assert Received(r, 3) == [0x00, 0x00, 0x07];
  }

  /** The corrected read: the received frame must pass the receiver's check. */
  function CheckedReadResult(crcEn: bool, r: Reply): (res: Result<byte>)
    ensures res.Err? ==> res.code != 0
    ensures res.Ok? <==> r.status == 0 && (crcEn ==> FrameValid(Received(r, 3)))
    ensures res.Ok? ==> res.value == Received(r, FrameLen(crcEn))[1]
  {
    var rx := Received(r, FrameLen(crcEn));
    if r.status != 0 then Err(r.status)
    else if crcEn && !FrameValid(rx) then Err(EINVAL)
    else Ok(rx[1])
  }

  /** The corrected read accepts a sealed frame and returns its data byte. */
  lemma CheckedReadAcceptsSealed(b0: byte, b1: byte)
    ensures CheckedReadResult(true, Reply(0, [b0, b1, Seal(b0, b1)], false, 0)) == Ok(b1)
  {
    var r := Reply(0, [b0, b1, Seal(b0, b1)], false, 0);
    assert Received(r, 3) == [b0, b1, Seal(b0, b1)];
    SealedFrameValid(b0, b1);
  }

  /** The corrected read rejects every frame that fails the receiver's check. */
  lemma CheckedReadRejectsInvalid(g: seq<byte>)
    requires |g| == 3 && !FrameValid(g)
    ensures CheckedReadResult(true, Reply(0, g, false, 0)) == Err(EINVAL)
  {
    assert Received(Reply(0, g, false, 0), 3) == g;
  }

  // ---------------------------------------------------------------------------------
  // Register update (max22190_reg_update)

  /** The register's one-byte value held in the 32-bit `reg_val`. */
  function Widen(b: byte): (w: bv32)
    ensures w < 0x100
  {
    b as bv32
  }

  /** The value written back by an update: the bits of `mask` taken from `val`, the others
      from the register's current value `cur`. */
  function UpdateValue(cur: bv32, mask: bv32, val: bv32): bv32
  {
    (cur & !mask) | (mask & val)
  }

  lemma UpdateValueFields(cur: bv32, mask: bv32, val: bv32)
    ensures UpdateValue(cur, mask, val) & mask == val & mask
    ensures UpdateValue(cur, mask, val) & !mask == cur & !mask
  {
  }

  /** Updating twice with the same mask and value is the same as updating once. */
  lemma UpdateIdempotent(cur: bv32, mask: bv32, val: bv32)
    ensures UpdateValue(UpdateValue(cur, mask, val), mask, val) == UpdateValue(cur, mask, val)
  {
  }

  /** The calls of an update whose transfers get the replies `o(n)`, `o(n + 1)`: a read,
      and a write only when the read succeeded. */
  function UpdateRun(c: Config, crcEn: bool, addr: bv32, mask: bv32, val: bv32,
                     o: nat -> Reply, n: nat): Run
    requires ValidConfig(c)
  {
    var read := [SpiTransfer(ReadRequest(c, crcEn, addr))];
    match ReadResult(crcEn, o(n))
    case Err(code) => Run(read, code)
    case Ok(cur) =>
      Run(read + [SpiTransfer(WriteFrame(c, crcEn, addr, UpdateValue(Widen(cur), mask, val)))],
          o(n + 1).status)
  }

  /** A failed read ends the update with the read's error and nothing written. */
  lemma UpdateStopsOnReadError(c: Config, crcEn: bool, addr: bv32, mask: bv32, val: bv32,
                               o: nat -> Reply, n: nat)
    requires ValidConfig(c) && ReadResult(crcEn, o(n)).Err?
    ensures UpdateRun(c, crcEn, addr, mask, val, o, n)
         == Run([SpiTransfer(ReadRequest(c, crcEn, addr))], ReadResult(crcEn, o(n)).code)
  {
  }

  /** After a successful read, the update writes one frame whose data byte is the low byte
      of the merged value (`MergedByteFields` says what that byte holds). */
  lemma UpdateWritesMerged(c: Config, crcEn: bool, addr: bv32, mask: bv32, val: bv32,
                           o: nat -> Reply, n: nat)
    requires ValidConfig(c) && ReadResult(crcEn, o(n)).Ok?
    ensures var ev := UpdateRun(c, crcEn, addr, mask, val, o, n).events;
      |ev| == 2 && ev[0] == SpiTransfer(ReadRequest(c, crcEn, addr))
      && ev[1].SpiTransfer? && |ev[1].tx| == FrameLen(crcEn)
      && ev[1].tx[1] == Low(UpdateValue(Widen(ReadResult(crcEn, o(n)).value), mask, val))
  {
    var u := UpdateValue(Widen(ReadResult(crcEn, o(n)).value), mask, val);
    assert WriteFrame(c, crcEn, addr, u)[1] == Low(u);
  }

  /** The byte an update writes keeps the read value outside `mask` and takes `val` inside
      it. */
  lemma MergedByteFields(cur: byte, mask: bv32, val: bv32)
    ensures Low(UpdateValue(Widen(cur), mask, val)) & Low(mask) == Low(val) & Low(mask)
    ensures Low(UpdateValue(Widen(cur), mask, val)) & !Low(mask) == cur & !Low(mask)
  {
    MergedByteInside(Widen(cur), mask, val);
    MergedByteOutside(Widen(cur), mask, val);
    LowWiden(cur);
  }

  lemma MergedByteInside(w: bv32, mask: bv32, val: bv32)
    ensures Low(UpdateValue(w, mask, val)) & Low(mask) == Low(val) & Low(mask)
  {
    var u := UpdateValue(w, mask, val);
    UpdateValueFields(w, mask, val);
    LowAnd(u, mask);
    LowAnd(val, mask);
  }

  lemma MergedByteOutside(w: bv32, mask: bv32, val: bv32)
    ensures Low(UpdateValue(w, mask, val)) & !Low(mask) == Low(w) & !Low(mask)
  {
    var u := UpdateValue(w, mask, val);
    UpdateValueFields(w, mask, val);
    LowNot(mask);
    LowAnd(u, !mask);
    LowAnd(w, !mask);
  }

  lemma LowAnd(x: bv32, y: bv32)
    ensures Low(x & y) == Low(x) & Low(y)
  {
  }

  lemma LowNot(x: bv32)
    ensures Low(!x) == !Low(x)
  {
  }

  lemma LowWiden(b: byte)
    ensures Low(Widen(b)) == b
  {
  }

  // ---------------------------------------------------------------------------------
  // Initialisation and removal

  /** The calls of max22190_init that acquire resources, and the calls that give them back
      on failure; the enable line is removed even when it is absent. */
  const Acquired: seq<Event> := [Alloc, SpiInit, GpioGetOptional(En)]
  const Unwound: seq<Event> := [GpioRemove(En), SpiRemove, Free]

  /** The transfer of a register read, as an event. */
  function ReadEvent(c: Config, crcEn: bool, addr: bv32): Event
    requires ValidConfig(c)
  {
    SpiTransfer(ReadRequest(c, crcEn, addr))
  }

  /** The transfers of the wire-break and FAULT2 reads, in order. */
  function InitReadEvents(c: Config, crcEn: bool): (rd: seq<Event>)
    requires ValidConfig(c)
    ensures |rd| == 2 && IsNeutral(rd[0]) && IsNeutral(rd[1])
  {
    [ReadEvent(c, crcEn, c.wireBreakReg), ReadEvent(c, crcEn, c.fault2Reg)]
  }

  /** The calls of max22190_init when the call at trace position `n + i` gets `o(n + i)`. */
  function InitRun(c: Config, crcEn: bool, o: nat -> Reply, n: nat): Run
    requires ValidConfig(c)
  {
    var rd := InitReadEvents(c, crcEn);
    if o(n).status != 0 then Run([Alloc], ENOMEM)
    else if o(n + 1).status != 0 then Run([Alloc, SpiInit, Free], o(n + 1).status)
    else if o(n + 2).status != 0 then Run(Acquired + [SpiRemove, Free], o(n + 2).status)
    else if !o(n + 2).present then
      Prefixed(Acquired, InitReads(rd, ReadResult(crcEn, o(n + 3)), ReadResult(crcEn, o(n + 4)), c.channels, o, n + 5))
    else if o(n + 3).status != 0 then Run(Acquired + [GpioSetValue(En, 1)] + Unwound, o(n + 3).status)
    else Prefixed(Acquired + [GpioSetValue(En, 1)],
                  InitReads(rd, ReadResult(crcEn, o(n + 4)), ReadResult(crcEn, o(n + 5)), c.channels, o, n + 6))
  }

  /** The calls of max22190_init from no_os_spi_init on (the call at position `n`). */
  function SpiStage(c: Config, crcEn: bool, o: nat -> Reply, n: nat): Run
    requires ValidConfig(c)
  {
    if o(n).status != 0 then Run([SpiInit, Free], o(n).status)
    else Prefixed([SpiInit], GpioStage(c, crcEn, o, n + 1))
  }

  /** The calls of max22190_init from no_os_gpio_get_optional on. */
  function GpioStage(c: Config, crcEn: bool, o: nat -> Reply, n: nat): Run
    requires ValidConfig(c)
  {
    if o(n).status != 0 then Run([GpioGetOptional(En), SpiRemove, Free], o(n).status)
    else Prefixed([GpioGetOptional(En)], EnableStage(c, crcEn, o(n).present, o, n + 1))
  }

  /** The calls of max22190_init from driving the enable line (when `present`) on. */
  function EnableStage(c: Config, crcEn: bool, present: bool, o: nat -> Reply, n: nat): Run
    requires ValidConfig(c)
  {
    if !present then ReadStage(c, crcEn, o, n)
    else if o(n).status != 0 then Run([GpioSetValue(En, 1)] + Unwound, o(n).status)
    else Prefixed([GpioSetValue(En, 1)], ReadStage(c, crcEn, o, n + 1))
  }

  /** The calls of max22190_init from the wire-break read on. */
  function ReadStage(c: Config, crcEn: bool, o: nat -> Reply, n: nat): Run
    requires ValidConfig(c)
  {
    InitReads(InitReadEvents(c, crcEn), ReadResult(crcEn, o(n)), ReadResult(crcEn, o(n + 1)), c.channels, o, n + 2)
  }

  /** After a successful allocation, initialisation is its stages one after the other. */
  lemma InitRunStaged(c: Config, crcEn: bool, o: nat -> Reply, n: nat)
    requires ValidConfig(c) && o(n).status == 0
    ensures InitRun(c, crcEn, o, n) == Prefixed([Alloc], SpiStage(c, crcEn, o, n + 1))
  {
    if o(n + 1).status == 0 && o(n + 2).status == 0 {
      if !o(n + 2).present {
        AcquiredThen(ReadStage(c, crcEn, o, n + 3).events);
      } else if o(n + 3).status != 0 {
        AcquiredThen([GpioSetValue(En, 1)] + Unwound);
        AppendAssoc(Acquired, [GpioSetValue(En, 1)], Unwound);
      } else {
        var r := ReadStage(c, crcEn, o, n + 4);
        AcquiredThen([GpioSetValue(En, 1)] + r.events);
        AppendAssoc(Acquired, [GpioSetValue(En, 1)], r.events);
      }
    }
  }

  /** The acquisitions of initialisation, one call at a time, followed by `rest`. */
  lemma AcquiredThen(rest: seq<Event>)
    ensures [Alloc] + ([SpiInit] + ([GpioGetOptional(En)] + rest)) == Acquired + rest
  {
    AppendAssoc([SpiInit], [GpioGetOptional(En)], rest);
    AppendAssoc([Alloc], [SpiInit, GpioGetOptional(En)], rest);
  }

  /** The read that follows the wire-break read, and what follows it. */
  function SecondRead(e: Event, r2: Result<byte>, channels: nat, o: nat -> Reply, k: nat): Run
  {
    if r2.Err? then Run([e] + Unwound, r2.code) else Prefixed([e], InitChannels(channels, o, k))
  }

  /** The reads of initialisation, one after the other. */
  lemma InitReadsInTurn(rd: seq<Event>, r1: Result<byte>, r2: Result<byte>, channels: nat,
                        o: nat -> Reply, k: nat)
    requires |rd| == 2 && r1.Ok?
    ensures InitReads(rd, r1, r2, channels, o, k) == Prefixed([rd[0]], SecondRead(rd[1], r2, channels, o, k))
  {
    assert rd == [rd[0]] + [rd[1]];
    if r2.Err? {
      AppendAssoc([rd[0]], [rd[1]], Unwound);
    } else {
      AppendAssoc([rd[0]], [rd[1]], InitChannels(channels, o, k).events);
    }
  }

  /** The wire-break and FAULT2 reads (`rd`, answered `r1` and `r2`), then the channels
      from trace position `k`; a failure unwinds. */
  function InitReads(rd: seq<Event>, r1: Result<byte>, r2: Result<byte>, channels: nat,
                     o: nat -> Reply, k: nat): Run
    requires |rd| == 2
  {
    if r1.Err? then Run(rd[..1] + Unwound, r1.code)
    else if r2.Err? then Run(rd + Unwound, r2.code)
    else Prefixed(rd, InitChannels(channels, o, k))
  }

  /** Channels 0 .. `channels - 1` set to `on` in index order from trace position `k`,
      stopping at the first failure. */
  function ChannelRun(channels: nat, on: bool, o: nat -> Reply, k: nat): Run
  {
    var f := FirstFailure(o, k, channels);
    if f < channels then Run(ChanOps(f + 1, on), o(k + f).status)
    else Run(ChanOps(channels, on), 0)
  }

  /** The channel loop of initialisation; a failure unwinds. */
  function InitChannels(channels: nat, o: nat -> Reply, k: nat): Run
  {
    var r := ChannelRun(channels, true, o, k);
    if r.ret != 0 then Run(r.events + Unwound, r.ret) else r
  }

  /** The call driving the enable line high, made only when the line is `present`. */
  function EnableCall(present: bool): seq<Event>
  {
    if present then [GpioSetValue(En, 1)] else []
  }

  /** What initialisation promises: success acquires the descriptor, the SPI device and the
      enable line, drives a present enable line high, makes the two register reads `rd`,
      turns every channel on in index order, and so holds all three and has released
      nothing; failure gives back, newest first, what was acquired before the failing
      call. */
  predicate InitOutcome(rd: seq<Event>, channels: nat, present: bool, r: Run)
  {
    var ev := r.events;
    (r.ret == 0 ==>
       ev == Acquired + EnableCall(present) + rd + ChanOps(channels, true)
       && Releases(ev) == [] && Acquisitions(ev) == Acquired)
    && (r.ret != 0 ==> UnwindsOnFailure(ev))
  }

  lemma AcquiredFacts()
    ensures Acquisitions(Acquired) == Acquired && Releases(Acquired) == []
    ensures Unwind(Acquired) == Unwound
  {
    AllAcquire(Acquired);
  }

  /** The channel stage keeps the promise of initialisation. */
  lemma InitChannelsOutcome(rd: seq<Event>, channels: nat, present: bool, o: nat -> Reply, k: nat,
                            pre: seq<Event>)
    requires |rd| == 2 && pre == Acquired + EnableCall(present)
    requires Releases(pre + rd) == [] && Acquisitions(pre + rd) == Acquired
    ensures InitOutcome(rd, channels, present, Prefixed(pre, Prefixed(rd, InitChannels(channels, o, k))))
  {
    var f := FirstFailure(o, k, channels);
    var r := Prefixed(pre, Prefixed(rd, InitChannels(channels, o, k)));
    if f < channels {
      var ops := ChanOps(f + 1, true);
      assert r.events == pre + rd + ops + Unwound by {
        AppendAssoc(rd, ops, Unwound);
        AppendAssoc(pre, rd + ops, Unwound);
        AppendAssoc(pre, rd, ops);
      }
      ChannelFailureUnwinds(pre + rd, f);
      FailedOutcome(rd, channels, present, r);
    } else {
      ChannelsOnOutcome(rd, channels, present, pre, r);
    }
  }

  /** A run that turned every channel on after the reads keeps the promise of
      initialisation. */
  lemma ChannelsOnOutcome(rd: seq<Event>, channels: nat, present: bool, pre: seq<Event>, r: Run)
    requires pre == Acquired + EnableCall(present)
    requires Releases(pre + rd) == [] && Acquisitions(pre + rd) == Acquired
    requires r.ret == 0 && r.events == pre + (rd + ChanOps(channels, true))
    ensures InitOutcome(rd, channels, present, r)
  {
    AppendAssoc(pre, rd, ChanOps(channels, true));
    AllChannelsOn(pre, rd, channels);
  }

  /** A channel that fails to turn on unwinds everything initialisation acquired. */
  lemma ChannelFailureUnwinds(done: seq<Event>, f: nat)
    requires Releases(done) == [] && Acquisitions(done) == Acquired
    ensures UnwindsOnFailure(done + ChanOps(f + 1, true) + Unwound)
  {
    var body := done + ChanOps(f, true);
    ChanOpsSnoc(f, true);
    assert body + [ChanState(f, true)] == done + ChanOps(f + 1, true);
    AppendNeutral(done, ChanOps(f, true));
    AcquiredFacts();
    UnwindsAt(body, ChanState(f, true));
  }

  /** When every channel turns on, initialisation ends in the promised state. */
  lemma AllChannelsOn(pre: seq<Event>, rd: seq<Event>, channels: nat)
    requires Releases(pre + rd) == [] && Acquisitions(pre + rd) == Acquired
    ensures var ev := pre + rd + ChanOps(channels, true);
      Releases(ev) == [] && Acquisitions(ev) == Acquired
  {
    AppendNeutral(pre + rd, ChanOps(channels, true));
  }

  /** The read stage keeps the promise of initialisation. */
  lemma InitReadsOutcome(rd: seq<Event>, r1: Result<byte>, r2: Result<byte>, channels: nat,
                         present: bool, o: nat -> Reply, k: nat, pre: seq<Event>)
    requires |rd| == 2 && IsNeutral(rd[0]) && IsNeutral(rd[1]) && pre == Acquired + EnableCall(present)
    requires r1.Err? ==> r1.code != 0
    requires r2.Err? ==> r2.code != 0
    requires Releases(pre) == [] && Acquisitions(pre) == Acquired
    ensures InitOutcome(rd, channels, present, Prefixed(pre, InitReads(rd, r1, r2, channels, o, k)))
  {
    if r1.Err? {
      assert UnwindsOnFailure(pre + (rd[..1] + Unwound)) by {
        FirstReadFailureUnwinds(pre, rd);
        AppendAssoc(pre, rd[..1], Unwound);
      }
      FailedOutcome(rd, channels, present, Prefixed(pre, Run(rd[..1] + Unwound, r1.code)));
    } else if r2.Err? {
      assert UnwindsOnFailure(pre + (rd + Unwound)) by {
        SecondReadFailureUnwinds(pre, rd);
        AppendAssoc(pre, rd, Unwound);
      }
      FailedOutcome(rd, channels, present, Prefixed(pre, Run(rd + Unwound, r2.code)));
    } else {
      NeutralReads(pre, rd);
      InitChannelsOutcome(rd, channels, present, o, k, pre);
    }
  }

  /** The two register reads neither acquire nor release. */
  lemma NeutralReads(pre: seq<Event>, rd: seq<Event>)
    requires |rd| == 2 && IsNeutral(rd[0]) && IsNeutral(rd[1])
    ensures Acquisitions(pre + rd) == Acquisitions(pre) && Releases(pre + rd) == Releases(pre)
  {
    AppendNeutral(pre, rd);
  }

  /** A failed run that unwinds keeps the promise of initialisation. */
  lemma FailedOutcome(rd: seq<Event>, channels: nat, present: bool, r: Run)
    requires r.ret != 0 && UnwindsOnFailure(r.events)
    ensures InitOutcome(rd, channels, present, r)
  {
  }

  /** A failed wire-break read unwinds everything acquired before it. */
  lemma FirstReadFailureUnwinds(pre: seq<Event>, rd: seq<Event>)
    requires |rd| == 2 && IsNeutral(rd[0])
    requires Releases(pre) == [] && Acquisitions(pre) == Acquired
    ensures UnwindsOnFailure(pre + rd[..1] + Unwound)
  {
    AcquiredFacts();
    UnwindsAt(pre, rd[0]);
    assert rd[..1] == [rd[0]];
  }

  /** A failed FAULT2 read unwinds everything acquired before it. */
  lemma SecondReadFailureUnwinds(pre: seq<Event>, rd: seq<Event>)
    requires |rd| == 2 && IsNeutral(rd[0]) && IsNeutral(rd[1])
    requires Releases(pre) == [] && Acquisitions(pre) == Acquired
    ensures UnwindsOnFailure(pre + rd + Unwound)
  {
    AfterFirstRead(pre, rd);
    UnwindsAtRun(pre + [rd[0]], rd[1], Unwound, pre + rd + Unwound);
  }

  /** After the WIRE_BREAK read, the run still holds what it acquired and has released
      nothing. */
  lemma AfterFirstRead(pre: seq<Event>, rd: seq<Event>)
    requires |rd| == 2 && IsNeutral(rd[0])
    requires Releases(pre) == [] && Acquisitions(pre) == Acquired
    ensures Releases(pre + [rd[0]]) == [] && Unwind(Acquisitions(pre + [rd[0]])) == Unwound
    ensures pre + rd + Unwound == pre + [rd[0]] + [rd[1]] + Unwound
  {
    var mid := pre + [rd[0]];
    assert Releases(mid) == [] && Acquisitions(mid) == Acquired by {
      AppendNeutral(pre, [rd[0]]);
    }
    assert Unwind(Acquisitions(mid)) == Unwound by {
      AcquiredFacts();
    }
    assert rd == [rd[0]] + [rd[1]];
    AppendAssoc(pre, [rd[0]], [rd[1]]);
  }

  /** The failures before the register reads unwind what was acquired before them. */
  lemma EarlyFailuresUnwind()
    ensures UnwindsOnFailure([Alloc])
    ensures UnwindsOnFailure([Alloc, SpiInit, Free])
    ensures UnwindsOnFailure(Acquired + [SpiRemove, Free])
  {
    AllocFailureUnwinds();
    SpiFailureUnwinds();
    GpioFailureUnwinds();
  }

  lemma AllocFailureUnwinds()
    ensures UnwindsOnFailure([Alloc])
  {
    UnwindsAt([], Alloc);
    assert [] + [Alloc] + Unwind(Acquisitions([])) == [Alloc];
  }

  lemma SpiFailureUnwinds()
    ensures UnwindsOnFailure([Alloc, SpiInit, Free])
  {
    AllAcquire([Alloc]);
    UnwindsAt([Alloc], SpiInit);
    assert Unwind([Alloc]) == [Free];
    assert [Alloc] + [SpiInit] + [Free] == [Alloc, SpiInit, Free];
  }

  lemma GpioFailureUnwinds()
    ensures UnwindsOnFailure(Acquired + [SpiRemove, Free])
  {
    var pre := [Alloc, SpiInit];
    assert Releases(pre) == [] && Unwind(Acquisitions(pre)) == [SpiRemove, Free] by {
      AllAcquire(pre);
    }
    assert Acquired + [SpiRemove, Free] == pre + [GpioGetOptional(En)] + [SpiRemove, Free] by {
      assert pre + [GpioGetOptional(En)] == Acquired;
    }
    UnwindsAtRun(pre, GpioGetOptional(En), [SpiRemove, Free], Acquired + [SpiRemove, Free]);
  }

  /** Driving the enable line high acquires and releases nothing; its failure unwinds. */
  lemma EnableFailureUnwinds()
    ensures Releases(Acquired + [GpioSetValue(En, 1)]) == []
    ensures Acquisitions(Acquired + [GpioSetValue(En, 1)]) == Acquired
    ensures UnwindsOnFailure(Acquired + [GpioSetValue(En, 1)] + Unwound)
  {
    AcquiredFacts();
    AppendNeutral(Acquired, [GpioSetValue(En, 1)]);
    UnwindsAt(Acquired, GpioSetValue(En, 1));
  }

  /** max22190_init keeps its promise for every sequence of replies. */
  lemma InitKeepsPromise(c: Config, crcEn: bool, o: nat -> Reply, n: nat)
    requires ValidConfig(c)
    ensures InitOutcome(InitReadEvents(c, crcEn), c.channels, o(n + 2).present, InitRun(c, crcEn, o, n))
  {
    if o(n).status != 0 || o(n + 1).status != 0 || o(n + 2).status != 0
       || (o(n + 2).present && o(n + 3).status != 0) {
      InitEarlyFailure(c, crcEn, o, n);
    } else if o(n + 2).present {
      InitWithEnable(c, crcEn, o, n);
    } else {
      InitWithoutEnable(c, crcEn, o, n);
    }
  }

  /** The failures up to driving the enable line unwind. */
  lemma InitEarlyFailure(c: Config, crcEn: bool, o: nat -> Reply, n: nat)
    requires ValidConfig(c)
    requires o(n).status != 0 || o(n + 1).status != 0 || o(n + 2).status != 0
             || (o(n + 2).present && o(n + 3).status != 0)
    ensures InitOutcome(InitReadEvents(c, crcEn), c.channels, o(n + 2).present, InitRun(c, crcEn, o, n))
  {
    EarlyFailuresUnwind();
    EnableFailureUnwinds();
  }

  /** Without an enable line, the reads follow the acquisitions directly. */
  lemma InitWithoutEnable(c: Config, crcEn: bool, o: nat -> Reply, n: nat)
    requires ValidConfig(c)
    requires o(n).status == 0 && o(n + 1).status == 0 && o(n + 2).status == 0 && !o(n + 2).present
    ensures InitOutcome(InitReadEvents(c, crcEn), c.channels, o(n + 2).present, InitRun(c, crcEn, o, n))
  {
    var rd := InitReadEvents(c, crcEn);
    var r1, r2 := ReadResult(crcEn, o(n + 3)), ReadResult(crcEn, o(n + 4));
    AcquiredFacts();
    assert Acquired + EnableCall(false) == Acquired;
    InitReadsOutcome(rd, r1, r2, c.channels, false, o, n + 5, Acquired);
  }

  /** With an enable line driven high, the reads follow that call. */
  lemma InitWithEnable(c: Config, crcEn: bool, o: nat -> Reply, n: nat)
    requires ValidConfig(c)
    requires o(n).status == 0 && o(n + 1).status == 0 && o(n + 2).status == 0 && o(n + 2).present
    requires o(n + 3).status == 0
    ensures InitOutcome(InitReadEvents(c, crcEn), c.channels, o(n + 2).present, InitRun(c, crcEn, o, n))
  {
    var rd := InitReadEvents(c, crcEn);
    var r1, r2 := ReadResult(crcEn, o(n + 4)), ReadResult(crcEn, o(n + 5));
    EnableFailureUnwinds();
    InitReadsOutcome(rd, r1, r2, c.channels, true, o, n + 6, Acquired + [GpioSetValue(En, 1)]);
  }

  /** max22190_init returns 0 exactly when every call it makes succeeds and, with CRC on,
      both register reads (at trace positions `p` and `p + 1`) pass the driver's CRC test;
      a failed allocation gives -ENOMEM. */
  lemma InitSucceedsIff(c: Config, crcEn: bool, o: nat -> Reply, n: nat)
    requires ValidConfig(c)
    ensures var r := InitRun(c, crcEn, o, n);
      var p := if o(n + 2).present then n + 4 else n + 3;
      (r.ret == 0 <==> AllSucceed(o, n, |r.events|) && ReadsPass(crcEn, o, p))
      && (o(n).status != 0 ==> r.ret == ENOMEM)
  {
    if o(n).status != 0 || o(n + 1).status != 0 || o(n + 2).status != 0
       || (o(n + 2).present && o(n + 3).status != 0) {
      EarlyInitFails(c, crcEn, o, n);
    } else {
      LaterInitSucceedsIff(c, crcEn, o, n);
    }
  }

  /** Once the enable line is handled, initialisation succeeds exactly when the calls
      from the first register read on succeed and, with CRC on, both reads pass the
      driver's CRC test. */
  lemma LaterInitSucceedsIff(c: Config, crcEn: bool, o: nat -> Reply, n: nat)
    requires ValidConfig(c)
    requires o(n).status == 0 && o(n + 1).status == 0 && o(n + 2).status == 0
    requires o(n + 2).present ==> o(n + 3).status == 0
    ensures var r := InitRun(c, crcEn, o, n);
      var p := if o(n + 2).present then n + 4 else n + 3;
      r.ret == 0 <==> AllSucceed(o, n, |r.events|) && ReadsPass(crcEn, o, p)
  {
    var present := o(n + 2).present;
    var p := if present then n + 4 else n + 3;
    var pre := if present then Acquired + [GpioSetValue(En, 1)] else Acquired;
    var rs := InitReads(InitReadEvents(c, crcEn), ReadResult(crcEn, o(p)), ReadResult(crcEn, o(p + 1)),
                        c.channels, o, p + 2);
    assert InitRun(c, crcEn, o, n) == Prefixed(pre, rs);
    assert AllSucceed(o, n, |pre|) by {
      assert forall j :: n <= j < p ==> Status(o, j) == o(j).status;
    }
    ReadsSucceedIff(c, crcEn, o, p);
    PrefixedSucceedsIff(o, n, pre, rs, ReadsPass(crcEn, o, p));
  }

  /** With CRC on, the replies to the register reads at trace positions `p` and `p + 1`
      both pass the driver's CRC test. */
  predicate ReadsPass(crcEn: bool, o: nat -> Reply, p: nat)
  {
    crcEn ==> ReadCheckPasses(Received(o(p), 3)) && ReadCheckPasses(Received(o(p + 1), 3))
  }

  /** A failure up to driving the enable line makes initialisation fail, and a failed
      allocation gives -ENOMEM. */
  lemma EarlyInitFails(c: Config, crcEn: bool, o: nat -> Reply, n: nat)
    requires ValidConfig(c)
    requires o(n).status != 0 || o(n + 1).status != 0 || o(n + 2).status != 0
             || (o(n + 2).present && o(n + 3).status != 0)
    ensures var r := InitRun(c, crcEn, o, n);
      r.ret != 0 && !AllSucceed(o, n, |r.events|) && (o(n).status != 0 ==> r.ret == ENOMEM)
  {
    var r := InitRun(c, crcEn, o, n);
    if o(n).status != 0 {
      FailureBreaks(o, n, |r.events|, n);
    } else if o(n + 1).status != 0 {
      FailureBreaks(o, n, |r.events|, n + 1);
    } else if o(n + 2).status != 0 {
      FailureBreaks(o, n, |r.events|, n + 2);
    } else {
      FailureBreaks(o, n, |r.events|, n + 3);
    }
  }

  /** The register reads of initialisation and what follows them succeed exactly when
      every call made from the first read on succeeds and, with CRC on, both reads pass
      the driver's CRC test. */
  lemma ReadsSucceedIff(c: Config, crcEn: bool, o: nat -> Reply, p: nat)
    requires ValidConfig(c)
    ensures var r := InitReads(InitReadEvents(c, crcEn), ReadResult(crcEn, o(p)), ReadResult(crcEn, o(p + 1)),
                               c.channels, o, p + 2);
      r.ret == 0 <==> AllSucceed(o, p, |r.events|) && ReadsPass(crcEn, o, p)
  {
    var r1, r2 := ReadResult(crcEn, o(p)), ReadResult(crcEn, o(p + 1));
    var r := InitReads(InitReadEvents(c, crcEn), r1, r2, c.channels, o, p + 2);
    if r1.Err? {
      if o(p).status != 0 {
        FailureBreaks(o, p, |r.events|, p);
      }
    } else if r2.Err? {
      if o(p + 1).status != 0 {
        FailureBreaks(o, p, |r.events|, p + 1);
      }
    } else {
      var ch := InitChannels(c.channels, o, p + 2);
      ChannelsSucceedIff(c.channels, o, p + 2);
      AllSucceedSplit(o, p, 2, |ch.events|);
    }
  }

  /** The channel loop of initialisation succeeds exactly when every call it makes
      succeeds. */
  lemma ChannelsSucceedIff(channels: nat, o: nat -> Reply, k: nat)
    ensures var r := InitChannels(channels, o, k);
      r.ret == 0 <==> AllSucceed(o, k, |r.events|)
  {
    var f := FirstFailure(o, k, channels);
    if f < channels {
      FailureBreaks(o, k, |InitChannels(channels, o, k).events|, k + f);
    }
  }

  /** The calls of max22190_remove on a descriptor (`given`) or on NULL: channels off in
      index order, stopping at the first failure with nothing released; then the SPI
      device, the enable line if there is one, and the descriptor. */
  function RemoveRun(given: bool, channels: nat, enPresent: bool, o: nat -> Reply, n: nat): Run
  {
    if !given then Run([], ENODEV)
    else
      var r := ChannelRun(channels, false, o, n);
      if r.ret != 0 then r else Run(r.events + RemoveReleases(enPresent), 0)
  }

  /** The releases at the end of a successful removal. */
  function RemoveReleases(enPresent: bool): seq<Event>
  {
    [SpiRemove] + (if enPresent then [GpioRemove(En)] else []) + [Free]
  }

  /** A failed removal turned off channels 0 .. f in order, all but the last successfully,
      released nothing, and reports channel f's error. */
  lemma RemoveFailureReleasesNothing(channels: nat, enPresent: bool, o: nat -> Reply, n: nat)
    requires RemoveRun(true, channels, enPresent, o, n).ret != 0
    ensures var ev := RemoveRun(true, channels, enPresent, o, n).events;
      0 < |ev| <= channels && ev == ChanOps(|ev|, false) && Releases(ev) == []
      && RemoveRun(true, channels, enPresent, o, n).ret == o(n + |ev| - 1).status
      && forall j :: n <= j < n + |ev| - 1 ==> o(j).status == 0
  {
    var f := FirstFailure(o, n, channels);
    ChanOpsNeutral(f + 1, false);
  }

  /** A successful removal turned every channel off and then released the SPI device before
      the enable line, and the descriptor last. */
  lemma RemoveSuccessReleases(channels: nat, enPresent: bool, o: nat -> Reply, n: nat)
    requires RemoveRun(true, channels, enPresent, o, n).ret == 0
    ensures var ev := RemoveRun(true, channels, enPresent, o, n).events;
      ev[..channels] == ChanOps(channels, false)
      && Releases(ev) == [SpiRemove] + (if enPresent then [GpioRemove(En)] else []) + [Free]
  {
    var tail := RemoveReleases(enPresent);
    var ops := ChanOps(channels, false);
    assert FirstFailure(o, n, channels) == channels;
    assert (ops + tail)[..channels] == ops;
    assert Releases(ops) == [] by {
      ChanOpsNeutral(channels, false);
    }
    ReleasesAppend(ops, tail);
    AllRelease(tail);
  }

  /** Setting channel states neither acquires nor releases anything. */
  lemma ChanOpsNeutral(count: nat, on: bool)
    ensures Acquisitions(ChanOps(count, on)) == [] && Releases(ChanOps(count, on)) == []
  {
    AppendNeutral([], ChanOps(count, on));
    assert [] + ChanOps(count, on) == ChanOps(count, on);
  }

  /** With an enable line, removal does not release in the reverse of the order
      initialisation acquired in: the SPI device goes before the enable line. */
  lemma RemoveIsNotUnwind(channels: nat, o: nat -> Reply, n: nat)
    requires RemoveRun(true, channels, true, o, n).ret == 0
    ensures Releases(RemoveRun(true, channels, true, o, n).events) != Unwind(Acquired)
  {
    RemoveSuccessReleases(channels, true, o, n);
    AcquiredFacts();
    assert Unwound[0] == GpioRemove(En);
  }

  /** struct max22190_desc: the SPI device, the frame buffer, the CRC setting and whether
      the optional enable line exists. */
  class Desc {
    const hw: Platform
    const cfg: Config
    const buff: array<byte>
    var crcEn: bool
    var enPresent: bool

    predicate Valid()
      reads this
    {
      buff.Length == FRAME_SIZE + 1 && ValidConfig(cfg)
    }

    /** The zero-filled descriptor no_os_calloc returns. */
    constructor (hw: Platform, cfg: Config)
      requires ValidConfig(cfg)
      ensures Valid() && this.hw == hw && this.cfg == cfg && fresh(buff)
      ensures !crcEn && !enPresent && buff[..] == [0, 0, 0]
    {
      this.hw := hw;
      this.cfg := cfg;
      buff := new byte[FRAME_SIZE + 1](_ => 0);
      crcEn := false;
      enPresent := false;
    }

    /** max22190_reg_read: one transfer of the read request, answered in place. */
    method RegRead(addr: bv32) returns (ret: int, val: byte)
      requires Valid()
      modifies hw, buff
      ensures hw.trace == old(hw.trace) + [SpiTransfer(ReadRequest(cfg, crcEn, addr))]
      ensures ReadResult(crcEn, old(hw.Next())) == if ret == 0 then Ok(val) else Err(ret)
      ensures buff[..FrameLen(crcEn)] == Received(old(hw.Next()), FrameLen(crcEn))
      ensures !crcEn ==> buff[2] == old(buff[2])
    {
      val := 0;
      var len := FRAME_SIZE;
      if crcEn {
        len := len + 1;
      }
      forall i | 0 <= i < len {
        buff[i] := 0;
      }
      buff[0] := ReadControl(cfg, Low(addr));
      assert buff[..len] == ReadRequest(cfg, crcEn, addr);
      ret := hw.Transfer(buff, len, true);
      assert buff[..len] == Received(old(hw.Next()), len);
      if ret != 0 {
        return;
      }
      if crcEn {
        var crc := ComputeCrc(buff[2], 0, buff[0]);
        if crc != 0 {
          return EINVAL, val;
        }
      }
      val := buff[1];
    }

    /** max22190_reg_write: one transfer of the write frame, nothing received. */
    method RegWrite(addr: bv32, val: bv32) returns (ret: int)
      requires Valid()
      modifies hw, buff
      ensures hw.trace == old(hw.trace) + [SpiTransfer(WriteFrame(cfg, crcEn, addr, val))]
      ensures ret == old(hw.Next()).status
      ensures buff[..FrameLen(crcEn)] == WriteFrame(cfg, crcEn, addr, val)
      ensures !crcEn ==> buff[2] == old(buff[2])
    {
      buff[0] := FieldPrep(cfg.addrMask, Low(addr));
      var _ := FieldPrep(cfg.rwMask, 1);
      buff[1] := Low(val);
      var len := FRAME_SIZE;
      if crcEn {
        len := len + 1;
        buff[2] := ComputeCrc(0, buff[1], buff[0]);
      }
      assert buff[..len] == WriteFrame(cfg, crcEn, addr, val);
      ret := hw.Transfer(buff, len, false);
    }

    /** max22190_reg_update: read, merge under `mask`, write back. */
    method RegUpdate(addr: bv32, mask: bv32, val: bv32) returns (ret: int)
      requires Valid()
      modifies hw, buff
      ensures hw.trace == old(hw.trace) + UpdateRun(cfg, crcEn, addr, mask, val, hw.oracle, |old(hw.trace)|).events
      ensures ret == UpdateRun(cfg, crcEn, addr, mask, val, hw.oracle, |old(hw.trace)|).ret
    {
      ghost var n := |hw.trace|;
      ghost var read := [SpiTransfer(ReadRequest(cfg, crcEn, addr))];
      var regVal: bv32 := 0;
      var v: byte;
      ret, v := RegRead(addr);
      if ret != 0 {
        assert UpdateRun(cfg, crcEn, addr, mask, val, hw.oracle, n) == Run(read, ret);
        return;
      }
      assert ReadResult(crcEn, hw.oracle(n)) == Ok(v);
      regVal := Widen(v);
      regVal := UpdateValue(regVal, mask, val);
      ret := RegWrite(addr, regVal);
      assert UpdateRun(cfg, crcEn, addr, mask, val, hw.oracle, n)
          == Run(read + [SpiTransfer(WriteFrame(cfg, crcEn, addr, regVal))], ret);
    }

    /** max22190_init: allocate, bring up SPI, drive the enable line high when there is one,
        read the wire-break and FAULT2 registers, turn every channel on. Any failure after
        the allocation gives back what was acquired, newest first. */
    static method Init(hw: Platform, cfg: Config, crcEn: bool) returns (ret: int, d: Desc?)
      requires ValidConfig(cfg)
      modifies hw
      ensures hw.trace == old(hw.trace) + InitRun(cfg, crcEn, hw.oracle, |old(hw.trace)|).events
      ensures ret == InitRun(cfg, crcEn, hw.oracle, |old(hw.trace)|).ret
      ensures ret == 0 <==> d != null
      ensures d != null ==> (fresh(d) && d.Valid() && d.hw == hw && d.cfg == cfg && d.crcEn == crcEn
                              && d.enPresent == hw.oracle(|old(hw.trace)| + 2).present)
    {
      ghost var t0 := hw.trace;
      d := null;
      ret := hw.Call(Alloc);
      if ret != 0 {
        assert InitRun(cfg, crcEn, hw.oracle, |t0|) == Run([Alloc], ENOMEM);
        return ENOMEM, null;
      }
      var desc := new Desc(hw, cfg);
      ghost var t1 := hw.trace;
      ret := desc.Setup(crcEn);
      ghost var spec := InitRun(cfg, crcEn, hw.oracle, |t0|);
      assert spec.events == [Alloc] + hw.trace[|t1|..] && spec.ret == ret by {
        InitRunStaged(cfg, crcEn, hw.oracle, |t0|);
      }
      AppendAssoc(t0, [Alloc], hw.trace[|t1|..]);
      if ret == 0 {
        d := desc;
      }
    }

    /** max22190_init from no_os_spi_init on; a failure frees the descriptor. */
    method Setup(crcEn: bool) returns (ret: int)
      requires Valid()
      modifies this, hw, buff
      ensures Valid() && this.crcEn == crcEn
      ensures hw.trace == old(hw.trace) + SpiStage(cfg, crcEn, hw.oracle, |old(hw.trace)|).events
      ensures ret == SpiStage(cfg, crcEn, hw.oracle, |old(hw.trace)|).ret
      ensures ret == 0 ==> enPresent == hw.oracle(|old(hw.trace)| + 1).present
    {
      ghost var t0 := hw.trace;
      ret := hw.Call(SpiInit);
      this.crcEn := crcEn;
      if ret != 0 {
        ret := Release(hw, [Free], ret);
        return;
      }
      ghost var t1 := hw.trace;
      ret := AcquireEnable();
      AppendAssoc(t0, [SpiInit], hw.trace[|t1|..]);
    }

    /** max22190_init from no_os_gpio_get_optional on; a failure removes the SPI device. */
    method AcquireEnable() returns (ret: int)
      requires Valid()
      modifies this, hw, buff
      ensures Valid() && crcEn == old(crcEn)
      ensures hw.trace == old(hw.trace) + GpioStage(cfg, crcEn, hw.oracle, |old(hw.trace)|).events
      ensures ret == GpioStage(cfg, crcEn, hw.oracle, |old(hw.trace)|).ret
      ensures ret == 0 ==> enPresent == old(hw.Next()).present
    {
      ghost var t0 := hw.trace;
      var present: bool;
      ret, present := hw.GetOptional(En);
      if ret != 0 {
        ret := Release(hw, [SpiRemove, Free], ret);
        return;
      }
      enPresent := present;
      ghost var t1 := hw.trace;
      ret := DriveEnable();
      AppendAssoc(t0, [GpioGetOptional(En)], hw.trace[|t1|..]);
    }

    /** max22190_init from driving the enable line high on; a failure removes the line. */
    method DriveEnable() returns (ret: int)
      requires Valid()
      modifies hw, buff
      ensures hw.trace == old(hw.trace) + EnableStage(cfg, crcEn, enPresent, hw.oracle, |old(hw.trace)|).events
      ensures ret == EnableStage(cfg, crcEn, enPresent, hw.oracle, |old(hw.trace)|).ret
    {
      ghost var t0 := hw.trace;
      if enPresent {
        ret := hw.Call(GpioSetValue(En, 1));
        if ret != 0 {
          ret := Release(hw, Unwound, ret);
          return;
        }
      }
      ghost var t1 := hw.trace;
      ret := ReadFaultsAndEnable();
      if enPresent {
        AppendAssoc(t0, [GpioSetValue(En, 1)], hw.trace[|t1|..]);
      }
    }

    /** The part of max22190_init from the wire-break read to the channel loop, with the
        error path that removes the enable line and the SPI device and frees the
        descriptor. */
    method ReadFaultsAndEnable() returns (ret: int)
      requires Valid()
      modifies hw, buff
      ensures hw.trace == old(hw.trace) + ReadStage(cfg, crcEn, hw.oracle, |old(hw.trace)|).events
      ensures ret == ReadStage(cfg, crcEn, hw.oracle, |old(hw.trace)|).ret
    {
      ghost var t0 := hw.trace;
      ghost var rd := InitReadEvents(cfg, crcEn);
      ret := ReadOrUnwind(cfg.wireBreakReg);
      if ret != 0 {
        assert rd[..1] == [rd[0]];
        return;
      }
      ghost var t1 := hw.trace;
      ret := ReadFault2AndEnable();
      AppendAssoc(t0, [rd[0]], hw.trace[|t1|..]);
      InitReadsInTurn(rd, ReadResult(crcEn, hw.oracle(|t0|)), ReadResult(crcEn, hw.oracle(|t0| + 1)),
                      cfg.channels, hw.oracle, |t0| + 2);
    }

    /** The FAULT2 read of max22190_init and the channel loop after it. */
    method ReadFault2AndEnable() returns (ret: int)
      requires Valid()
      modifies hw, buff
      ensures var r := SecondRead(ReadEvent(cfg, crcEn, cfg.fault2Reg), ReadResult(crcEn, old(hw.Next())),
                                  cfg.channels, hw.oracle, |old(hw.trace)| + 1);
        hw.trace == old(hw.trace) + r.events && ret == r.ret
    {
      ghost var t0, e := hw.trace, ReadEvent(cfg, crcEn, cfg.fault2Reg);
      ghost var r2 := ReadResult(crcEn, hw.Next());
      ret := ReadOrUnwind(cfg.fault2Reg);
      if ret != 0 {
        assert r2.Err? && hw.trace == t0 + ([e] + Unwound);
        return;
      }
      ghost var t1 := hw.trace;
      ret := EnableChannels();
      AppendAssoc(t0, [e], hw.trace[|t1|..]);
    }

    /** One register read of max22190_init; a failure jumps to the unwinding. */
    method ReadOrUnwind(addr: bv32) returns (ret: int)
      requires Valid()
      modifies hw, buff
      ensures ReadResult(crcEn, old(hw.Next())).Ok? <==> ret == 0
      ensures ReadResult(crcEn, old(hw.Next())).Err? ==> ret == ReadResult(crcEn, old(hw.Next())).code
      ensures ret == 0 ==> hw.trace == old(hw.trace) + [ReadEvent(cfg, crcEn, addr)]
      ensures ret != 0 ==> hw.trace == old(hw.trace) + ([ReadEvent(cfg, crcEn, addr)] + Unwound)
    {
      ghost var t0 := hw.trace;
      var regVal: byte;
      ret, regVal := RegRead(addr);
      if ret != 0 {
        ret := Release(hw, Unwound, ret);
        AppendAssoc(t0, [ReadEvent(cfg, crcEn, addr)], Unwound);
      }
    }

    /** The channel loop of max22190_init; a failure jumps to the unwinding. */
    method EnableChannels() returns (ret: int)
      modifies hw
      ensures hw.trace == old(hw.trace) + InitChannels(cfg.channels, hw.oracle, |old(hw.trace)|).events
      ensures ret == InitChannels(cfg.channels, hw.oracle, |old(hw.trace)|).ret
    {
      ghost var t0 := hw.trace;
      ret := SetChannels(true);
      if ret != 0 {
        ghost var t1 := hw.trace;
        ret := Release(hw, Unwound, ret);
        AppendAssoc(t0, t1[|t0|..], Unwound);
      }
    }

    /** The channel loops of max22190_init (on) and max22190_remove (off): every channel in
        index order, stopping at the first failure. */
    method SetChannels(on: bool) returns (ret: int)
      modifies hw
      ensures hw.trace == old(hw.trace) + ChannelRun(cfg.channels, on, hw.oracle, |old(hw.trace)|).events
      ensures ret == ChannelRun(cfg.channels, on, hw.oracle, |old(hw.trace)|).ret
    {
      ghost var k := |hw.trace|;
      var i := 0;
      while i < cfg.channels
        invariant 0 <= i <= cfg.channels
        invariant hw.trace == old(hw.trace) + ChanOps(i, on)
        invariant forall j :: k <= j < k + i ==> hw.oracle(j).status == 0
      {
        ret := hw.Call(ChanState(i, on));
        ChanOpsSnoc(i, on);
        if ret != 0 {
          FirstFailureUnique(hw.oracle, k, cfg.channels, i);
          return;
        }
        i := i + 1;
      }
      FirstFailureUnique(hw.oracle, k, cfg.channels, cfg.channels);
      ret := 0;
    }

    /** max22190_remove. */
    static method Remove(hw: Platform, d: Desc?) returns (ret: int)
      requires d != null ==> d.hw == hw
      modifies hw
      ensures d != null ==>
        (hw.trace == old(hw.trace) + RemoveRun(true, d.cfg.channels, d.enPresent, hw.oracle, |old(hw.trace)|).events
         && ret == RemoveRun(true, d.cfg.channels, d.enPresent, hw.oracle, |old(hw.trace)|).ret)
      ensures d == null ==> hw.trace == old(hw.trace) && ret == RemoveRun(false, 0, false, hw.oracle, 0).ret
    {
      if d == null {
        return ENODEV;
      }
      ret := d.SetChannels(false);
      if ret != 0 {
        return;
      }
      var _ := hw.Call(SpiRemove);
      if d.enPresent {
        var _ := hw.Call(GpioRemove(En));
      }
      var _ := hw.Call(Free);
      ret := 0;
    }
  }
}
