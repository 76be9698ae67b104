# Four no-OS device drivers, modelled in Dafny

This project models four drivers of the Analog Devices no-OS tree and proves properties of
them:

- **MAX22190** (`drivers/digital-io/max22190/max22190.c`), an octal digital-input chip.
  The driver reads and writes registers over SPI, with an optional 5-bit CRC. It also
  initialises and removes the device.
- **AD2S1210** (`drivers/resolver/ad2s1210/ad2s1210.c`), a resolver-to-digital converter.
  The driver covers register access in configuration mode and the mode pins A0/A1 with
  their cached mode. It also sets the resolution, takes single conversions, and has
  initialisation with its goto ladder and removal.
- **HMC6300/HMC6301**, fake variant (`drivers/rf-transceiver/hmc630x/hmc630x_fake.c`).
  The device is a 32-row register map held in the descriptor. The driver reads and writes
  rows, bit-fields and the whole map, and builds the VCO frequency tables.
- **Bit-banged MDIO** (`projects/microwave/src/examples/mdio/mdio_bitbang.c`). This sends
  clause 22 management frames of IEEE 802.3 (section 22.2.4.5) over two GPIO lines. It
  sends a 32-bit preamble, then ST, OP, PHYAD, REGAD and TA. Then it clocks out or samples
  16 data bits.

The platform layer (module `Hal`) covers SPI, GPIO, memory allocation and the MAX22190
channel-state call. It is modelled as a `Platform` object holding an ordered trace of calls,
and an oracle answers each call by its position in the trace. The MAX22190, AD2S1210 and
HMC630x operations are methods on the driver's descriptor class. The MDIO operations are
module-level methods that take the `Platform`; their descriptor is abstracted away. Each
operation is proved to make exactly the calls, and return exactly the status, that a trace
function on sequences describes. The promises of the driver are then lemmas about those functions. They hold for
every possible answer of the hardware:

- a failed initialisation gives back, newest first, what it acquired;
- a register read returns the byte clocked in;
- a frame's fields land where the datasheet puts them;
- reading the register map back returns what was written.

Modules: `Hal` (platform), `Bits` (no_os_field_prep / no_os_field_get on bytes),
`Crc5` (the MAX22190 CRC), `Max22190`, `Ad2s1210`, `Hmc630x`, `Mdio`.

## Model

| member | source | states |
|---|---|---|
| Bits.LowestSetBit | drivers/rf-transceiver/hmc630x/hmc630x_fake.c:248 | the shift of a non-empty mask points at a set bit with no set bit below it |
| Bits.FieldPrep | drivers/rf-transceiver/hmc630x/hmc630x_fake.c:248 | a prepared field has no bit outside its mask |
| Bits.FieldGet | drivers/rf-transceiver/hmc630x/hmc630x_fake.c:265 | an extracted field fits the mask's width once shifted down |
| Bits.GetPrep | drivers/rf-transceiver/hmc630x/hmc630x_fake.c:236-267 | getting a prepared field back gives the value cut to the field's width |
| Bits.PrepGet | drivers/rf-transceiver/hmc630x/hmc630x_fake.c:236-267 | preparing a field read out of a word rebuilds that word's bits inside the mask |
| Bits.DisjointFieldIsZero | drivers/digital-io/max22190/max22190.c:65-66 | a field prepared in one mask reads as zero through a disjoint mask |
| Bits.GetFirstOfTwo | drivers/digital-io/max22190/max22190.c:65-66 | in a byte built from two disjoint prepared fields, the first reads back as its value |
| Bits.GetSecondOfTwo | drivers/digital-io/max22190/max22190.c:65-66 | likewise for the second field |
| Crc5.CompositeLayout | drivers/digital-io/max22190/max22190.c:26-28 | the divided word has 24 bits: CRC_INIT 0x07 below, and above it the top 19 bits of data2:data1:data0 |
| Crc5.Reduce | drivers/digital-io/max22190/max22190.c:32-35 | one reduction leaves a 5-bit value, either unchanged or xored with the polynomial 0x35 |
| Crc5.Step | drivers/digital-io/max22190/max22190.c:38-44 | shifting one bit in and reducing keeps the register below 0x20 |
| Crc5.Register | drivers/digital-io/max22190/max22190.c:30-45 | the register stays a 5-bit value at every position of the division |
| Crc5.Crc | drivers/digital-io/max22190/max22190.c:13-48 | the CRC is a 5-bit value |
| Crc5.ComputeCrc | drivers/digital-io/max22190/max22190.c:26-28 | the composite word built and divided gives exactly `Crc` of the three bytes |
| Crc5.Divide | drivers/digital-io/max22190/max22190.c:30-47 | the first reduction and the 18-step loop leave the register after all 19 bits, cut to five bits |
| Crc5.CrcIgnoresLowBits | drivers/digital-io/max22190/max22190.c:28 | the low five bits of `data0` never affect the CRC: the initial value replaces them |
| Crc5.Seal | drivers/digital-io/max22190/max22190.c:94-97 | the CRC byte a sender appends has its top three bits clear |
| Crc5.SealedFrameValid | drivers/digital-io/max22190/max22190.c:94-97 | two bytes followed by their CRC always pass the receiver's check |
| Crc5.CrcOfZero | drivers/digital-io/max22190/max22190.c:13-48 | known vector: 00 00 00 gives 0x07 |
| Crc5.CrcVectorA | drivers/digital-io/max22190/max22190.c:13-48 | known vector: 19 00 00 gives 0x00 |
| Crc5.CrcVectorB | drivers/digital-io/max22190/max22190.c:13-48 | known vector: 07 00 00 gives 0x09 |
| Crc5.CrcVectorC | drivers/digital-io/max22190/max22190.c:13-48 | known vector: 01 00 07 gives 0x05 |
| Max22190.ReadRequest | drivers/digital-io/max22190/max22190.c:55-66 | a read sends two bytes, or three with CRC enabled |
| Max22190.ReadResult | drivers/digital-io/max22190/max22190.c:68-79 | a read succeeds exactly when the transfer does and, with CRC on, the driver's CRC test passes; it then returns received byte 1; every failure is non-zero |
| Max22190.ReadControlFields | drivers/digital-io/max22190/max22190.c:65-66 | the read control byte holds the address, cut to the field, and 0 in the read/write field |
| Max22190.WriteFrame | drivers/digital-io/max22190/max22190.c:90-97 | a write sends two bytes, or three with CRC enabled |
| Max22190.WriteControlIsReadControl | drivers/digital-io/max22190/max22190.c:90-91 | as written, a write's control byte equals the read control byte of the same register, with read/write field 0 |
| Max22190.WriteFrameFailsCheck | drivers/digital-io/max22190/max22190.c:94-96 | as written, writing 0 to register 1 sends 01 00 07, which fails the receiver's CRC check |
| Max22190.WriteControlIsWrite | drivers/digital-io/max22190/max22190.c:91 | the corrected write control byte has read/write field 1 |
| Max22190.WriteControlKeepsAddress | drivers/digital-io/max22190/max22190.c:90 | the corrected write control byte carries the address field of the read control byte |
| Max22190.WriteControlMarksWrite | drivers/digital-io/max22190/max22190.c:90-91 | the corrected write control byte has the same address as a read, is marked a write, and so differs from the read control byte |
| Max22190.SealedWriteFrame | drivers/digital-io/max22190/max22190.c:90-97 | the corrected frame is the write control byte, then the data byte, then the CRC when enabled |
| Max22190.SealedWriteFrameValid | drivers/digital-io/max22190/max22190.c:94-97 | every corrected write frame passes the receiver's check |
| Max22190.ReadCheckAcceptsInvalidFrame | drivers/digital-io/max22190/max22190.c:72-75 | as written, the read accepts 00 vv 19 for every data byte vv and returns vv; the frame 00 00 19 among them fails the receiver's check |
| Max22190.ReadCheckRejectsValidFrame | drivers/digital-io/max22190/max22190.c:72-75 | as written, the read rejects 00 00 07 with -EINVAL, though that frame passes the check |
| Max22190.CheckedReadResult | drivers/digital-io/max22190/max22190.c:68-79 | the corrected read succeeds exactly when the transfer does and, with CRC on, the frame passes the receiver's check; it returns byte 1 |
| Max22190.CheckedReadAcceptsSealed | drivers/digital-io/max22190/max22190.c:72-77 | the corrected read accepts every frame sealed with its CRC and returns its data byte |
| Max22190.CheckedReadRejectsInvalid | drivers/digital-io/max22190/max22190.c:72-75 | the corrected read rejects every frame that fails the check with -EINVAL |
| Max22190.Widen | drivers/digital-io/max22190/max22190.c:77 | the byte stored in the 32-bit `reg_val` stays below 0x100 |
| Max22190.UpdateValueFields | drivers/digital-io/max22190/max22190.c:112-113 | the merged value takes the bits of `mask` from `val` and every other bit from the current value |
| Max22190.UpdateIdempotent | drivers/digital-io/max22190/max22190.c:112-113 | merging twice with the same mask and value is merging once |
| Max22190.UpdateStopsOnReadError | drivers/digital-io/max22190/max22190.c:108-110 | a failed read ends the update with the read's error, and nothing is written |
| Max22190.UpdateWritesMerged | drivers/digital-io/max22190/max22190.c:112-115 | after a successful read, the update sends exactly one write frame, whose data byte is the merged value's low byte |
| Max22190.MergedByteFields | drivers/digital-io/max22190/max22190.c:112-115 | the byte written keeps the register's bits outside `mask` and takes `val`'s inside it |
| Max22190.InitReadEvents | drivers/digital-io/max22190/max22190.c:148-154 | initialisation makes two register reads, and neither acquires nor releases anything |
| Max22190.InitRunStaged | drivers/digital-io/max22190/max22190.c:126-132 | after a successful allocation, initialisation is the allocation followed by the SPI stage |
| Max22190.InitChannelsOutcome | drivers/digital-io/max22190/max22190.c:156-173 | the channel loop keeps the promise of initialisation: it ends holding everything, or it unwinds |
| Max22190.ChannelsOnOutcome | drivers/digital-io/max22190/max22190.c:141-164 | a run made of the acquisitions, the enable drive when the line is present, the two reads and every channel on, ending in success, keeps the promise of initialisation |
| Max22190.ChannelFailureUnwinds | drivers/digital-io/max22190/max22190.c:156-173 | a channel that fails to turn on is followed by the release of the enable line, the SPI device and the descriptor, newest first |
| Max22190.AllChannelsOn | drivers/digital-io/max22190/max22190.c:156-164 | after the two reads, turning every channel on acquires and releases nothing, so the run still holds the descriptor, SPI and enable line and has released nothing |
| Max22190.InitReadsOutcome | drivers/digital-io/max22190/max22190.c:148-173 | the register reads and what follows keep the promise of initialisation |
| Max22190.NeutralReads | drivers/digital-io/max22190/max22190.c:148-154 | the two reads leave both the acquisitions and the releases as they were |
| Max22190.FirstReadFailureUnwinds | drivers/digital-io/max22190/max22190.c:148-150 | a failed wire-break read unwinds everything acquired before it |
| Max22190.SecondReadFailureUnwinds | drivers/digital-io/max22190/max22190.c:152-154 | a failed FAULT2 read unwinds everything acquired before it |
| Max22190.AfterFirstRead | drivers/digital-io/max22190/max22190.c:148-154 | after the wire-break read, the run still holds everything and has released nothing |
| Max22190.EarlyFailuresUnwind | drivers/digital-io/max22190/max22190.c:126-139 | the allocation, SPI and GPIO failures each give back what was acquired before them |
| Max22190.AllocFailureUnwinds | drivers/digital-io/max22190/max22190.c:126-128 | a failed allocation releases nothing |
| Max22190.SpiFailureUnwinds | drivers/digital-io/max22190/max22190.c:130-132 | a failed SPI init frees the descriptor only |
| Max22190.GpioFailureUnwinds | drivers/digital-io/max22190/max22190.c:136-139 | a failed enable-line request removes the SPI device, then frees the descriptor |
| Max22190.EnableFailureUnwinds | drivers/digital-io/max22190/max22190.c:141-146 | driving the enable line acquires nothing, and its failure unwinds all three resources |
| Max22190.InitKeepsPromise | drivers/digital-io/max22190/max22190.c:118-174 | for every sequence of replies, a successful init makes exactly these calls: allocation, SPI init and the enable-line request; driving the enable line high when it is present; the WIRE_BREAK and FAULT2 reads; every channel turned on in index order. It then holds all three resources and has released nothing. A failed init unwinds everything it acquired, newest first |
| Max22190.InitSucceedsIff | drivers/digital-io/max22190/max22190.c:118-174 | init returns 0 exactly when every call it makes succeeds and, with CRC on, both register reads pass the driver's CRC test; a failed allocation gives -ENOMEM |
| Max22190.EarlyInitFails | drivers/digital-io/max22190/max22190.c:126-146 | a failure of the allocation, SPI init, the enable-line request or its drive makes init fail with a failing call among those made; a failed allocation gives -ENOMEM |
| Max22190.LaterInitSucceedsIff | drivers/digital-io/max22190/max22190.c:148-164 | once the enable line is handled, init succeeds exactly when the remaining calls succeed and the reads pass the CRC test |
| Max22190.ReadsSucceedIff | drivers/digital-io/max22190/max22190.c:148-164 | the reads and channel loop succeed exactly when every call from the first read on succeeds and, with CRC on, both reads pass the CRC test |
| Max22190.ChannelsSucceedIff | drivers/digital-io/max22190/max22190.c:156-160 | the channel loop of init succeeds exactly when every channel call succeeds |
| Max22190.InitEarlyFailure | drivers/digital-io/max22190/max22190.c:126-139 | the promise holds when one of the first three calls fails |
| Max22190.InitWithoutEnable | drivers/digital-io/max22190/max22190.c:141-164 | the promise holds when there is no enable line |
| Max22190.InitWithEnable | drivers/digital-io/max22190/max22190.c:141-164 | the promise holds when the enable line exists and is driven high |
| Max22190.RemoveFailureReleasesNothing | drivers/digital-io/max22190/max22190.c:184-188 | a failed removal turned channels off in order up to the failing one, released nothing, and returns that channel's status |
| Max22190.RemoveSuccessReleases | drivers/digital-io/max22190/max22190.c:184-197 | a successful removal turned every channel off, then released the SPI device, the enable line if present, and the descriptor last |
| Max22190.ChanOpsNeutral | drivers/digital-io/max22190/max22190.c:184-188 | channel state calls neither acquire nor release |
| Max22190.RemoveIsNotUnwind | drivers/digital-io/max22190/max22190.c:190-195 | with an enable line, removal is not the reverse of initialisation: SPI goes before the enable line |
| Max22190.Desc.constructor | drivers/digital-io/max22190/max22190.c:126 | the calloc'd descriptor: CRC off, no enable line, zeroed buffer |
| Max22190.Desc.RegRead | drivers/digital-io/max22190/max22190.c:50-80 | exactly one transfer of the read request; the status and value are `ReadResult` of the reply; the buffer holds the bytes received |
| Max22190.Desc.RegWrite | drivers/digital-io/max22190/max22190.c:82-100 | exactly one transfer of the write frame as built; returns the transfer's status |
| Max22190.Desc.RegUpdate | drivers/digital-io/max22190/max22190.c:102-116 | the calls and status are `UpdateRun`: a read, and a write of the merged value only after a successful read |
| Max22190.Desc.Init | drivers/digital-io/max22190/max22190.c:118-174 | calls and status are `InitRun`; a descriptor is returned exactly on success, with the CRC setting and the enable line recorded |
| Max22190.Desc.Setup | drivers/digital-io/max22190/max22190.c:130-173 | from SPI init on, the calls and status are the SPI stage |
| Max22190.Desc.AcquireEnable | drivers/digital-io/max22190/max22190.c:136-173 | from the enable-line request on, the calls and status are the GPIO stage, and the line's presence is recorded |
| Max22190.Desc.DriveEnable | drivers/digital-io/max22190/max22190.c:141-173 | from driving the enable line on, the calls and status are the enable stage |
| Max22190.Desc.ReadFaultsAndEnable | drivers/digital-io/max22190/max22190.c:148-173 | from the wire-break read on, the calls and status are the read stage |
| Max22190.Desc.ReadFault2AndEnable | drivers/digital-io/max22190/max22190.c:152-173 | from the FAULT2 read on, the calls and status are the second-read stage |
| Max22190.Desc.ReadOrUnwind | drivers/digital-io/max22190/max22190.c:148-150 | one register read; on failure it returns the read's error and is followed by the unwinding calls |
| Max22190.Desc.EnableChannels | drivers/digital-io/max22190/max22190.c:156-173 | the channel loop of init, with the unwinding on failure |
| Max22190.Desc.SetChannels | drivers/digital-io/max22190/max22190.c:156-160 | every channel in index order is set on or off, stopping at the first failure |
| Max22190.Desc.Remove | drivers/digital-io/max22190/max22190.c:176-198 | NULL gives -ENODEV with no call; otherwise the calls and status are `RemoveRun` |
| Ad2s1210.SetModeOutcome | drivers/resolver/ad2s1210/ad2s1210.c:130-148 | the pins are touched only when the mode changes, A0 before A1, stopping at the first failure; the cache holds the new mode exactly on success |
| Ad2s1210.ModeLevelsEncode | drivers/resolver/ad2s1210/ad2s1210.c:138-142 | as written, A0 gets 0 or 1 and A1 gets 0 or 2; together they sum to the mode's two low bits |
| Ad2s1210.A1LevelIsNeverHigh | drivers/resolver/ad2s1210/ad2s1210.c:142 | as written, A1 never gets the level 1; every mode with bit 1 set gives it 2 |
| Ad2s1210.IntendedModeLevels | drivers/resolver/ad2s1210/ad2s1210.c:138-142 | with `!!(mode & BIT(1))`, both levels are 0 or 1 and spell bits 0 and 1 of the mode |
| Ad2s1210.RegAccessRejectsLowAddress | drivers/resolver/ad2s1210/ad2s1210.c:65-96 | an address below the register range gives -EINVAL with no pin or bus activity, for both reads and writes |
| Ad2s1210.RegWriteSendsAddressThenValue | drivers/resolver/ad2s1210/ad2s1210.c:60-79 | a write is the mode switch, then the exchange of the address, then of the value, stopping at the first failure; success means all succeeded and the device is in configuration mode |
| Ad2s1210.RegReadSendsAddressTwice | drivers/resolver/ad2s1210/ad2s1210.c:90-120 | both exchanges of a read send the address; a successful read returns the byte clocked in by the second, its last call |
| Ad2s1210.RegAccessInConfigMode | drivers/resolver/ad2s1210/ad2s1210.c:60-120 | from configuration mode, register access makes only SPI exchanges and leaves the cache alone |
| Ad2s1210.RegReadLeavesConfigMode | drivers/resolver/ad2s1210/ad2s1210.c:98-119 | a successful read leaves the cached mode at configuration |
| Ad2s1210.ResolutionCodeInField | drivers/resolver/ad2s1210/ad2s1210.c:170-185 | exactly the four resolutions are accepted, each code lies inside the field, and any other value gives -EINVAL |
| Ad2s1210.ControlWithFields | drivers/resolver/ad2s1210/ad2s1210.c:168-181 | the control byte written keeps every bit read outside the resolution field, and the field holds exactly the code |
| Ad2s1210.ResolutionPinsMatchField | drivers/resolver/ad2s1210/ad2s1210.c:194-198 | with RES0 at bit 0 and RES1 at bit 1, RES0 is high exactly for 12 and 16 bits and RES1 exactly for 14 and 16 |
| Ad2s1210.SetResolutionRejectsInvalid | drivers/resolver/ad2s1210/ad2s1210.c:164-185 | an unsupported resolution reads CONTROL, writes nothing, and returns the read's error or -EINVAL |
| Ad2s1210.SetResolutionWritesField | drivers/resolver/ad2s1210/ad2s1210.c:164-189 | after a successful read, CONTROL is written with the field replaced by the code and the rest kept |
| Ad2s1210.WriteControlOutcome | drivers/resolver/ad2s1210/ad2s1210.c:187-198 | from configuration mode: address then byte, then RES0 and RES1 only when both pins exist; success means every call succeeded |
| Ad2s1210.SetResolutionLeavesConfigMode | drivers/resolver/ad2s1210/ad2s1210.c:158-199 | started in configuration mode, the cached mode stays there whatever the outcome |
| Ad2s1210.SetResolutionKeepsConfigMode | drivers/resolver/ad2s1210/ad2s1210.c:158-199 | started in configuration mode, only SPI exchanges and resolution-pin writes are made, at least one |
| Ad2s1210.WriteControlTouchesOnlyResolution | drivers/resolver/ad2s1210/ad2s1210.c:187-198 | writing CONTROL makes only SPI exchanges and resolution-pin writes |
| Ad2s1210.ConversionSamplesFirst | drivers/resolver/ad2s1210/ad2s1210.c:319-325 | every conversion pulls SAMPLE low then high; a failure of either leaves the buffer untouched |
| Ad2s1210.ConversionWithModePins | drivers/resolver/ad2s1210/ad2s1210.c:327-337 | with mode pins, success selects the channel's mode and returns the two raw bytes clocked in by the last call, a two-byte exchange |
| Ad2s1210.ConversionThroughRegisters | drivers/resolver/ad2s1210/ad2s1210.c:339-349 | without mode pins, success is two register reads, the channel's register into byte 0 and the next one into byte 1, ending in configuration mode |
| Ad2s1210.SetupCallFacts | drivers/resolver/ad2s1210/ad2s1210.c:226-268 | the five line requests acquire, each released by its matching teardown call; the five direction calls are neutral; the last call brings up SPI |
| Ad2s1210.LinesAcquire | drivers/resolver/ad2s1210/ad2s1210.c:218-244 | the allocation and the first line requests acquire everything they make and release nothing |
| Ad2s1210.LinesUnwind | drivers/resolver/ad2s1210/ad2s1210.c:283-296 | unwinding the allocation and the first `i` line requests is the last `i + 1` teardown calls |
| Ad2s1210.ErrLabelIsUnwind | drivers/resolver/ad2s1210/ad2s1210.c:226-296 | each error label gives back, newest first, exactly what the calls before the failing one acquired |
| Ad2s1210.ResolutionCallsNeutral | drivers/resolver/ad2s1210/ad2s1210.c:276-278 | the calls of set_resolution during init are a non-empty run of neutral calls |
| Ad2s1210.InitKeepsPromise | drivers/resolver/ad2s1210/ad2s1210.c:212-300 | a failed init releases what it acquired, newest first, and nothing else; a successful one holds the descriptor, the five lines and SPI, and released nothing |
| Ad2s1210.InitSucceedsIff | drivers/resolver/ad2s1210/ad2s1210.c:212-300 | init returns 0 exactly when the resolution is one of the four supported and every call it makes succeeds; a failed allocation gives -ENOMEM |
| Ad2s1210.SetupSucceedsIff | drivers/resolver/ad2s1210/ad2s1210.c:226-296 | from any setup call on, init succeeds exactly when the resolution is supported and every remaining call succeeds |
| Ad2s1210.SetupCallBreaks | drivers/resolver/ad2s1210/ad2s1210.c:226-268 | a failing setup call makes init fail, with that call among the calls made |
| Ad2s1210.SetupCallPasses | drivers/resolver/ad2s1210/ad2s1210.c:226-268 | a successful setup call keeps the success condition of the calls after it |
| Ad2s1210.ResolutionStageSucceedsIff | drivers/resolver/ad2s1210/ad2s1210.c:276-296 | the resolution stage of init succeeds exactly when the resolution is supported and every call of set_resolution succeeds |
| Ad2s1210.SetResolutionSucceedsIff | drivers/resolver/ad2s1210/ad2s1210.c:158-199 | from configuration mode, set_resolution returns 0 exactly when the resolution is supported and every call it makes succeeds |
| Ad2s1210.SetResolutionFails | drivers/resolver/ad2s1210/ad2s1210.c:164-185 | a failed read of CONTROL or an unsupported resolution makes set_resolution fail |
| Ad2s1210.ControlWriteSucceedsIff | drivers/resolver/ad2s1210/ad2s1210.c:168-198 | after a good read with a supported resolution, set_resolution succeeds exactly when the CONTROL write and pin writes succeed |
| Ad2s1210.WriteControlSucceedsIff | drivers/resolver/ad2s1210/ad2s1210.c:187-198 | from configuration mode, writing CONTROL and the resolution pins succeeds exactly when every call made succeeds |
| Ad2s1210.SetupFromOutcome | drivers/resolver/ad2s1210/ad2s1210.c:226-296 | the same promise from any setup call on |
| Ad2s1210.SetupCallFails | drivers/resolver/ad2s1210/ad2s1210.c:226-296 | a failing setup call followed by its error label unwinds |
| Ad2s1210.ResolutionOutcome | drivers/resolver/ad2s1210/ad2s1210.c:276-296 | the resolution stage keeps the promise of init |
| Ad2s1210.NeutralThenTeardown | drivers/resolver/ad2s1210/ad2s1210.c:276-296 | neutral calls after setup keep everything held, and the teardown after them unwinds |
| Ad2s1210.HeldAfterSetup | drivers/resolver/ad2s1210/ad2s1210.c:226-268 | after every setup call the driver holds descriptor, lines and SPI, and the teardown gives them back newest first |
| Ad2s1210.TeardownIsUnwind | drivers/resolver/ad2s1210/ad2s1210.c:283-296 | the fall-through teardown is the reverse of what is held once SPI is up |
| Ad2s1210.LinesThenOutputs | drivers/resolver/ad2s1210/ad2s1210.c:246-264 | the direction calls leave the descriptor and the five lines held and nothing released |
| Ad2s1210.RemoveLinesAreReleaseAll | drivers/resolver/ad2s1210/ad2s1210.c:375-405 | skipping absent lines, removal releases the held ones one after the other, stopping at the first failure |
| Ad2s1210.RemoveIsReleaseAll | drivers/resolver/ad2s1210/ad2s1210.c:364-408 | removal of a descriptor is SPI, then RES1, RES0, A0, A1 and SAMPLE where they exist, then the free |
| Ad2s1210.ReleaseAllStops | drivers/resolver/ad2s1210/ad2s1210.c:371-403 | removal stops at the first failing call, returns its status, and does not free the descriptor |
| Ad2s1210.ReleaseAllCompletes | drivers/resolver/ad2s1210/ad2s1210.c:371-407 | when every call succeeds, removal frees the descriptor last and returns 0 |
| Ad2s1210.RemoveOrderOfFullDevice | drivers/resolver/ad2s1210/ad2s1210.c:371-405 | on a full device, removal gives back what init acquired, but not in reverse order: A0 goes before A1 |
| Ad2s1210.Dev.constructor | drivers/resolver/ad2s1210/ad2s1210.c:218-224 | the calloc'd descriptor: configuration mode, the requested resolution, no lines, no pin flags |
| Ad2s1210.Dev.SetModePins | drivers/resolver/ad2s1210/ad2s1210.c:130-148 | the calls, status and new cached mode are `SetModeRun` |
| Ad2s1210.Dev.RegWrite | drivers/resolver/ad2s1210/ad2s1210.c:60-79 | the calls, status and cached mode are `RegWriteRun` |
| Ad2s1210.Dev.RegRead | drivers/resolver/ad2s1210/ad2s1210.c:90-120 | the calls, status, cached mode and value are `RegReadRun` |
| Ad2s1210.Dev.SetResolution | drivers/resolver/ad2s1210/ad2s1210.c:158-199 | the calls, status and cached mode are `SetResolutionRun` |
| Ad2s1210.Dev.WriteControl | drivers/resolver/ad2s1210/ad2s1210.c:187-198 | the calls, status and cached mode are `WriteControlRun` |
| Ad2s1210.Dev.SingleConversion | drivers/resolver/ad2s1210/ad2s1210.c:311-353 | the calls, status, cached mode and caller's buffer are `ConversionRun` |
| Ad2s1210.Dev.PulseSample | drivers/resolver/ad2s1210/ad2s1210.c:319-325 | SAMPLE low then high, stopping at the first failure |
| Ad2s1210.Dev.ReadChannel | drivers/resolver/ad2s1210/ad2s1210.c:327-350 | the branch on the mode pins, as `ReadChannelRun` |
| Ad2s1210.Dev.ConvertInMode | drivers/resolver/ad2s1210/ad2s1210.c:327-337 | the mode-pin branch, as `InModeRun` |
| Ad2s1210.Dev.ConvertThroughRegisters | drivers/resolver/ad2s1210/ad2s1210.c:339-349 | the register branch, as `ThroughRegistersRun` |
| Ad2s1210.Dev.RegReadInto | drivers/resolver/ad2s1210/ad2s1210.c:343-349 | a register read into one byte of the caller's buffer, which only a successful read writes |
| Ad2s1210.Dev.Init | drivers/resolver/ad2s1210/ad2s1210.c:212-300 | the calls and status are `InitRun`; a descriptor is returned exactly on success, with the lines that exist, the pin flags and configuration mode recorded |
| Ad2s1210.Dev.GetSample | drivers/resolver/ad2s1210/ad2s1210.c:226-228 | setup from the sample-line request on keeps `SetupDone` |
| Ad2s1210.Dev.GetA0 | drivers/resolver/ad2s1210/ad2s1210.c:230-232 | setup from the A0 request on keeps `SetupDone` |
| Ad2s1210.Dev.GetA1 | drivers/resolver/ad2s1210/ad2s1210.c:234-236 | setup from the A1 request on keeps `SetupDone` |
| Ad2s1210.Dev.GetRes0 | drivers/resolver/ad2s1210/ad2s1210.c:238-240 | setup from the RES0 request on keeps `SetupDone` |
| Ad2s1210.Dev.GetRes1 | drivers/resolver/ad2s1210/ad2s1210.c:242-244 | setup from the RES1 request on keeps `SetupDone` |
| Ad2s1210.Dev.DriveA0 | drivers/resolver/ad2s1210/ad2s1210.c:246-248 | setup from driving A0 on keeps `SetupDone` |
| Ad2s1210.Dev.DriveA1 | drivers/resolver/ad2s1210/ad2s1210.c:250-252 | setup from driving A1 on keeps `SetupDone` |
| Ad2s1210.Dev.DriveRes0 | drivers/resolver/ad2s1210/ad2s1210.c:254-256 | setup from driving RES0 on keeps `SetupDone` |
| Ad2s1210.Dev.DriveRes1 | drivers/resolver/ad2s1210/ad2s1210.c:258-260 | setup from driving RES1 on keeps `SetupDone` |
| Ad2s1210.Dev.DriveSample | drivers/resolver/ad2s1210/ad2s1210.c:262-264 | setup from driving SAMPLE on keeps `SetupDone` |
| Ad2s1210.Dev.StartSpi | drivers/resolver/ad2s1210/ad2s1210.c:266-268 | setup from SPI init on keeps `SetupDone` |
| Ad2s1210.Dev.ApplyResolution | drivers/resolver/ad2s1210/ad2s1210.c:270-278 | the pin flags are set from the lines that exist, then the resolution stage keeps `SetupDone` |
| Ad2s1210.Dev.ResolveOrTearDown | drivers/resolver/ad2s1210/ad2s1210.c:276-296 | set_resolution, then the teardown from err_spi on failure; configuration mode is kept |
| Ad2s1210.Dev.HeldLines | drivers/resolver/ad2s1210/ad2s1210.c:375-403 | one flag per line, in removal order |
| Ad2s1210.Dev.Remove | drivers/resolver/ad2s1210/ad2s1210.c:364-408 | NULL gives -EINVAL with no call; otherwise the calls and status are `RemoveRun` of the lines held |
| Ad2s1210.Dev.RemoveRes1 | drivers/resolver/ad2s1210/ad2s1210.c:375-379 | removal from RES1 on, as `RemoveLinesFrom` |
| Ad2s1210.Dev.RemoveRes0 | drivers/resolver/ad2s1210/ad2s1210.c:381-385 | removal from RES0 on, as `RemoveLinesFrom` |
| Ad2s1210.Dev.RemoveA0 | drivers/resolver/ad2s1210/ad2s1210.c:387-391 | removal from A0 on, as `RemoveLinesFrom` |
| Ad2s1210.Dev.RemoveA1 | drivers/resolver/ad2s1210/ad2s1210.c:393-397 | removal from A1 on, as `RemoveLinesFrom` |
| Ad2s1210.Dev.RemoveSample | drivers/resolver/ad2s1210/ad2s1210.c:399-403 | removal from SAMPLE on, as `RemoveLinesFrom` |
| Ad2s1210.Dev.FreeDescriptor | drivers/resolver/ad2s1210/ad2s1210.c:405-407 | the final free and status 0 |
| Hmc630x.Defaults | drivers/rf-transceiver/hmc630x/hmc630x_fake.c:71-80 | each type's datasheet defaults cover 24 rows |
| Hmc630x.InitialMap | drivers/rf-transceiver/hmc630x/hmc630x_fake.c:137-138 | the map of a new descriptor has 32 rows |
| Hmc630x.Written | drivers/rf-transceiver/hmc630x/hmc630x_fake.c:199-233 | the map after writing the register map keeps its 32 rows |
| Hmc630x.ReadBack | drivers/rf-transceiver/hmc630x/hmc630x_fake.c:270-301 | the caller's buffer keeps its length |
| Hmc630x.RegmapRoundTrip | drivers/rf-transceiver/hmc630x/hmc630x_fake.c:199-301 | reading the map back after writing it returns every written row, and rows the write skips keep their value |
| Hmc630x.ReadBackShape | drivers/rf-transceiver/hmc630x/hmc630x_fake.c:270-301 | readable rows are copied, skipped rows read as zero, and byte 0 is left alone exactly for the types whose loops start at row 1 |
| Hmc630x.InitialMapReadsBack | drivers/rf-transceiver/hmc630x/hmc630x_fake.c:71-80 | the rows the driver skips are zero in the defaults, so a new map reads back as itself on every row the loop covers |
| Hmc630x.DefaultsWriteIsIdentity | drivers/rf-transceiver/hmc630x/hmc630x_fake.c:199-233 | writing the defaults over a new map changes nothing |
| Hmc630x.WriteField | drivers/rf-transceiver/hmc630x/hmc630x_fake.c:236-250 | the map keeps its 32 rows |
| Hmc630x.FieldRoundTrip | drivers/rf-transceiver/hmc630x/hmc630x_fake.c:236-267 | reading a parameter after writing it returns the value cut to the field's width |
| Hmc630x.WriteFieldFrame | drivers/rf-transceiver/hmc630x/hmc630x_fake.c:243-249 | a write changes only its own field: other rows and the bits of its row outside the mask are kept |
| Hmc630x.RewriteIsIdentity | drivers/rf-transceiver/hmc630x/hmc630x_fake.c:236-267 | writing back the value just read leaves the map unchanged |
| Hmc630x.PlanFor | drivers/rf-transceiver/hmc630x/hmc630x_fake.c:140-155 | only an unknown reference clock is refused, with -EINVAL |
| Hmc630x.VcoFreqs | drivers/rf-transceiver/hmc630x/hmc630x_fake.c:98-101 | the frequency table has `entries` entries |
| Hmc630x.VcoFbdivs | drivers/rf-transceiver/hmc630x/hmc630x_fake.c:98-101 | the FBDIV table has `entries` entries |
| Hmc630x.VcoTablesExact | drivers/rf-transceiver/hmc630x/hmc630x_fake.c:99 | for every reference clock, no frequency wraps its 64-bit type: entry `e` is exactly start plus `e` steps |
| Hmc630x.VcoFbdivExact | drivers/rf-transceiver/hmc630x/hmc630x_fake.c:100 | for every reference clock, no FBDIV wraps its 8-bit type: entry `e` is exactly the start value plus `e` |
| Hmc630x.PlanFits | drivers/rf-transceiver/hmc630x/hmc630x_fake.c:140-155 | each plan's last frequency fits 64 bits, its last FBDIV fits 8 bits, its entry count fits a uint8_t, and its step is positive |
| Hmc630x.VcoFreqsIncrease | drivers/rf-transceiver/hmc630x/hmc630x_fake.c:98-101 | the frequency table is strictly increasing |
| Hmc630x.InitHoldsOnSuccessOnly | drivers/rf-transceiver/hmc630x/hmc630x_fake.c:112-166 | a failed init holds no allocation; a successful one holds exactly three: the descriptor and its two tables |
| Hmc630x.SetupHolds | drivers/rf-transceiver/hmc630x/hmc630x_fake.c:121-166 | once the descriptor is held, the rest of init adds the two tables on success and, on failure, gives back the descriptor and any table it took |
| Hmc630x.InitOutcome | drivers/rf-transceiver/hmc630x/hmc630x_fake.c:112-166 | init succeeds exactly when both pointers are given, the type and clock are known and all three allocations succeed; NULL pointers give -EINVAL with no call; a bad type or clock gives -EINVAL after alloc and free; every other failure is -ENOMEM |
| Hmc630x.Dev.constructor | drivers/rf-transceiver/hmc630x/hmc630x_fake.c:121 | the calloc'd descriptor: zeroed map, no tables, no fake frequency |
| Hmc630x.Dev.Init | drivers/rf-transceiver/hmc630x/hmc630x_fake.c:112-166 | the calls and status are `InitRun`; on success the descriptor holds the type's defaults, no fake frequency, and the VCO tables of the clock |
| Hmc630x.Dev.Setup | drivers/rf-transceiver/hmc630x/hmc630x_fake.c:125-165 | the calls and status after the allocation are `SetupRun`, with the same state on success |
| Hmc630x.Dev.LoadDefaults | drivers/rf-transceiver/hmc630x/hmc630x_fake.c:137-138 | the map becomes the initial map of the type |
| Hmc630x.Dev.GenerateVco | drivers/rf-transceiver/hmc630x/hmc630x_fake.c:83-109 | the calls and status are `VcoRun`; on success both tables are new and hold the plan's progressions |
| Hmc630x.Dev.FillVco | drivers/rf-transceiver/hmc630x/hmc630x_fake.c:98-101 | the loop fills both new tables with `VcoFreqs` and `VcoFbdivs` |
| Hmc630x.Dev.WriteRow | drivers/rf-transceiver/hmc630x/hmc630x_fake.c:185-189 | the row takes the value, nothing else changes, status 0 |
| Hmc630x.Dev.ReadRow | drivers/rf-transceiver/hmc630x/hmc630x_fake.c:192-196 | returns the row's value with status 0 |
| Hmc630x.Dev.WriteRegmap | drivers/rf-transceiver/hmc630x/hmc630x_fake.c:199-233 | the map becomes `Written` of the source and the status is 0 (the read-back check cannot fail) |
| Hmc630x.Dev.WriteChecked | drivers/rf-transceiver/hmc630x/hmc630x_fake.c:221-229 | one row written and read back, with no mismatch |
| Hmc630x.Dev.ReadRegmap | drivers/rf-transceiver/hmc630x/hmc630x_fake.c:270-301 | the caller's buffer becomes `ReadBack` of the map, status 0 |
| Hmc630x.Dev.FetchRow | drivers/rf-transceiver/hmc630x/hmc630x_fake.c:290-297 | the caller's byte is cleared, then filled from the row unless the row is skipped |
| Hmc630x.Dev.Write | drivers/rf-transceiver/hmc630x/hmc630x_fake.c:236-250 | the map becomes `WriteField` of the parameter and value, status 0 |
| Hmc630x.Dev.Read | drivers/rf-transceiver/hmc630x/hmc630x_fake.c:253-267 | NULL destination gives -EINVAL; otherwise status 0 and the field's value |
| Hmc630x.Dev.SetVco | drivers/rf-transceiver/hmc630x/hmc630x_fake.c:344-348 | the fake frequency is recorded, status 0 |
| Hmc630x.Dev.GetAvailVco | drivers/rf-transceiver/hmc630x/hmc630x_fake.c:351-361 | any NULL argument gives -EINVAL; otherwise the descriptor's frequency table and entry count |
| Mdio.FieldPrep32 | projects/microwave/src/examples/mdio/mdio_bitbang.c:76-80 | a prepared field has no bit outside its mask |
| Mdio.FrameFields | projects/microwave/src/examples/mdio/mdio_bitbang.c:76-80 | the frame holds ST = 01 in bits 31:30, OP in 29:28, PHYAD in 27:23, REGAD in 22:18, TA = 10 in 17:16, and zeros below |
| Mdio.Bit | projects/microwave/src/examples/mdio/mdio_bitbang.c:91 | the level driven for one frame bit is 0 or 1 |
| Mdio.HeaderBits | projects/microwave/src/examples/mdio/mdio_bitbang.c:90-94 | the header is 16 bits |
| Mdio.HeaderOnWire | projects/microwave/src/examples/mdio/mdio_bitbang.c:90-94 | on the wire the header is 0 1, OP, PHYAD, REGAD, 1 0, each field most significant bit first |
| Mdio.FramingOnWire | projects/microwave/src/examples/mdio/mdio_bitbang.c:76-80 | ST, OP and TA bits on the wire |
| Mdio.PhyOnWire | projects/microwave/src/examples/mdio/mdio_bitbang.c:78 | PHYAD bits 4..0 on the wire, most significant first |
| Mdio.RegOnWire | projects/microwave/src/examples/mdio/mdio_bitbang.c:79 | REGAD bits 4..0 on the wire, most significant first |
| Mdio.Preamble | projects/microwave/src/examples/mdio/mdio_bitbang.c:83-87 | `k` preamble bits are `3 k` calls |
| Mdio.Clocked | projects/microwave/src/examples/mdio/mdio_bitbang.c:90-94 | each bit clocked out is three calls |
| Mdio.Sampling | projects/microwave/src/examples/mdio/mdio_bitbang.c:128-136 | each bit clocked in is three calls |
| Mdio.HeaderEvents | projects/microwave/src/examples/mdio/mdio_bitbang.c:82-94 | the preamble and header are 144 calls |
| Mdio.DataBits | projects/microwave/src/examples/mdio/mdio_bitbang.c:107-111 | a data word is 16 bits on the wire |
| Mdio.ClockedAppend | projects/microwave/src/examples/mdio/mdio_bitbang.c:104-111 | clocking out two bit strings in turn is clocking out their concatenation |
| Mdio.WriteShape | projects/microwave/src/examples/mdio/mdio_bitbang.c:99-114 | a write is 32 preamble pulses, then the 16 header bits and the 16 data bits, MSB first: 64 clock pulses |
| Mdio.ReadPulses | projects/microwave/src/examples/mdio/mdio_bitbang.c:116-139 | a read also takes 64 clock pulses |
| Mdio.AssembleBound | projects/microwave/src/examples/mdio/mdio_bitbang.c:128-136 | `m` samples build a value below 2 to the `m` |
| Mdio.AccAssemble | projects/microwave/src/examples/mdio/mdio_bitbang.c:128-136 | before the last pass, `*out` holds the samples so far shifted up by one; the 16-bit shift loses nothing |
| Mdio.PassEven | projects/microwave/src/examples/mdio/mdio_bitbang.c:130-133 | one pass puts the sample in bit 0 and shifts up without loss while the word is below 2 to the 15 |
| Mdio.AccLast | projects/microwave/src/examples/mdio/mdio_bitbang.c:128-136 | after the 16th pass, `*out` holds exactly the assembled samples |
| Mdio.Samples | projects/microwave/src/examples/mdio/mdio_bitbang.c:129-131 | a read takes 16 samples |
| Mdio.ShiftInBits | projects/microwave/src/examples/mdio/mdio_bitbang.c:130-133 | doubling and adding a sample puts it in bit 0 and moves every other bit up by one |
| Mdio.AssembleBit | projects/microwave/src/examples/mdio/mdio_bitbang.c:128-136 | sample `j` of `m` lands in bit `m - 1 - j` |
| Mdio.ReadBitOrder | projects/microwave/src/examples/mdio/mdio_bitbang.c:128-136 | the 16 samples fill bits 15 down to 0: the first sampled bit is the most significant |
| Mdio.DigitsAssemble | projects/microwave/src/examples/mdio/mdio_bitbang.c:128-136 | any value below 2 to the `n` is rebuilt from its `n` low bits, MSB first |
| Mdio.WireSamples | projects/microwave/src/examples/mdio/mdio_bitbang.c:107-108 | the levels a write of `v` drives are 16 samples |
| Mdio.WireSampleBit | projects/microwave/src/examples/mdio/mdio_bitbang.c:107-108 | the `k`-th level of a write of `v` is bit `15 - k` of `v` |
| Mdio.WireRoundTrip | projects/microwave/src/examples/mdio/mdio_bitbang.c:99-139 | a read that samples the levels a write of `v` drove returns `v` |
| Mdio.ReadsBackIff | projects/microwave/src/examples/mdio/mdio_bitbang.c:99-139 | a read returns `v` exactly when its samples are the levels a write of `v` drives |
| Mdio.StaleStatusReportsSuccess | projects/microwave/src/examples/mdio/mdio_bitbang.c:33-35 | as written, a failed descriptor allocation returns the unassigned `ret`; when it holds 0, init reports success having freed its state |
| Mdio.InitOutcome | projects/microwave/src/examples/mdio/mdio_bitbang.c:24-68 | with -ENOMEM for that failure, init succeeds exactly when all six calls do, then makes exactly those calls; any failure gives back, newest first, what was acquired before it |
| Mdio.InitFailureUnwinds | projects/microwave/src/examples/mdio/mdio_bitbang.c:58-67 | every failed init unwinds |
| Mdio.LadderUnwinds | projects/microwave/src/examples/mdio/mdio_bitbang.c:58-67 | each label of the goto ladder gives back, newest first, what the calls before the failing one acquired |
| Mdio.HeldBefore | projects/microwave/src/examples/mdio/mdio_bitbang.c:29-52 | the calls before the `k`-th acquire its first `min(k, 4)` calls and release nothing |
| Mdio.UnwindHeld | projects/microwave/src/examples/mdio/mdio_bitbang.c:58-65 | the ladder's tails are the reverses of what is held |
| Mdio.Clock | projects/microwave/src/examples/mdio/mdio_bitbang.c:85-86 | one MDC pulse: high, then low |
| Mdio.PreambleStep | projects/microwave/src/examples/mdio/mdio_bitbang.c:84-86 | MDIO driven high, then one pulse |
| Mdio.ClockOut | projects/microwave/src/examples/mdio/mdio_bitbang.c:91-93 | the level on MDIO, then one pulse |
| Mdio.ClockIn | projects/microwave/src/examples/mdio/mdio_bitbang.c:129-135 | MDIO read, then one pulse; the level returned is the one the platform gave |
| Mdio.Rw22 | projects/microwave/src/examples/mdio/mdio_bitbang.c:70-97 | the calls are the preamble and header of the frame; status 0 |
| Mdio.SendPreamble | projects/microwave/src/examples/mdio/mdio_bitbang.c:83-87 | 32 preamble bits |
| Mdio.SendHeader | projects/microwave/src/examples/mdio/mdio_bitbang.c:90-94 | frame bits 31 down to 16 clocked out |
| Mdio.HeaderLevel | projects/microwave/src/examples/mdio/mdio_bitbang.c:91 | the level for loop index `i` is header bit `31 - i` |
| Mdio.Write | projects/microwave/src/examples/mdio/mdio_bitbang.c:99-114 | the calls are `WriteEvents`; status 0 |
| Mdio.SendData | projects/microwave/src/examples/mdio/mdio_bitbang.c:107-111 | data bits 15 down to 0 clocked out |
| Mdio.Read | projects/microwave/src/examples/mdio/mdio_bitbang.c:116-139 | the calls are `ReadEvents`; status 0; the value is the 16 samples assembled MSB first |
| Mdio.ShiftIn | projects/microwave/src/examples/mdio/mdio_bitbang.c:127-136 | 16 samples; the word built is `Assemble` of the levels read |
| Mdio.SampleInto | projects/microwave/src/examples/mdio/mdio_bitbang.c:129-135 | one pass: sample, set bit 0 on a non-zero level, shift unless last, pulse |
| Mdio.Init | projects/microwave/src/examples/mdio/mdio_bitbang.c:24-68 | the calls and status are `InitRun` |
| Mdio.AcquireLines | projects/microwave/src/examples/mdio/mdio_bitbang.c:37-67 | the GPIO half of init, as `LinesRun` |
| Mdio.Remove | projects/microwave/src/examples/mdio/mdio_bitbang.c:141-144 | returns 0 |

## Left out

- The platform primitives are not modelled: no_os SPI, GPIO, delay and alloc. Each call is
  a trace event, and an arbitrary oracle answers it. Timing (the settling delays) and the
  contents of memory beyond what the drivers read back are not modelled.
- The header files are not part of this model: max22190.h, ad2s1210.h, hmc630x.h,
  no_os_mdio.h and mdio_bitbang.h. Their masks, register addresses and enumerator values
  are `Config` fields. Only the properties those values must have are assumed, as
  `ValidConfig`.
- `max22190_chan_state` and `max22190_ch_state` are not part of this model. Each is one
  platform call, `ChanState`.
- The hmc630x stubs (temperature, enable, attenuations, LNA and baseband gains) are not
  modelled; their code only returns a constant.
- `hmc630x_remove` is not modelled. `InitHoldsOnSuccessOnly` states the three allocations
  it would free.
- HMC630X_ROW and HMC630X_MASK (the decoding of a parameter's 16-bit code) are not
  modelled. A parameter is given as its row and its mask.
- Hmc630x.Dev.WriteRegmap: states status 0 only. In the fake driver, rows are written and
  read in memory, so the -EFAULT and error paths cannot be reached; they are modelled but
  proved unreachable.
- Hmc630x.Dev.ReadRegmap: the source returns `ret` uninitialised when no row is read. For
  every type, at least one row is read, so the model returns 0.
- Mdio.Rw22: `dev->addr` is taken as a 32-bit value. `1 << 31` is taken as bit 31 of a
  32-bit word, not as the signed-int overflow it is in C.
- Mdio.Rw22: no_os_field_prep (no_os_util.h is not part of this model) is taken as
  unsigned 32-bit arithmetic, where the shift wraps. Where it shifts a value promoted to
  `int`, REGAD values from 0x2000 up, shifted left by 18, overflow a signed int. The model
  keeps only the low 32 bits and masks them, which gives the same frame bits.
- Mdio.Init: the `sizeof(*dev)` allocation at mdio_bitbang.c:33 allocates a pointer's
  size. Heap layout is not modelled, so this is not captured.
- Mdio.Read: the model follows the code. The code drives both TA bits (1 0) of a read
  itself, then makes MDIO an input and clocks 16 samples. IEEE 802.3 has the station
  release MDIO during a read's TA and the PHY drive its second bit. The model does not
  check that expectation.
- The GPIO statuses that mdio_bitbang ignores are recorded in the trace and never
  checked, as in the code.
- The `pr_err` at ad2s1210.c:297 reads `d->name` after `no_os_free(d)`. Memory after
  free is not modelled, so this use-after-free is not captured.
- A NULL out-pointer (`hmc630x_read` value, `hmc630x_get_avail_vco` arguments,
  `hmc630x_init` `dev`) is modelled as a boolean argument.
- Crc5: the error-detection strength of the polynomial is not proved. The model proves
  what the code computes, a round trip for sealed frames, and known vectors.
- Mdio.IsSet: `(v >> i) & 1` on the data word is modelled with arithmetic (halving),
  not with bit-vectors.

## Findings

The driver methods follow the code as written. For MAX22190 and AD2S1210, the corrected
definitions sit beside them, with the intended property proved. For MDIO, the corrected
error code is the one the methods use, because the written code returns an unassigned
value.

| source | as written | input that shows it | evidently intended | confidence | as-written member | corrected member |
|---|---|---|---|---|---|---|
| drivers/digital-io/max22190/max22190.c:91 | the read/write field prepared with 1 is thrown away, so a write's control byte has read/write = 0, the code of a read | any write, e.g. register 1: control byte 0x01, the same as a read | `buff[0]` or-ed with `no_os_field_prep(MAX22190_RW_MASK, 1)` | high, not executed | Max22190.WriteControlIsReadControl | Max22190.WriteControlMarksWrite |
| drivers/digital-io/max22190/max22190.c:96 | the CRC is computed over `(0, data, control)`, not over the frame's own bytes in order | writing 0 to register 1 with CRC on sends 01 00 07; the CRC of 01 00 is 05 | CRC of the control byte and the data byte, in frame order | medium, not executed | Max22190.WriteFrameFailsCheck | Max22190.SealedWriteFrameValid |
| drivers/digital-io/max22190/max22190.c:73 | the received frame is tested by `max22190_crc(buff[2], 0, buff[0]) == 0` | the invalid frame 00 00 19 is accepted; the valid frame 00 00 07 is rejected | compare the CRC of the first two bytes with the third | medium, not executed | Max22190.ReadCheckAcceptsInvalidFrame | Max22190.CheckedReadRejectsInvalid |
| drivers/resolver/ad2s1210/ad2s1210.c:142 | A1 is driven with `mode & BIT(1)`, which is 2 for modes with bit 1 set | MODE_CONFIG or any mode with bit 1 set drives level 2 onto A1, not NO_OS_GPIO_HIGH | `!!(mode & BIT(1))`, as the driver writes RES1 at line 198 | medium, not executed | Ad2s1210.A1LevelIsNeverHigh | Ad2s1210.IntendedModeLevels |
| projects/microwave/src/examples/mdio/mdio_bitbang.c:34-35 | on a failed descriptor allocation, init returns `ret` before anything assigns it | the second calloc fails: init frees its private state and returns whatever `ret` held, possibly 0 | return -ENOMEM | high, not executed | Mdio.StaleStatusReportsSuccess | Mdio.InitOutcome |
