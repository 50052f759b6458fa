# BMP280 barometric sensor driver: a verified model

This project models the driver class `BMP280` of `bmp280.h`. The driver
talks to one BMP280 pressure and temperature sensor on an I2C bus. The model
covers three parts:

- **Acquisition sequencer.** CheckID checks the identification register
  (0x58). ReadCalib reads the 26-byte calibration block. ReadBusy and
  WaitReady poll the status register. Trigger writes the configuration byte
  and then the forced-mode control byte. ReadRawTemp and ReadRawPress read
  three result bytes and reassemble them into a 20-bit raw code. Acquire
  runs one conversion cycle.
- **Calibration decoder.** It turns the 26-byte block into 13
  little-endian 16-bit words. T1 and P1 are unsigned and the other eleven
  words are signed.
- **Compensation engine.** It applies the datasheet's fixed-point formulas:
  temperature in 32-bit arithmetic, in 0.1 degC, and pressure in 64-bit
  arithmetic, in 0.25 Pa. Pressure compensation reads the fine temperature
  that temperature compensation stored.

Modules, one file each:

- `FixedWidth` (`fixed_width.dfy`): the C++ integer types and their
  two's-complement narrowing. It also has truncating division, the C++ `/`
  of line 139.
- `Calibration` (`calibration.dfy`): the calibration set, the decoder of the
  block and its inverse.
- `Registers` (`registers.dfy`): the register map and the reassembly of a
  result register.
- `Compensation` (`compensation.dfy`): the two compensation formulas as
  functions.
- `Bus` (`bus.dfy`): a scripted stand-in for the I2C bus. It answers each
  transaction with the next reply of a fixed script and keeps a ghost log of
  every transaction and delay.
- `Sequencer` (`sequencer.dfy`): every bus operation as a pure function of
  the script. The function gives the returned code, the number of replies
  consumed and the operations issued.
- `Driver` (`driver.dfy`): the class `Bmp280`. Its fields are the ones the
  source overwrites. Each method is proved to return what the matching
  Sequencer function says, to leave the bus where it says and to log what it
  says.

The model follows the code where the code and the driver's documentation
disagree:

- **Temperature example.** The datasheet example gives Temperature 251
  (25.1 degC). FineTemp is 128422, and 128422 / 512 = 250.8 rounded half up
  is 251, not 250.
- **Pressure unit.** Pressure is in 0.25 Pa, as the field comment on line 52
  says: `(p + 32) >> 6` of a Q24.8 value. It is not in 1/256 Pa. The example
  gives 402613, which is 100653.25 Pa.
- **Acquire.** Lines 115 and 118 do not compile: `Trigger` is named but
  never called, and `ReadRawPree` does not exist. Acquire is modelled as the
  sequence they evidently name. Line 116 returns the `Error` field where
  WaitReady's own code is meant. The model returns WaitReady's code (see
  Findings).
- **ReadBusy.** The expression on line 86 is modelled as written, in both
  the class and WaitReady's polling. The rule its comment describes is kept
  beside it (see Findings).

## Model

| member | source | states |
|---|---|---|
| FixedWidth.I16 | bmp280.h:125 | narrowing to int16 keeps the value modulo 2^16 and is the identity on the int16 range |
| FixedWidth.I32 | bmp280.h:122-124 | int32 wrap keeps the value modulo 2^32 and is the identity on the int32 range |
| FixedWidth.I64 | bmp280.h:131-142 | int64 wrap keeps the value modulo 2^64 and is the identity on the int64 range |
| FixedWidth.U32 | bmp280.h:143 | the assignment to the uint32 Pressure keeps the value modulo 2^32 and is the identity on the uint32 range |
| FixedWidth.TDiv | bmp280.h:139 | C++ `/` truncates: quotient times divisor plus a remainder gives the dividend, and the remainder has the dividend's sign and is smaller than the divisor in magnitude |
| Calibration.Decode | bmp280.h:40-44 | the block read straight into the 13 fields: little-endian words, T1 and P1 unsigned, the rest signed; its contract is given by the round trips DecodeEncode and EncodeDecode |
| Calibration.DecodeEncode | bmp280.h:40-44 | decoding the block of any calibration set gives that set back |
| Calibration.EncodeDecode | bmp280.h:40-44 | every 26-byte block is the encoding of its decoding, so the decoder loses no byte (T1 and P1 unsigned, the rest signed, low byte first) |
| Registers.RawFromBytes | bmp280.h:101-104 | the byte swap and `>>= 4` of the zeroed little-endian field give the MSB-first 24-bit value divided by 16, within 0 .. 2^20 - 1 |
| Registers.RawRoundTrip | bmp280.h:100-112 | every 20-bit raw code is recovered from the register bytes it arrives in |
| Registers.RawExample | bmp280.h:107-111 | the bytes 7E D0 00 give 0x7ED00 |
| Compensation.CompensateTemperature | bmp280.h:121-125 | whenever Temperature fits int16 it is FineTemp / 512 rounded half up; TemperatureInRange proves that FineTemp is the datasheet formula computed without overflow |
| Compensation.FirstTermInRange | bmp280.h:122 | within the safe input range var1 does not overflow int32 and lies within +-2^19 |
| Compensation.SecondTermInRange | bmp280.h:123 | within the safe input range var2 does not overflow int32 and lies within +-2^17 |
| Compensation.TemperatureInRange | bmp280.h:121-125 | within the safe input range the int32 code computes the datasheet formula exactly, FineTemp is within +-0xA0000, and Temperature is FineTemp / 512 rounded half up and is not cut by the int16 narrowing |
| Compensation.TemperatureExample | bmp280.h:121-125 | the datasheet example (raw 519888) gives FineTemp 128422 and Temperature 251 |
| Compensation.PressureDenominator | bmp280.h:131-136 | the denominator var1 of line 139; it is 0 whenever P1 is 0, and depends on P1..P3 only (SameDenominator); 597560748 on the example |
| Compensation.PressureOffset | bmp280.h:131-134 | the offset var2; at the reference fine temperature 128000 it is exactly P4 << 35; 98104795527812 on the example |
| Compensation.PressureNumerator | bmp280.h:138-139 | the numerator ((p << 31) - var2) * 3125 with p = 1048576 - RawPress; depends on P4..P6 only (SameNumerator); 3944285864554787500 on the example (ExampleNumerator) |
| Compensation.PressureFromQuotient | bmp280.h:140-143 | the P7..P9 corrections of the quotient and the rounding to 0.25 Pa (ToQuarterPascal); depends on P7..P9 only (SameCorrections); 402613 on the example (ExampleCorrections) |
| Compensation.CompensatePressure | bmp280.h:136-137 | a zero denominator gives pressure 0, with no division |
| Compensation.PressureUndefinedWithoutP1 | bmp280.h:136-137 | P1 = 0 makes the denominator 0, so the pressure is 0 |
| Compensation.PressureIgnoresTemperatureWords | bmp280.h:129-143 | the pressure depends on the calibration only through P1..P9; T1..T3 enter only through FineTemp |
| Compensation.SamePressureTerms | bmp280.h:131-138 | the denominator and the numerator depend on P1..P6 only |
| Compensation.SameDenominator | bmp280.h:131-136 | the denominator depends on P1..P3 only |
| Compensation.SameNumerator | bmp280.h:131-139 | the numerator depends on P4..P6 only |
| Compensation.SameCorrections | bmp280.h:140-143 | the P7..P9 corrections depend on P7..P9 only |
| Compensation.ToQuarterPascal | bmp280.h:143 | `(p + 32) >> 6` is the Q24.8 pressure rounded half up to 0.25 Pa, for pressures below 2^30 Pa |
| Compensation.ExampleDenominator | bmp280.h:135-136 | the example's denominator is 597560748 |
| Compensation.ExampleOffset | bmp280.h:131-134 | the example's offset term is 98104795527812 |
| Compensation.ExampleNumerator | bmp280.h:138-139 | the example's numerator is 3944285864554787500 |
| Compensation.ExampleQuotient | bmp280.h:139 | the example's truncated quotient is 6600644165 |
| Compensation.ExampleCorrections | bmp280.h:140-143 | the P7..P9 corrections turn that quotient into 402613 |
| Compensation.PressureExample | bmp280.h:129-143 | the datasheet example (raw 415148, FineTemp 128422) gives 402613 quarter pascals (100653.25 Pa) |
| Sequencer.IdCode | bmp280.h:74-77 | the bus error, else 0 exactly when the read succeeded and the ID byte is 0x58 |
| Sequencer.BusyCode | bmp280.h:83-86 | the bus error, else 1 exactly when status bit 3 and bit 0 are both clear, else 0 (the expression as written) |
| Sequencer.BusyCodeIntended | bmp280.h:83-86 | the busy rule as commented: the bus error, else 1 exactly when bit 3 (measuring) or bit 0 (image update) is set, else 0 |
| Sequencer.BusyCodeInverted | bmp280.h:86 | on a successful read the expression as written gives the opposite of the commented rule |
| Sequencer.BusyCodeReadyWhileMeasuring | bmp280.h:86 | status 0x08 (conversion running) reads as ready under the expression as written |
| Sequencer.TriggerRun | bmp280.h:96-98 | Trigger succeeds exactly when both writes succeed; the CONFIG write of 0x00 comes first, and the CTRL write of 0x55 is the second transaction, issued exactly when the CONFIG write succeeded; the code is the failed CONFIG write's code, else the CTRL write's |
| Sequencer.PollRun | bmp280.h:90-94 | the polling loop with Timeout polls; specified by PollRunBounded, PollRunAllBusy, PollRunFirstDecisive, PollRunTimeoutIff and PollRunLast |
| Sequencer.PollsUntil | bmp280.h:90-94 | the polling loop by the position of its last allowed poll; one step of it is PollRunUnfold |
| Sequencer.AcquireRun | bmp280.h:114-118 | Acquire as intended, the four steps ending at the first non-zero code; specified by AcquireSteps, AcquireShortCircuit, AcquireSucceeds and AcquireReportsTimeout |
| Sequencer.AcquireAsWritten | bmp280.h:114-118 | Acquire with line 116 as written; AsWrittenDiffersOnTimeout and AsWrittenMasksTimeout give how it differs from AcquireRun |
| Sequencer.RawOf | bmp280.h:100-112 | a result read leaves a raw code within 0 .. 2^20 - 1, and 0 after a bus error |
| Sequencer.PollRunUnfold | bmp280.h:90-93 | one poll: busy sleeps and polls again with one fewer poll left; any other code ends the loop |
| Sequencer.PollRunBounded | bmp280.h:88-94 | WaitReady issues at most Timeout status reads, one per reply used, and reads no other register |
| Sequencer.PollRunAllBusy | bmp280.h:88-94 | if every poll reports busy, WaitReady returns 0xFF after exactly Timeout polls; with Timeout 0 it returns at once without polling |
| Sequencer.PollRunFirstDecisive | bmp280.h:91-92 | the first poll that is not busy ends the loop and returns its code unchanged (0 ready, else the bus error) |
| Sequencer.PollRunTimeoutIff | bmp280.h:88-94 | unless the bus itself answers 0xFF, WaitReady returns 0xFF exactly when all Timeout polls reported busy |
| Sequencer.PollRunLast | bmp280.h:90-94 | the last poll decides: it is the first one not busy, or every poll was busy and 0xFF is returned |
| Sequencer.WaitReadyDecided | bmp280.h:88-94 | the initial delay, n busy polls and the deciding status read are the whole trace, and Error holds that read's bus code |
| Sequencer.WaitReadyTimedOut | bmp280.h:88-94 | on a timeout the trace is the delay and Timeout busy polls, and Error holds the last poll's bus code |
| Sequencer.TriggerReadsNothing | bmp280.h:96-98 | Trigger reads no register |
| Sequencer.WaitReadyReadsStatusOnly | bmp280.h:88-94 | WaitReady reads no register but the status register |
| Sequencer.ReadBothReads | bmp280.h:117-118 | the temperature register is read once, and the pressure register once exactly when that read succeeded |
| Sequencer.AfterTriggerReads | bmp280.h:116-118 | the result registers are read only when WaitReady returned 0 |
| Sequencer.AcquireShortCircuit | bmp280.h:114-118 | a failing Trigger is the whole cycle; the temperature register is read exactly when Trigger and WaitReady returned 0, and the pressure register exactly when the temperature read succeeded too |
| Sequencer.AcquireSucceeds | bmp280.h:114-118 | Acquire returns 0 exactly when all four steps do; its last two transactions are then the temperature and the pressure read |
| Sequencer.AcquireSteps | bmp280.h:114-118 | Acquire is the four steps, each started where the previous one stopped, ending at the first non-zero code |
| Sequencer.AcquireReportsTimeout | bmp280.h:114-118 | when every status poll returns ReadBusy's busy code 1 (Status & 0x09 == 0 under line 86 as written), Acquire returns 0xFF without reading the result registers |
| Sequencer.AcquireTakesRunningAsDone | bmp280.h:83-118 | with line 86 as written, a conversion still running (status 0x08) ends the wait at the first poll, and Acquire reads both result registers and returns 0 |
| Sequencer.AsWrittenDiffersOnTimeout | bmp280.h:116 | Acquire with line 116 as written differs from the intended one only on a timeout, which it reports as 0 or 1 |
| Sequencer.AsWrittenMasksTimeout | bmp280.h:116 | a concrete script where the intended Acquire returns 0xFF and the one as written returns 0 |
| Driver.Bmp280.CheckID | bmp280.h:74-77 | returns the bus error, else 0 exactly when the ID byte is 0x58; one read of REG_ID; Error holds the bus code |
| Driver.Bmp280.ReadCalib | bmp280.h:79-81 | one 26-byte read at 0x88; on success the calibration set is the decoded block, on failure it is unchanged; returns and stores the bus code |
| Driver.Bmp280.ReadBusy | bmp280.h:83-86 | returns the bus error, else 1 exactly when `(Status & 0x09) == 0`, else 0 |
| Driver.Bmp280.WaitReady | bmp280.h:88-94 | returns the polling outcome of the Sequencer, consumes its replies, logs the delay and the polls, and leaves the last status read's bus code in Error |
| Driver.Bmp280.Trigger | bmp280.h:96-98 | writes CONFIG 0x00, then CTRL 0x55 only if the first write succeeded; returns and stores the code of the last write issued |
| Driver.Bmp280.ReadRawPress | bmp280.h:100-105 | RawPress is the reassembled 20-bit code on success and 0 after a bus error; returns and stores the bus code |
| Driver.Bmp280.ReadRawTemp | bmp280.h:107-112 | RawTemp is the reassembled 20-bit code on success and 0 after a bus error; returns and stores the bus code |
| Driver.Bmp280.Acquire | bmp280.h:114-118 | behaves as the intended Acquire of the Sequencer in code, replies used and log; Error holds the returned code, except after a failed WaitReady, where it holds the last status read's bus code; the raw fields are untouched when Trigger or WaitReady fails; a failed temperature read leaves RawTemp 0 and RawPress untouched, a failed pressure read leaves RawTemp the read code and RawPress 0; on success they hold the codes of the last two replies |
| Driver.Bmp280.CalcTemperature | bmp280.h:121-125 | stores the compensated FineTemp and Temperature, after which FineTemp belongs to the current RawTemp |
| Driver.Bmp280.CalcPressure | bmp280.h:129-143 | stores the pressure compensated from RawPress and the stored FineTemp; if CalcTemperature ran on the current RawTemp, that is the sample's pressure |

## Left out

- The I2C primitives `I2C_Read` and `I2C_Write` are not part of this model. The scripted bus stands in for them: each transaction gets the next scripted reply, and a transaction past the end of the script gets bus error 2.
- A failed read is modelled as delivering no bytes, so a failed ReadCalib leaves the calibration set unchanged. The real primitive might overwrite part of the buffer.
- `vTaskDelay` appears only as a `Pause` entry in the ghost log. Time, the RTOS scheduler and concurrent access to the object are not modelled.
- The `NO_RTOS` build switch is not modelled. The model contains both halves: the bus operations and the datasheet coefficients of `DefaultCalib` (lines 57-70), the latter as the constant `Calibration.DefaultCalib`.
- The includes `nmea.h`, `format.h` and `i2c.h` are not part of this model, nor are the unused constants `REG_RESET` and the per-byte register aliases (lines 19, 25-27, 30-32).
- Signed overflow, which is undefined behaviour in C++, is modelled as two's-complement wrap at every operation.
- Compensation.CompensatePressure: no general no-overflow bound is proved for the 64-bit pressure formula. Overflow freedom is shown only on the datasheet example, step by step. A general bound would need ranges for P1..P9 that the source does not state.
- Compensation.TemperatureInRange: the no-overflow statement is proved only where RawTemp >> 3 lies within 2^15 of 2 * T1, not for every int32 input. With the datasheet calibration that is roughly -83 .. +81.8 degC, so 82-85 degC of the sensor's -40 .. +85 degC operating range is not covered.
- Sequencer.PollRunTimeoutIff: a bus that itself answers error code 0xFF cannot be told apart from a timeout, and one answering code 1 cannot be told apart from "busy". The lemma excludes the first case, and the busy rule treats code 1 as busy, as the code does.

## Findings

| source | as written | input that shows it | evidently intended | confidence | as-written member | corrected member |
|---|---|---|---|---|---|---|
| bmp280.h:86 | `return (Status&0x09)==0;` returns 1 (busy) when both status bits are clear | status byte 0x08 (conversion running) gives 0 (ready); status 0x00 (idle) gives 1 (busy), so WaitReady on a finished conversion times out, and Acquire on a running one reads the result registers at once and reports success (Sequencer.AcquireTakesRunningAsDone) | 1 when either bit is set, as the comment "1 = busy, 0 => ready" says | not executed | Sequencer.BusyCodeReadyWhileMeasuring | Sequencer.BusyCodeIntended |
| bmp280.h:116 | `if(WaitReady()) return Error;` returns the Error field, which holds the last status read's bus code (0 or 1), not WaitReady's 0xFF | Trigger succeeds and 20 polls find the sensor busy: WaitReady returns 0xFF but Acquire returns 0 (success) | return WaitReady's own code | not executed | Sequencer.AsWrittenMasksTimeout | Sequencer.AcquireRun |

For the first finding, `Sequencer.BusyCodeInverted` proves that the as-written rule is the exact complement of the intended one on every successful read. `Sequencer.AcquireTakesRunningAsDone` shows the consequence for a whole cycle: registers that still hold the previous result are read and reported as success. The driver class keeps the rule as written, since that is what the shipped code does. The WaitReady lemmas therefore describe the shipped polling loop.

For the second finding, `Sequencer.AsWrittenDiffersOnTimeout` proves that a timeout is the only case where the as-written and intended Acquire differ. `Driver.Bmp280.Acquire` implements the intended one, `Sequencer.AcquireRun`, with the properties proved by `Sequencer.AcquireShortCircuit`, `Sequencer.AcquireSucceeds` and `Sequencer.AcquireReportsTimeout`.
