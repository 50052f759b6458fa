/** The driver object: one sensor on a bus, its calibration set and the
    fields every operation overwrites (the last bus error, the raw codes and
    the compensated results). Each bus operation is proved to do what the
    matching function of module Sequencer says; the compensation methods
    store what module Compensation computes. */
module Driver {
  import opened FixedWidth
  import opened Registers
  import opened Calibration
  import opened Compensation
  import opened Bus
  import opened Sequencer

  // Proof hints: the sequence associativity steps that line the bus log up
  // with the traces of module Sequencer.

  lemma WaitReadyLog(before: seq<Op>, log0: seq<Op>, polls: seq<Op>, last: seq<Op>, wait: nat)
    requires log0 == before + [Pause(wait)]
    ensures log0 + polls + last == before + ([Pause(wait)] + (polls + last))
  {
  }

  lemma AppendTwo(log: seq<Op>, a: seq<Op>, b: seq<Op>)
    ensures log + a + b == log + (a + b)
  {
  }

  lemma AppendThree(log: seq<Op>, a: seq<Op>, b: seq<Op>, c: seq<Op>)
    ensures log + a + b + c == log + (a + (b + c))
  {
  }

  lemma AppendFour(log: seq<Op>, a: seq<Op>, b: seq<Op>, c: seq<Op>, d: seq<Op>)
    ensures log + a + b + c + d == log + (a + (b + (c + d)))
  {
  }

  class Bmp280 {
    const bus: ScriptedBus

    var Calib: CalibrationSet  // the 13 calibration words
    var Error: uint8           // bus error of the last transaction (0 = none)
    var RawTemp: int32         // raw temperature, to be compensated
    var FineTemp: int32        // fine temperature, for pressure compensation
    var Temperature: int16     // [0.1 degC]
    var RawPress: int32        // raw pressure, to be compensated
    var Pressure: uint32       // [0.25 Pa]

    constructor (bus: ScriptedBus)
      ensures this.bus == bus
      ensures Calib == CalibrationSet(0, 0, 0, 0, 0, 0, 0, 0, 0, 0, 0, 0, 0)
      ensures Error == 0 && RawTemp == 0 && FineTemp == 0 && Temperature == 0
      ensures RawPress == 0 && Pressure == 0
    {
      this.bus := bus;
      Calib := CalibrationSet(0, 0, 0, 0, 0, 0, 0, 0, 0, 0, 0, 0, 0);
      Error, RawTemp, FineTemp, Temperature, RawPress, Pressure := 0, 0, 0, 0, 0, 0;
    }

    /** FineTemp is the one temperature compensation derives from RawTemp,
        the condition under which CalcPressure's result belongs to the
        current sample. */
    ghost predicate FineTempCurrent()
      reads this
    {
      FineTemp == CompensateTemperature(RawTemp, Calib).fine
    }

    /** Reads the ID register: the bus error, else 0 exactly when it holds
        the part's ID 0x58. */
    method CheckID() returns (r: uint8)
      modifies this`Error, bus
      ensures var reply := At(bus.Script, old(bus.Pos));
        && r == IdCode(reply) && Error == reply.code
        && (reply.code != 0 ==> r == reply.code)
        && (r == 0 <==> reply.code == 0 && FirstByte(reply) == CHIP_ID)
      ensures bus.Pos == old(bus.Pos) + 1
      ensures bus.Log == old(bus.Log) + CheckIdRun(bus.Script, old(bus.Pos)).trace
    {
      FirstBytePayload(At(bus.Script, bus.Pos));
      var code, data := bus.Read(ADDR, REG_ID, 1);
      Error := code;
      if Error != 0 {
        return Error;
      }
      r := if data[0] != CHIP_ID then 1 else 0;
    }

    /** Reads the 26-byte calibration block straight into the calibration
        words; a failed read leaves them as they were. */
    method ReadCalib() returns (r: uint8)
      modifies this`Error, this`Calib, bus
      ensures var reply := At(bus.Script, old(bus.Pos));
        && r == reply.code && Error == r
        && Calib == if r == 0 then Decode(Payload(reply, CALIB_SIZE)) else old(Calib)
      ensures bus.Pos == old(bus.Pos) + 1
      ensures bus.Log == old(bus.Log) + ReadCalibRun(bus.Script, old(bus.Pos)).trace
    {
      var code, data := bus.Read(ADDR, REG_CALIB, CALIB_SIZE);
      Error := code;
      if Error == 0 {
        Calib := Decode(data);
      }
      r := Error;
    }

    /** Reads the status register: the bus error, else the expression as
        written, (Status & 0x09) == 0. */
    method ReadBusy() returns (r: uint8)
      modifies this`Error, bus
      ensures var reply := At(bus.Script, old(bus.Pos));
        && r == BusyCode(reply) && Error == reply.code
        && (reply.code != 0 ==> r == reply.code)
        && (reply.code == 0 ==> (r == 1 <==> (FirstByte(reply) as bv8) & 0x09 == 0) && r <= 1)
      ensures bus.Pos == old(bus.Pos) + 1
      ensures bus.Log == old(bus.Log) + BusyRun(bus.Script, old(bus.Pos)).trace
    {
      FirstBytePayload(At(bus.Script, bus.Pos));
      var code, data := bus.Read(ADDR, REG_STATUS, 1);
      Error := code;
      if Error != 0 {
        return Error;
      }
      r := if (data[0] as bv8) & STATUS_MASK == 0 then 1 else 0;
    }

    /** Sleeps `Wait` ms, then polls ReadBusy at most `Timeout` times, 1 ms
        apart: the first bus error or ready ends the wait with that code,
        and 0xFF reports that every poll returned ReadBusy's busy code 1
        (Status & 0x09 == 0 under the expression as written). */
    method WaitReady(Timeout: uint8, Wait: uint8) returns (r: uint8)
      modifies this`Error, bus
      ensures var run := WaitReadyRun(bus.Script, old(bus.Pos), Timeout, Wait);
        && r == run.code
        && bus.Pos == old(bus.Pos) + run.used
        && bus.Log == old(bus.Log) + run.trace
      ensures Error == ErrorAfterWait(bus.Script, old(bus.Pos), Timeout, old(Error))
    {
      bus.Sleep(Wait);
      ghost var s, start, log0 := bus.Script, bus.Pos, bus.Log;
      ghost var n: nat := 0;
      assert log0 == old(bus.Log) + [Pause(Wait)];
      var timeout := Timeout;
      while timeout > 0
        invariant n + timeout == Timeout
        invariant bus.Pos == start + n
        invariant bus.Log == log0 + BusyPolls(n)
        invariant forall j :: start <= j < start + n ==> BusyCode(At(s, j)) == 1
        invariant Error == if n == 0 then old(Error) else At(s, start + n - 1).code
        decreases timeout
      {
        var err := ReadBusy();
        if err > 1 {
          WaitReadyDecided(s, start, Timeout, Wait, n, old(Error));
          WaitReadyLog(old(bus.Log), log0, BusyPolls(n), [RegRead(ADDR, REG_STATUS, 1)], Wait);
          return err;
        }
        if err == 0 {
          WaitReadyDecided(s, start, Timeout, Wait, n, old(Error));
          WaitReadyLog(old(bus.Log), log0, BusyPolls(n), [RegRead(ADDR, REG_STATUS, 1)], Wait);
          return 0;
        }
        bus.Sleep(1);
        n := n + 1;
        timeout := timeout - 1;
      }
      WaitReadyTimedOut(s, start, Timeout, Wait, old(Error));
      AppendTwo(old(bus.Log), [Pause(Wait)], BusyPolls(n));
      return 0xFF;
    }

    /** Writes the configuration byte, then, only if that succeeded, the
        control byte that starts a forced conversion. */
    method Trigger() returns (r: uint8)
      modifies this`Error, bus
      ensures var run := TriggerRun(bus.Script, old(bus.Pos));
        && r == run.code && Error == r
        && bus.Pos == old(bus.Pos) + run.used
        && bus.Log == old(bus.Log) + run.trace
      ensures At(bus.Script, old(bus.Pos)).code != 0 ==>
        r == At(bus.Script, old(bus.Pos)).code
        && bus.Log == old(bus.Log) + [RegWrite(ADDR, REG_CONFIG, CONFIG_VALUE)]
    {
      Error := bus.Write(ADDR, REG_CONFIG, CONFIG_VALUE);
      if Error != 0 {
        return Error;
      }
      Error := bus.Write(ADDR, REG_CTRL, CTRL_VALUE);
      r := Error;
    }

    /** Zeroes RawPress, reads the three pressure result bytes into it and
        reassembles them; after a bus error RawPress stays 0. */
    method ReadRawPress() returns (r: uint8)
      modifies this`Error, this`RawPress, bus
      ensures var reply := At(bus.Script, old(bus.Pos));
        && r == reply.code && Error == r
        && RawPress == RawOf(reply)
        && 0 <= RawPress < 0x10_0000
      ensures bus.Pos == old(bus.Pos) + 1
      ensures bus.Log == old(bus.Log) + ReadRawRun(bus.Script, old(bus.Pos), REG_PRESS).trace
    {
      RawPress := 0;
      var code, data := bus.Read(ADDR, REG_PRESS, 3);
      Error := code;
      if Error != 0 {
        return Error;
      }
      RawPress := RawFromBytes(data[0], data[1], data[2]);
      return 0;
    }

    /** Zeroes RawTemp, reads the three temperature result bytes into it and
        reassembles them; after a bus error RawTemp stays 0. */
    method ReadRawTemp() returns (r: uint8)
      modifies this`Error, this`RawTemp, bus
      ensures var reply := At(bus.Script, old(bus.Pos));
        && r == reply.code && Error == r
        && RawTemp == RawOf(reply)
        && 0 <= RawTemp < 0x10_0000
      ensures bus.Pos == old(bus.Pos) + 1
      ensures bus.Log == old(bus.Log) + ReadRawRun(bus.Script, old(bus.Pos), REG_TEMP).trace
    {
      RawTemp := 0;
      var code, data := bus.Read(ADDR, REG_TEMP, 3);
      Error := code;
      if Error != 0 {
        return Error;
      }
      RawTemp := RawFromBytes(data[0], data[1], data[2]);
      return 0;
    }

    /** One conversion cycle: Trigger, WaitReady with its defaults,
        ReadRawTemp, ReadRawPress, returning the first non-zero code. Error
        holds that code, except after a failed WaitReady, where it holds the
        last status read's bus code. A raw field is left alone unless its
        read is reached, and is then that read's code, 0 after a failure. */
    method Acquire() returns (r: uint8)
      modifies this`Error, this`RawTemp, this`RawPress, bus
      ensures var run := AcquireRun(bus.Script, old(bus.Pos), TIMEOUT, WAIT);
        && r == run.code
        && bus.Pos == old(bus.Pos) + run.used
        && bus.Log == old(bus.Log) + run.trace
      ensures var t := TriggerRun(bus.Script, old(bus.Pos));
        var w := WaitReadyRun(bus.Script, old(bus.Pos) + t.used, TIMEOUT, WAIT);
        (t.code != 0 || w.code != 0) ==> RawTemp == old(RawTemp) && RawPress == old(RawPress)
      ensures r == 0 ==>
        RawTemp == RawOf(At(bus.Script, bus.Pos - 2)) && RawPress == RawOf(At(bus.Script, bus.Pos - 1))
      ensures var t := TriggerRun(bus.Script, old(bus.Pos));
        var w := WaitReadyRun(bus.Script, old(bus.Pos) + t.used, TIMEOUT, WAIT);
        Error == if t.code == 0 && w.code != 0
                 then ErrorAfterWait(bus.Script, old(bus.Pos) + t.used, TIMEOUT, 0) else r
      ensures var t := TriggerRun(bus.Script, old(bus.Pos));
        var w := WaitReadyRun(bus.Script, old(bus.Pos) + t.used, TIMEOUT, WAIT);
        var j := old(bus.Pos) + t.used + w.used;
        && (t.code == 0 && w.code == 0 && At(bus.Script, j).code != 0 ==>
              RawTemp == 0 && RawPress == old(RawPress))
        && (t.code == 0 && w.code == 0 && At(bus.Script, j).code == 0 && At(bus.Script, j + 1).code != 0 ==>
              RawTemp == RawOf(At(bus.Script, j)) && RawPress == 0)
    {
      ghost var s, i, log := bus.Script, bus.Pos, bus.Log;
      AcquireSteps(s, i, TIMEOUT, WAIT);
      ghost var t := TriggerRun(s, i);
      r := Trigger();
      if r != 0 {
        assert AcquireRun(s, i, TIMEOUT, WAIT) == t;
        return;
      }
      ghost var w := WaitReadyRun(s, i + t.used, TIMEOUT, WAIT);
      r := WaitReady(TIMEOUT as uint8, WAIT as uint8);
      if r != 0 {
        AppendTwo(log, t.trace, w.trace);
        assert AcquireRun(s, i, TIMEOUT, WAIT) == Run(w.code, t.used + w.used, t.trace + w.trace);
        return;
      }
      ghost var rt := ReadRawRun(s, i + t.used + w.used, REG_TEMP);
      r := ReadRawTemp();
      if r != 0 {
        AppendThree(log, t.trace, w.trace, rt.trace);
        assert AcquireRun(s, i, TIMEOUT, WAIT)
            == Run(rt.code, t.used + w.used + 1, t.trace + (w.trace + rt.trace));
        return;
      }
      ghost var rp := ReadRawRun(s, i + t.used + w.used + 1, REG_PRESS);
      r := ReadRawPress();
      AppendFour(log, t.trace, w.trace, rt.trace, rp.trace);
      assert AcquireRun(s, i, TIMEOUT, WAIT)
          == Run(rp.code, t.used + w.used + 2, t.trace + (w.trace + (rt.trace + rp.trace)));
    }

    /** Temperature compensation of the current raw temperature; stores the
        fine temperature that pressure compensation needs. */
    method CalcTemperature()
      modifies this`FineTemp, this`Temperature
      ensures var t := CompensateTemperature(RawTemp, Calib);
        FineTemp == t.fine && Temperature == t.temperature
      ensures FineTempCurrent()
    {
      var t := CompensateTemperature(RawTemp, Calib);
      FineTemp := t.fine;
      Temperature := t.temperature;
    }

    /** Pressure compensation from RawPress and the stored FineTemp; the
        result is the sample's pressure when CalcTemperature ran on the
        current RawTemp first. */
    method CalcPressure()
      modifies this`Pressure
      ensures Pressure == CompensatePressure(RawPress, FineTemp, Calib)
      ensures FineTempCurrent() ==> Pressure == Compensate(RawTemp, RawPress, Calib).pressure
    {
      Pressure := CompensatePressure(RawPress, FineTemp, Calib);
    }
  }
}
