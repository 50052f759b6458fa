/** The compensation engine: the sensor datasheet's fixed-point formulas that
    turn raw ADC codes and the calibration set into a temperature (0.1 degC)
    and a pressure (0.25 Pa), 32-bit arithmetic for temperature and 64-bit
    arithmetic for pressure. Every C++ operation is written with the wrap to
    its width (I32/I64) and every shift as the power of two it stands for;
    `>> k` is floor division, `/` of bmp280.h:139 is truncating division. */
module Compensation {
  import opened FixedWidth
  import opened Calibration

  /** What temperature compensation produces: the fine temperature, kept for
      pressure compensation, and the temperature in 0.1 degC. */
  datatype TempReading = TempReading(fine: int32, temperature: int16)

  /** Both results of one sample. */
  datatype Reading = Reading(temp: TempReading, pressure: uint32)

  /** CalcTemperature with int32 arithmetic, as the firmware computes it.
      Whenever the 0.1 degC value fits int16, it is the fine temperature / 512
      rounded half up. */
  function CompensateTemperature(rawTemp: int32, c: CalibrationSet): (t: TempReading)
    ensures -0x100_0000 <= t.fine + 256 < 0x100_0000 ==>
      t.temperature * 512 - 256 <= t.fine < t.temperature * 512 + 256
  {
    var d1 := I32(rawTemp / 8 - I32(c.T1 * 2));          // (RawTemp>>3) - (T1<<1)
    var var1 := I32(d1 * c.T2) / 0x800;                  // * T2 >> 11
    var d2 := I32(rawTemp / 16 - c.T1);                  // (RawTemp>>4) - T1
    var var2 := I32(I32(d2 * d2) / 0x1000 * c.T3) / 0x4000;
    var fine := I32(var1 + var2);
    TempReading(fine, I16(I32(fine + 256) / 0x200))      // (var1+var2+256) >> 9
  }

  /** bmp280.h:131-136: the denominator of the pressure formula, which depends
      on the fine temperature and on P1, P2, P3 only. */
  function PressureDenominator(fine: int32, c: CalibrationSet): (den: int64)
    ensures c.P1 == 0 ==> den == 0
  {
    var v := I64(fine - 128000);
    var w := I64(I64(I64(v * v) * c.P3) / 0x100 + I64(I64(v * c.P2) * 0x1000));
    I64(I64(0x8000_0000_0000 + w) * c.P1) / 0x2_0000_0000
  }

  /** bmp280.h:131-134: the offset term, from the fine temperature, P4, P5, P6.
      At the reference fine temperature 128000 only P4 << 35 remains. */
  function PressureOffset(fine: int32, c: CalibrationSet): (off: int64)
    ensures fine == 128000 ==> off == c.P4 * 0x8_0000_0000
  {
    var v := I64(fine - 128000);
    assert fine == 128000 ==> v == 0 && I64(v * v) == 0 && I64(v * c.P5) == 0;
    var a := I64(I64(v * v) * c.P6);
    var b := I64(a + I64(I64(v * c.P5) * 0x2_0000));
    I64(b + I64(c.P4 * 0x8_0000_0000))
  }

  /** bmp280.h:138-139: the numerator, from the raw pressure and the offset. */
  function PressureNumerator(rawPress: int32, fine: int32, c: CalibrationSet): int64
  {
    var p0 := I32(0x10_0000 - rawPress);                             // 1048576 - RawPress
    I64(I64(I64(p0 * 0x8000_0000) - PressureOffset(fine, c)) * 3125)
  }

  /** bmp280.h:140-143: the corrections with P7, P8, P9 applied to the quotient,
      and the scaling of the Q24.8 result to 0.25 Pa. */
  function PressureFromQuotient(p1: int64, c: CalibrationSet): uint32
  {
    var v1 := I64(I64(c.P9 * (p1 / 0x2000)) * (p1 / 0x2000)) / 0x200_0000;
    var v2 := I64(c.P8 * p1) / 0x8_0000;
    var q := I64(I64(I64(p1 + v1) + v2) / 0x100 + I64(c.P7 * 16)); // Q24.8 Pa
    ToQuarterPascal(q)
  }

  /** bmp280.h:143: (p + 32) >> 6 narrowed to uint32, the Q24.8 pressure `q`
      rounded half up to 0.25 Pa for every pressure up to 2^30 Pa. */
  function ToQuarterPascal(q: int64): (p: uint32)
    ensures -32 <= q < 0x40_0000_0000 - 32 ==> p * 64 - 32 <= q < p * 64 + 32
  {
    U32(I64(q + 32) / 0x40)
  }

  /** CalcPressure with int64 arithmetic: takes the fine temperature that
      temperature compensation produced (it never looks at the raw
      temperature or at T1..T3) and returns the pressure in 0.25 Pa. When the
      denominator is zero it returns 0 without dividing. */
  function CompensatePressure(rawPress: int32, fine: int32, c: CalibrationSet): (p: uint32)
    ensures PressureDenominator(fine, c) == 0 ==> p == 0
  {
    var den := PressureDenominator(fine, c);
    if den == 0 then 0
    else PressureFromQuotient(I64(TDiv(PressureNumerator(rawPress, fine, c), den)), c)
  }

  /** P1 = 0 makes the denominator 0: the pressure is reported as 0 and no
      division happens. */
  lemma PressureUndefinedWithoutP1(rawPress: int32, fine: int32, c: CalibrationSet)
    requires c.P1 == 0
    ensures PressureDenominator(fine, c) == 0
    ensures CompensatePressure(rawPress, fine, c) == 0
  {
  }

  /** Pressure compensation depends on the temperature only through the fine
      temperature: T1, T2, T3 (and the reserved word) play no part. */
  lemma PressureIgnoresTemperatureWords(rawPress: int32, fine: int32, c: CalibrationSet, d: CalibrationSet)
    requires c.P1 == d.P1 && c.P2 == d.P2 && c.P3 == d.P3 && c.P4 == d.P4 && c.P5 == d.P5
    requires c.P6 == d.P6 && c.P7 == d.P7 && c.P8 == d.P8 && c.P9 == d.P9
    ensures CompensatePressure(rawPress, fine, c) == CompensatePressure(rawPress, fine, d)
  {
    SamePressureTerms(rawPress, fine, c, d);
    var den := PressureDenominator(fine, c);
    if den != 0 {
      SameCorrections(I64(TDiv(PressureNumerator(rawPress, fine, c), den)), c, d);
    }
  }

  lemma SamePressureTerms(rawPress: int32, fine: int32, c: CalibrationSet, d: CalibrationSet)
    requires c.P1 == d.P1 && c.P2 == d.P2 && c.P3 == d.P3 && c.P4 == d.P4 && c.P5 == d.P5
    requires c.P6 == d.P6
    ensures PressureDenominator(fine, c) == PressureDenominator(fine, d)
    ensures PressureNumerator(rawPress, fine, c) == PressureNumerator(rawPress, fine, d)
  {
    SameDenominator(fine, c, d);
    SameNumerator(rawPress, fine, c, d);
  }

  /** The denominator depends on P1, P2, P3 only. */
  lemma SameDenominator(fine: int32, c: CalibrationSet, d: CalibrationSet)
    requires c.P1 == d.P1 && c.P2 == d.P2 && c.P3 == d.P3
    ensures PressureDenominator(fine, c) == PressureDenominator(fine, d)
  {
  }

  /** The numerator depends on P4, P5, P6 only. */
  lemma SameNumerator(rawPress: int32, fine: int32, c: CalibrationSet, d: CalibrationSet)
    requires c.P4 == d.P4 && c.P5 == d.P5 && c.P6 == d.P6
    ensures PressureNumerator(rawPress, fine, c) == PressureNumerator(rawPress, fine, d)
  {
    assert PressureOffset(fine, c) == PressureOffset(fine, d);
  }

  lemma SameCorrections(p1: int64, c: CalibrationSet, d: CalibrationSet)
    requires c.P7 == d.P7 && c.P8 == d.P8 && c.P9 == d.P9
    ensures PressureFromQuotient(p1, c) == PressureFromQuotient(p1, d)
  {
  }

  /** One sample: temperature first, then pressure from its fine temperature. */
  function Compensate(rawTemp: int32, rawPress: int32, c: CalibrationSet): Reading
  {
    var t := CompensateTemperature(rawTemp, c);
    Reading(t, CompensatePressure(rawPress, t.fine, c))
  }

  /** The range in which the 32-bit temperature formula cannot overflow: the
      raw reading (>> 3) lies within 2^15 counts of the calibration point
      2 * T1, which with typical T2 covers about +-80 degC around it. */
  predicate TempInputsInRange(rawTemp: int, c: CalibrationSet)
  {
    -0x8000 < rawTemp / 8 - 2 * c.T1 < 0x8000
  }

  /** The datasheet's temperature formula over unbounded integers. */
  function FineTempFormula(rawTemp: int, c: CalibrationSet): int
  {
    var d2 := rawTemp / 16 - c.T1;
    ((rawTemp / 8 - 2 * c.T1) * c.T2) / 0x800 + ((d2 * d2) / 0x1000 * c.T3) / 0x4000
  }

  lemma HalfOfEighth(x: int, t: int)
    ensures x / 16 - t == (x / 8 - 2 * t) / 2
  {
    DivModUnique(x, 16, (x / 8) / 2, x % 8 + 8 * ((x / 8) % 2));
    DivModUnique(x / 8 - 2 * t, 2, (x / 8) / 2 - t, (x / 8) % 2);
  }

  /** The first term of the temperature formula, (d1 * T2) >> 11, fits. */
  lemma FirstTermInRange(rawTemp: int32, c: CalibrationSet)
    requires TempInputsInRange(rawTemp, c)
    ensures var d1 := rawTemp / 8 - 2 * c.T1;
      && I32(rawTemp / 8 - I32(c.T1 * 2)) == d1
      && I32(d1 * c.T2) == d1 * c.T2
      && -0x8_0000 <= (d1 * c.T2) / 0x800 <= 0x8_0000
  {
    var d1 := rawTemp / 8 - 2 * c.T1;
    if d1 >= 0 {
      MulRange(d1, 0x7FFF, c.T2, -0x8000, 0x7FFF);
    } else {
      MulRange(-d1, 0x7FFF, c.T2, -0x8000, 0x7FFF);
      assert d1 * c.T2 == -((-d1) * c.T2);
    }
  }

  /** The second term, ((d2 * d2 >> 12) * T3) >> 14, fits. */
  lemma SecondTermInRange(rawTemp: int32, c: CalibrationSet)
    requires TempInputsInRange(rawTemp, c)
    ensures var d2 := rawTemp / 16 - c.T1;
      && I32(rawTemp / 16 - c.T1) == d2
      && I32(d2 * d2) == d2 * d2
      && I32((d2 * d2) / 0x1000 * c.T3) == (d2 * d2) / 0x1000 * c.T3
      && -0x2_0000 <= ((d2 * d2) / 0x1000 * c.T3) / 0x4000 <= 0x2_0000
  {
    var d2 := rawTemp / 16 - c.T1;
    HalfOfEighth(rawTemp, c.T1);
    assert -0x4000 <= d2 < 0x4000;
    if d2 >= 0 {
      MulRange(d2, 0x4000, d2, -0x4000, 0x4000);
    } else {
      MulRange(-d2, 0x4000, -d2, -0x4000, 0x4000);
      assert d2 * d2 == (-d2) * (-d2);
    }
    var sq := (d2 * d2) / 0x1000;
    assert 0 <= sq <= 0x1_0000;
    MulRange(sq, 0x1_0000, c.T3, -0x8000, 0x7FFF);
  }

  /** Within TempInputsInRange no int32 intermediate overflows: the firmware
      computes the datasheet formula exactly, the fine temperature stays
      within +-0xA0000, and Temperature is FineTemp / 512 rounded half up,
      without being cut by the narrowing to int16. */
  lemma TemperatureInRange(rawTemp: int32, c: CalibrationSet)
    requires TempInputsInRange(rawTemp, c)
    ensures var t := CompensateTemperature(rawTemp, c);
      && t.fine == FineTempFormula(rawTemp, c)
      && -0xA_0000 <= t.fine <= 0xA_0000
      && t.temperature * 512 - 256 <= t.fine < t.temperature * 512 + 256
  {
    FirstTermInRange(rawTemp, c);
    SecondTermInRange(rawTemp, c);
  }

  /** The datasheet example: raw temperature 519888 gives fine temperature
      128422 and 251 (25.1 degC, FineTemp / 512 = 250.8 rounded half up). */
  lemma TemperatureExample()
    ensures CompensateTemperature(519888, DefaultCalib) == TempReading(128422, 251)
  {
    var c := DefaultCalib;
    assert I32(519888 / 8 - I32(c.T1 * 2)) == 9978;
    assert I32(9978 * c.T2) / 0x800 == 128793;
    assert I32(519888 / 16 - c.T1) == 4989;
    assert I32(I32(4989 * 4989) / 0x1000 * c.T3) / 0x4000 == -371;
  }

  lemma ExampleDenominator()
    ensures PressureDenominator(128422, DefaultCalib) == 597560748
  {
    var c := DefaultCalib;
    assert I64(I64(I64(422 * 422) * c.P3) / 0x100 + I64(I64(422 * c.P2) * 0x1000)) == -18467047103;
  }

  lemma ExampleOffset()
    ensures PressureOffset(128422, DefaultCalib) == 98104795527812
  {
    var c := DefaultCalib;
    assert I64(128422 - 128000) == 422;
    assert I64(I64(422 * 422) * c.P6) == -1246588;
    assert I64(I64(422 * c.P5) * 0x2_0000) == 7743733760;
    assert I64(c.P4 * 0x8_0000_0000) == 98097053040640;
  }

  lemma ExampleNumerator()
    ensures PressureNumerator(415148, 128422, DefaultCalib) == 3944285864554787500
  {
    ExampleOffset();
  }

  lemma ExampleQuotient()
    ensures TDiv(3944285864554787500, 597560748) == 6600644165
  {
  }

  lemma ExampleCorrections()
    ensures PressureFromQuotient(6600644165, DefaultCalib) == 402613
  {
    var c := DefaultCalib;
    assert 6600644165 / 0x2000 == 805742;
    assert I64(c.P9 * 805742) == 4834452000;
    assert I64(4834452000 * 805742) / 0x200_0000 == 116089612;
    assert I64(c.P8 * 6600644165) == -96369404809000;
    assert -96369404809000 / 0x8_0000 == -183810053;
    assert I64(I64(6600644165 + 116089612) - 183810053) / 0x100 == 25519233;
    assert I64(25519233 + I64(c.P7 * 16)) == 25767233;
  }

  /** The datasheet example: raw pressure 415148 at fine temperature 128422
      gives 402613 quarter pascals, i.e. 100653.25 Pa. */
  lemma PressureExample()
    ensures CompensatePressure(415148, 128422, DefaultCalib) == 402613
  {
    ExampleDenominator();
    ExampleNumerator();
    ExampleQuotient();
    ExampleCorrections();
  }
}
