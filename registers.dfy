/** Register map of the sensor as the driver uses it, and the reassembly of a
    three-byte result register into a 20-bit raw code. */
module Registers {
  import opened FixedWidth

  const ADDR: uint8 := 0x77        // device address on the bus
  const REG_CALIB: uint8 := 0x88   // first byte of the calibration block
  const REG_ID: uint8 := 0xD0      // identification register
  const REG_STATUS: uint8 := 0xF3  // status: bit 3 measuring, bit 0 image update
  const REG_CTRL: uint8 := 0xF4    // oversampling and power mode
  const REG_CONFIG: uint8 := 0xF5  // standby, filter and 3-wire interface
  const REG_PRESS: uint8 := 0xF7   // pressure result: MSB, LSB, XLSB
  const REG_TEMP: uint8 := 0xFA    // temperature result: MSB, LSB, XLSB

  const CHIP_ID: uint8 := 0x58     // what REG_ID reads on this part
  const CONFIG_VALUE: uint8 := 0x00
  const CTRL_VALUE: uint8 := 0x55  // pressure x16, temperature x2, forced mode
  const STATUS_MASK: bv8 := 0x09   // measuring | image update

  lemma LittleEndianFields(b0: uint8, b1: uint8, b2: uint8)
    ensures (b0 + b1 * 0x100 + b2 * 0x1_0000) % 0x100 == b0
    ensures (b0 + b1 * 0x100 + b2 * 0x1_0000) / 0x100 == b1 + b2 * 0x100
    ensures (b1 + b2 * 0x100) % 0x100 == b1
    ensures (b0 + b1 * 0x100 + b2 * 0x1_0000) / 0x1_0000 == b2
  {
    DivModUnique(b0 + b1 * 0x100 + b2 * 0x1_0000, 0x100, b1 + b2 * 0x100, b0);
    DivModUnique(b1 + b2 * 0x100, 0x100, b2, b1);
    DivModUnique(b0 + b1 * 0x100 + b2 * 0x1_0000, 0x1_0000, b2, b0 + b1 * 0x100);
  }

  /** The raw code left in the int32 field after its three register bytes
      b0 (MSB), b1 (LSB), b2 (XLSB) were read into the zeroed field: in
      little-endian memory they form b0 | b1 << 8 | b2 << 16; the outer two
      bytes are then swapped with masks (each mask keeps one byte, so the
      disjoint fields add up) and the padding nibble is shifted out. The
      result is the MSB-first 24-bit value without its low four bits. */
  function RawFromBytes(b0: uint8, b1: uint8, b2: uint8): (raw: int32)
    ensures raw == (b0 * 0x1_0000 + b1 * 0x100 + b2) / 16
    ensures 0 <= raw < 0x10_0000
  {
    var mem := b0 + b1 * 0x100 + b2 * 0x1_0000;
    LittleEndianFields(b0, b1, b2);
    var swapped := (mem % 0x100) * 0x1_0000         // (x << 16) & 0xFF0000
                   + ((mem / 0x100) % 0x100) * 0x100  // x & 0x00FF00
                   + (mem / 0x1_0000) % 0x100;        // (x >> 16) & 0x0000FF
    swapped / 16                                      // x >>= 4
  }

  /** The register bytes, MSB first, that a raw code arrives in (with a zero
      padding nibble). */
  function RegisterBytes(raw: int): (b: seq<uint8>)
    requires 0 <= raw < 0x10_0000
    ensures |b| == 3
  {
    [raw / 0x1000, (raw / 0x10) % 0x100, (raw % 0x10) * 0x10]
  }

  /** Reassembly recovers every 20-bit raw code from its register bytes. */
  lemma RawRoundTrip(raw: int)
    requires 0 <= raw < 0x10_0000
    ensures var b := RegisterBytes(raw); RawFromBytes(b[0], b[1], b[2]) == raw
  {
    var b := RegisterBytes(raw);
    DivModUnique(raw, 0x10, raw / 0x10, raw % 0x10);
    DivModUnique(raw / 0x10, 0x100, raw / 0x1000, (raw / 0x10) % 0x100);
    assert (b[0] as int) * 0x1_0000 + (b[1] as int) * 0x100 + b[2] == raw * 16;
  }

  /** The example bytes 7E D0 00 give 0x7ED000 >> 4. */
  lemma RawExample()
    ensures RawFromBytes(0x7E, 0xD0, 0x00) == 0x7ED00
  {
  }
}
