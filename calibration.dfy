/** The 13 calibration words the sensor keeps in its EEPROM and the layout of
    the 26-byte block they are read in (register 0x88 onwards): 13
    little-endian 16-bit words in the order T1, T2, T3, P1, P2 .. P9, D, where
    T1 and P1 are unsigned and every other word is signed. D is the reserved
    word at the end of the block; nothing uses it. */
module Calibration {
  import opened FixedWidth

  datatype CalibrationSet = CalibrationSet(
    T1: uint16, T2: int16, T3: int16,
    P1: uint16, P2: int16, P3: int16, P4: int16, P5: int16,
    P6: int16, P7: int16, P8: int16, P9: int16,
    D: int16)

  /** Number of bytes of the calibration block. */
  const CALIB_SIZE := 26

  /** The coefficients of the sensor's datasheet example, used as test data. */
  const DefaultCalib := CalibrationSet(
    27504, 26435, -1000,
    36477, -10685, 3024, 2855, 140, -7, 15500, -14600, 6000,
    0)

  /** A 16-bit word stored low byte first. */
  function Word(lo: uint8, hi: uint8): uint16
  {
    lo + hi * 0x100
  }

  /** The int16 whose two's-complement bit pattern is `w`. */
  function Signed(w: uint16): int16
  {
    if w < 0x8000 then w else w - 0x1_0000
  }

  /** The bit pattern of an int16, as a 16-bit word. */
  function Unsigned(x: int16): uint16
  {
    if x >= 0 then x else x + 0x1_0000
  }

  /** Interprets the block the way reading it straight into the fields does. */
  function Decode(b: seq<uint8>): CalibrationSet
    requires |b| == CALIB_SIZE
  {
    CalibrationSet(
      Word(b[0], b[1]), Signed(Word(b[2], b[3])), Signed(Word(b[4], b[5])),
      Word(b[6], b[7]), Signed(Word(b[8], b[9])), Signed(Word(b[10], b[11])),
      Signed(Word(b[12], b[13])), Signed(Word(b[14], b[15])),
      Signed(Word(b[16], b[17])), Signed(Word(b[18], b[19])),
      Signed(Word(b[20], b[21])), Signed(Word(b[22], b[23])),
      Signed(Word(b[24], b[25])))
  }

  /** The two bytes of a word, low byte first. */
  function WordBytes(w: uint16): (b: seq<uint8>)
    ensures |b| == 2 && Word(b[0], b[1]) == w
  {
    [w % 0x100, w / 0x100]
  }

  /** The block whose decoding is `c`: the inverse of Decode. */
  function Encode(c: CalibrationSet): (b: seq<uint8>)
    ensures |b| == CALIB_SIZE
  {
    WordBytes(c.T1) + WordBytes(Unsigned(c.T2)) + WordBytes(Unsigned(c.T3))
    + WordBytes(c.P1) + WordBytes(Unsigned(c.P2)) + WordBytes(Unsigned(c.P3))
    + WordBytes(Unsigned(c.P4)) + WordBytes(Unsigned(c.P5))
    + WordBytes(Unsigned(c.P6)) + WordBytes(Unsigned(c.P7))
    + WordBytes(Unsigned(c.P8)) + WordBytes(Unsigned(c.P9))
    + WordBytes(Unsigned(c.D))
  }

  lemma UnsignedSigned(w: uint16)
    ensures Unsigned(Signed(w)) == w
  {
  }

  /** Each word of a block is recovered from its two bytes. */
  lemma WordRoundTrip(lo: uint8, hi: uint8)
    ensures WordBytes(Word(lo, hi)) == [lo, hi]
  {
    DivModUnique(lo + hi * 0x100, 0x100, hi, lo);
  }

  /** Decoding an encoded calibration set gives it back. */
  lemma DecodeEncode(c: CalibrationSet)
    ensures Decode(Encode(c)) == c
  {
    var b := Encode(c);
    assert b[0..2] == WordBytes(c.T1);
  }

  /** Encoding a decoded block gives the same 26 bytes. */
  lemma EncodeDecode(b: seq<uint8>)
    requires |b| == CALIB_SIZE
    ensures Encode(Decode(b)) == b
  {
    UnsignedSigned(Word(b[2], b[3]));
    UnsignedSigned(Word(b[4], b[5]));
    UnsignedSigned(Word(b[8], b[9]));
    UnsignedSigned(Word(b[10], b[11]));
    UnsignedSigned(Word(b[12], b[13]));
    UnsignedSigned(Word(b[14], b[15]));
    UnsignedSigned(Word(b[16], b[17]));
    UnsignedSigned(Word(b[18], b[19]));
    UnsignedSigned(Word(b[20], b[21]));
    UnsignedSigned(Word(b[22], b[23]));
    UnsignedSigned(Word(b[24], b[25]));
    WordRoundTrip(b[0], b[1]);
    WordRoundTrip(b[2], b[3]);
    WordRoundTrip(b[4], b[5]);
    WordRoundTrip(b[6], b[7]);
    WordRoundTrip(b[8], b[9]);
    WordRoundTrip(b[10], b[11]);
    WordRoundTrip(b[12], b[13]);
    WordRoundTrip(b[14], b[15]);
    WordRoundTrip(b[16], b[17]);
    WordRoundTrip(b[18], b[19]);
    WordRoundTrip(b[20], b[21]);
    WordRoundTrip(b[22], b[23]);
    WordRoundTrip(b[24], b[25]);
    assert b == [b[0], b[1], b[2], b[3], b[4], b[5], b[6], b[7], b[8], b[9], b[10], b[11], b[12], b[13], b[14], b[15], b[16], b[17], b[18], b[19], b[20], b[21], b[22], b[23], b[24], b[25]];
  }
}
