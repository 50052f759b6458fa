/** Fixed-width integer types of the driver and the C++ operators on them.

    The driver works on uint8/int16/uint16/int32/uint32/int64 values. Dafny's
    integers are unbounded, so each C++ operation that can leave its type is
    followed by an explicit wrap to that width (two's complement, as the
    target compiler produces). A signed `>> k` is an arithmetic shift, i.e.
    floor division by 2^k, which is what Dafny's `/` computes for a positive
    divisor; `<< k` is multiplication by 2^k. Shift amounts are therefore
    written as the literal power of two they stand for. */
module FixedWidth {

  type uint8 = x: int | 0 <= x < 0x100
  type uint16 = x: int | 0 <= x < 0x1_0000
  type int16 = x: int | -0x8000 <= x < 0x8000
  type int32 = x: int | -0x8000_0000 <= x < 0x8000_0000
  type uint32 = x: int | 0 <= x < 0x1_0000_0000
  type int64 = x: int | -0x8000_0000_0000_0000 <= x < 0x8000_0000_0000_0000

  /** Conversion to int16 (the narrowing assignment `int16_t t = x`). */
  function I16(x: int): (r: int16)
    ensures r % 0x1_0000 == x % 0x1_0000
    ensures -0x8000 <= x < 0x8000 ==> r == x
  {
    if -0x8000 <= x < 0x8000 then x else (x + 0x8000) % 0x1_0000 - 0x8000
  }

  /** An int32 operation: the mathematical result reduced to 32 bits. */
  function I32(x: int): (r: int32)
    ensures r % 0x1_0000_0000 == x % 0x1_0000_0000
    ensures -0x8000_0000 <= x < 0x8000_0000 ==> r == x
  {
    if -0x8000_0000 <= x < 0x8000_0000 then x
    else (x + 0x8000_0000) % 0x1_0000_0000 - 0x8000_0000
  }

  /** An int64 operation: the mathematical result reduced to 64 bits. */
  function I64(x: int): (r: int64)
    ensures r % 0x1_0000_0000_0000_0000 == x % 0x1_0000_0000_0000_0000
    ensures -0x8000_0000_0000_0000 <= x < 0x8000_0000_0000_0000 ==> r == x
  {
    if -0x8000_0000_0000_0000 <= x < 0x8000_0000_0000_0000 then x
    else (x + 0x8000_0000_0000_0000) % 0x1_0000_0000_0000_0000 - 0x8000_0000_0000_0000
  }

  /** Conversion to uint32 (`uint32_t u = x`): reduction modulo 2^32. */
  function U32(x: int): (r: uint32)
    ensures r % 0x1_0000_0000 == x % 0x1_0000_0000
    ensures 0 <= x < 0x1_0000_0000 ==> r == x
  {
    x % 0x1_0000_0000
  }

  /** C++ `a / b` on integers: the quotient truncated toward zero. */
  function TDiv(a: int, b: int): (q: int)
    requires b != 0
    ensures q * b == a - TRem(a, b)
    ensures a >= 0 ==> 0 <= TRem(a, b) < (if b > 0 then b else -b)
    ensures a < 0 ==> -(if b > 0 then b else -b) < TRem(a, b) <= 0
  {
    var m := (if a >= 0 then a else -a) / (if b > 0 then b else -b);
    if (a >= 0) == (b > 0) then m else -m
  }

  /** C++ `a % b`: the remainder that goes with TDiv; it has the sign of `a`. */
  function TRem(a: int, b: int): int
    requires b != 0
  {
    var r := (if a >= 0 then a else -a) % (if b > 0 then b else -b);
    if a >= 0 then r else -r
  }

  lemma {:induction false} MulAtLeast(a: int, d: int)
    requires a >= 1 && d > 0
    ensures a * d >= d
  {
    if a > 1 {
      MulAtLeast(a - 1, d);
    }
  }

  /** Euclidean division is determined by the quotient-remainder equation. */
  lemma DivModUnique(x: int, d: int, q: int, r: int)
    requires d > 0 && 0 <= r < d && x == q * d + r
    ensures x / d == q && x % d == r
  {
    var q', r' := x / d, x % d;
    assert x == q' * d + r';
    var k := q - q';
    assert k * d == q * d - q' * d;
    assert k * d == r' - r;
    if k > 0 {
      MulAtLeast(k, d);
    } else if k < 0 {
      MulAtLeast(-k, d);
    }
  }

  /** A product with a factor in [0, s] and one in [lo, hi] around zero. */
  lemma MulRange(x: int, s: int, y: int, lo: int, hi: int)
    requires 0 <= x <= s && lo <= y <= hi && lo <= 0 <= hi
    ensures s * lo <= x * y <= s * hi
  {
    assert x * (y - lo) >= 0;
    assert x * (hi - y) >= 0;
    assert (s - x) * -lo >= 0;
    assert (s - x) * hi >= 0;
  }
}
