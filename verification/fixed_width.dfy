/** The C fixed-width integer types the driver uses, and the C conversions
    and operators whose meaning on unbounded integers has to be spelled out.

    Conventions used by every module of the model:
    - a signed `x >> k` is an arithmetic shift, i.e. floor division `x / 2^k`
      (Dafny's `/` with a positive divisor is floor division);
    - `x << k` is multiplication by `2^k`;
    - a C `/` on signed operands truncates toward zero, see `CDiv`;
    - a conversion to an unsigned type reduces modulo `2^width`, and a
      conversion of an out-of-range value to a signed type reinterprets the
      bit pattern as two's complement. */
module FixedWidth {

  type uint8 = x: int | 0 <= x < 0x100
  type int8 = x: int | -0x80 <= x < 0x80
  type uint16 = x: int | 0 <= x < 0x1_0000
  type int16 = x: int | -0x8000 <= x < 0x8000
  type int32 = x: int | -0x8000_0000 <= x < 0x8000_0000
  type uint32 = x: int | 0 <= x < 0x1_0000_0000

  predicate IsInt32(x: int) {
    -0x8000_0000 <= x < 0x8000_0000
  }

  predicate IsInt64(x: int) {
    -0x8000_0000_0000_0000 <= x < 0x8000_0000_0000_0000
  }

  function Abs(x: int): nat {
    if x < 0 then -x else x
  }

  /** Assignment of a 16-bit pattern to an `int16_t`: the same bits read as
      two's complement. */
  function AsInt16(w: uint16): (r: int16)
    ensures (r - w) % 0x1_0000 == 0
    ensures r < 0 <==> w >= 0x8000
  {
    if w < 0x8000 then w else w - 0x1_0000
  }

  /** Assignment of an 8-bit pattern to an `int8_t`. */
  function AsInt8(b: uint8): (r: int8)
    ensures (r - b) % 0x100 == 0
    ensures r < 0 <==> b >= 0x80
  {
    if b < 0x80 then b else b - 0x100
  }

  /** Conversion of an `int16_t` to `uint16_t`: the bit pattern of `x`. */
  function Bits16(x: int16): (w: uint16)
    ensures (w - x) % 0x1_0000 == 0
  {
    x % 0x1_0000
  }

  /** Conversion of an `int8_t` to `uint8_t`: the bit pattern of `x`. */
  function Bits8(x: int8): (b: uint8)
    ensures (b - x) % 0x100 == 0
  {
    x % 0x100
  }

  /** Reinterpreting a 16-bit pattern as `int16_t` loses nothing. */
  lemma AsInt16RoundTrip(w: uint16, x: int16)
    ensures Bits16(AsInt16(w)) == w
    ensures AsInt16(Bits16(x)) == x
  {
  }

  /** Reinterpreting an 8-bit pattern as `int8_t` loses nothing. */
  lemma AsInt8RoundTrip(b: uint8, x: int8)
    ensures Bits8(AsInt8(b)) == b
    ensures AsInt8(Bits8(x)) == x
  {
  }

  /** Conversion of a wider integer to `uint32_t`: reduction modulo 2^32. */
  function ToUint32(x: int): (r: uint32)
    ensures (r - x) % 0x1_0000_0000 == 0
    ensures 0 <= x < 0x1_0000_0000 ==> r == x
    ensures -0x1_0000_0000 <= x < 0 ==> r == x + 0x1_0000_0000
  {
    x % 0x1_0000_0000
  }

  /** C's `/` on signed integers: the quotient truncated toward zero. */
  function CDiv(n: int, d: int): int
    requires d != 0
  {
    if (n >= 0) == (d > 0) then Abs(n) / Abs(d) else -(Abs(n) / Abs(d))
  }

  /** The four sign cases of truncating division, given the quotient `m`
      and remainder `a - m * b` of the magnitudes. */
  lemma TruncationCase(n: int, d: int, q: int, a: int, b: int, m: int)
    requires b > 0 && 0 <= a - m * b < b && m >= 0
    requires a == Abs(n) && b == Abs(d)
    requires q == (if (n >= 0) == (d > 0) then m else -m)
    ensures var r := n - q * d;
      && Abs(r) < Abs(d)
      && (n >= 0 ==> r >= 0)
      && (n <= 0 ==> r <= 0)
      && Abs(q) * Abs(d) <= Abs(n)
  {
    NegatedProduct(m, b);
    if n >= 0 && d > 0 {
      assert n - q * d == a - m * b;
    } else if n < 0 && d < 0 {
      assert n - q * d == -(a - m * b);
    } else if n >= 0 {
      assert n - q * d == a - m * b;
    } else {
      assert n - q * d == -(a - m * b);
    }
  }

  /** Floor division of a non-negative dividend leaves a remainder in
      [0, divisor). */
  lemma DivisionBounds(a: int, b: int)
    requires a >= 0 && b > 0
    ensures 0 <= a - (a / b) * b < b
  {
  }

  /** Negating a factor negates the product. */
  lemma NegatedProduct(x: int, y: int)
    ensures x * (-y) == -(x * y) && (-x) * y == -(x * y) && (-x) * (-y) == x * y
  {
  }

  /** The C standard's characterisation of `/` and `%`: the remainder
      `n - q*d` is smaller than the divisor in magnitude and never has the
      opposite sign of the dividend; equivalently the quotient is rounded
      toward zero. */
  lemma {:induction false} CDivTruncates(n: int, d: int)
    requires d != 0
    ensures var q := CDiv(n, d);
      var r := n - q * d;
      && Abs(r) < Abs(d)
      && (n >= 0 ==> r >= 0)
      && (n <= 0 ==> r <= 0)
      && Abs(q) * Abs(d) <= Abs(n)
  {
    var a: int, b: int := Abs(n), Abs(d);
    DivisionBounds(a, b);
    TruncationCase(n, d, CDiv(n, d), a, b, a / b);
  }
}
