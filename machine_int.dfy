/**
 * Fixed-width signed integers as they appear in the source: Go's `int`
 * (64 bits on the platforms the service targets), C's `int` and Rust's
 * `i32` (32 bits). Wrap-around is written out explicitly.
 */
module MachineInt {

  const TWO_31: int := 0x8000_0000
  const TWO_32: int := 0x1_0000_0000
  const TWO_63: int := 0x8000_0000_0000_0000
  const TWO_64: int := 0x1_0000_0000_0000_0000

  /** A C `int`, Go `C.int` or Rust `i32`. */
  type Int32 = x: int | -0x8000_0000 <= x < 0x8000_0000

  /** A Go `int` on a 64-bit platform. */
  type Int64 = x: int | -0x8000_0000_0000_0000 <= x < 0x8000_0000_0000_0000

  predicate InInt32(x: int) { -TWO_31 <= x < TWO_31 }

  predicate InInt64(x: int) { -TWO_63 <= x < TWO_63 }

  /**
   * Two's-complement truncation to 32 bits: the unique 32-bit value
   * congruent to `x` modulo 2^32. This is what Go's signed addition on
   * `C.int` and the conversion `C.int(n)` of a Go `int` produce.
   */
  function Wrap32(x: int): (r: Int32)
    ensures (x - r) % TWO_32 == 0
    ensures InInt32(x) ==> r == x
  {
    var m := x % TWO_32;
    if m < TWO_31 then m else m - TWO_32
  }

  /** No other 32-bit value is congruent to `x` modulo 2^32. */
  lemma Wrap32Unique(x: int, m: Int32)
    requires (x - m) % TWO_32 == 0
    ensures m == Wrap32(x)
  {
    var w := Wrap32(x);
    var a, b := (x - m) / TWO_32, (x - w) / TWO_32;
    assert x - m == TWO_32 * a;
    assert x - w == TWO_32 * b;
    assert w - m == TWO_32 * (a - b);
    assert -TWO_32 < w - m < TWO_32;
  }

  /** Two's-complement truncation to 64 bits, as Go's `int` addition wraps. */
  function Wrap64(x: int): (r: Int64)
    ensures (x - r) % TWO_64 == 0
    ensures InInt64(x) ==> r == x
  {
    var m := x % TWO_64;
    if m < TWO_63 then m else m - TWO_64
  }
}
