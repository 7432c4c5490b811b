/**
 * The boundary to the native `square` routine that both the HTTP handler
 * and the console call: the Go `int` is narrowed to `C.int` on the way in
 * and the `C.int` result widened back to a Go `int` on the way out. The C
 * library itself is not part of this model; it is taken to compute n*n in
 * C `int`, wrapping on overflow.
 */
module NativeSquare {
  import opened MachineInt

  /** The native `square`, assumed to return n*n truncated to 32 bits. */
  function CSquare(n: Int32): (r: Int32)
    ensures -46340 <= n <= 46340 ==> r == n * n
  {
    SquareFits(n);
    Wrap32(n * n)
  }

  lemma SquareFits(n: int)
    ensures -46340 <= n <= 46340 ==> 0 <= n * n < TWO_31
  {
    if -46340 <= n <= 46340 {
      var m := if n < 0 then -n else n;
      assert n * n == m * m;
      MulLeq(m, 46340, m);
      MulLeq(m, 46340, 46340);
    }
  }

  lemma MulLeq(a: nat, b: nat, c: nat)
    requires a <= b
    ensures a * c <= b * c
  {
    assert b * c - a * c == (b - a) * c;
  }

  /**
   * What `int(C.square(C.int(num)))` yields for a Go `int`: the square of
   * num's low 32 bits, truncated to 32 bits.
   */
  function SquareOf(num: Int64): (r: Int32)
    ensures InInt32(num) ==> r == CSquare(num)
    ensures forall m: Int32 :: (num - m) % TWO_32 == 0 ==> r == CSquare(m)
    ensures -46340 <= num <= 46340 ==> r == num * num
  {
    SquareOfCongruent(num);
    CSquare(Wrap32(num))
  }

  /** Every 32-bit value congruent to `num` has the square of its narrowing. */
  lemma SquareOfCongruent(num: int)
    ensures forall m: Int32 :: (num - m) % TWO_32 == 0 ==> CSquare(m) == CSquare(Wrap32(num))
  {
    forall m: Int32 | (num - m) % TWO_32 == 0
      ensures CSquare(m) == CSquare(Wrap32(num))
    {
      Wrap32Unique(num, m);
    }
  }

  /**
   * The reported square is not always num * num. 2^32 + 3 is narrowed to
   * 3 on the way in, so it squares to 9. 65536 fits in 32 bits and is
   * passed unchanged, but its square 2^32 wraps to 0 inside the native
   * routine, as `CSquare` assumes.
   */
  lemma SquareTruncates()
    ensures SquareOf(65536) == 0
    ensures SquareOf(TWO_32 + 3) == 9
  {
    assert Wrap32(65536) == 65536;
    assert Wrap32(TWO_32 + 3) == 3;
  }
}
