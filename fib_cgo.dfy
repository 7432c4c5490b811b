/** The Go `Fib` exported through cgo, over `C.int`. */
module FibCgo {
  import opened MachineInt
  import opened Fibonacci
  import opened FibRust

  /**
   * cgo's `Fib`: n itself below 2, otherwise the two previous values added
   * with Go's wrapping signed 32-bit addition on `C.int`. Exact for
   * 0 <= n <= 46.
   */
  function CgoFib(n: Int32): (r: Int32)
    ensures n < 2 ==> r == n
    ensures 0 <= n <= 46 ==> r == Fib(n)
  {
    if n < 2 then n
    else
      FibBound32(n);
      Wrap32(CgoFib(n - 1) + CgoFib(n - 2))
  }

  /** Past 46 the 32-bit addition wraps: Fib(47) comes back as Fib(47) - 2^32. */
  lemma CgoFibWrapsAt47()
    ensures CgoFib(47) == Fib(47) - TWO_32
    ensures CgoFib(47) < 0
  {
    FibLandmarks();
    assert CgoFib(47) == Wrap32(Fib(46) + Fib(45));
  }

  /**
   * The three implementations agree wherever all three are defined and
   * exact: every n <= 46, negative ones included.
   */
  lemma ImplementationsAgree(n: Int32)
    requires n <= 46
    ensures CgoFib(n) == Compute(n) == RustFib(n)
  {
  }
}
