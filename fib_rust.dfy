/** The Rust library's `fib`, exported with the C ABI, over `i32`. */
module FibRust {
  import opened MachineInt
  import opened Fibonacci

  /**
   * Rust's `fib`: n itself below 2, otherwise the sum of the two previous
   * values. Rust's `+` on `i32` panics on overflow in debug builds, so the
   * model admits only the arguments whose result fits: n <= 46.
   */
  function RustFib(n: Int32): (r: Int32)
    requires n <= 46
    ensures n < 2 ==> r == n
    ensures n >= 0 ==> r == Fib(n)
  {
    if n < 2 then n
    else
      FibBound32(n);
      RustFib(n - 1) + RustFib(n - 2)
  }

  /** The recurrence, for every argument the model admits. */
  lemma RustFibRecurrence(n: Int32)
    requires 2 <= n <= 46
    ensures RustFib(n) == RustFib(n - 1) + RustFib(n - 2)
  {
  }

  /** The cases of the crate's `smoke` test. */
  lemma RustFibTestedValues()
    ensures RustFib(0) == 0 && RustFib(1) == 1
    ensures RustFib(5) == 5 && RustFib(10) == 55
  {
  }

  /** The bound n <= 46 is tight: the sum computed for n = 47 leaves `i32`. */
  lemma RustFibBoundIsTight()
    ensures RustFib(46) + RustFib(45) >= TWO_31
  {
    FibLandmarks();
  }
}
