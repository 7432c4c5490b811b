/**
 * The naive recursive Fibonacci of internal/fibonacci, over Go's 64-bit
 * `int`, together with the mathematical sequence it is meant to compute.
 */
module Fibonacci {
  import opened MachineInt

  /** The Fibonacci sequence over the naturals: the reference definition. */
  function Fib(n: nat): nat
  {
    if n < 2 then n else Fib(n - 1) + Fib(n - 2)
  }

  /** Fib never decreases. */
  lemma {:induction false} FibMonotone(m: nat, n: nat)
    requires m <= n
    ensures Fib(m) <= Fib(n)
  {
    if m < n {
      FibMonotone(m, n - 1);
      assert Fib(n - 1) <= Fib(n) by {
        if n >= 2 { } else { assert n == 1 && m == 0; }
      }
    }
  }

  /** Consecutive pairs of Fibonacci values, each pinned from the previous pair. */
  lemma FibPair10()
    ensures Fib(10) == 55 && Fib(11) == 89
  {
  }

  lemma FibPair20()
    ensures Fib(20) == 6765 && Fib(21) == 10946
  {
    FibPair10();
  }

  lemma FibPair30()
    ensures Fib(30) == 832040 && Fib(31) == 1346269
  {
    FibPair20();
  }

  lemma FibPair40()
    ensures Fib(40) == 102334155 && Fib(41) == 165580141
  {
    FibPair30();
  }

  lemma FibPair50()
    ensures Fib(50) == 12586269025 && Fib(51) == 20365011074
  {
    FibPair40();
  }

  lemma FibPair60()
    ensures Fib(60) == 1548008755920 && Fib(61) == 2504730781961
  {
    FibPair50();
  }

  lemma FibPair70()
    ensures Fib(70) == 190392490709135 && Fib(71) == 308061521170129
  {
    FibPair60();
  }

  lemma FibPair80()
    ensures Fib(80) == 23416728348467685 && Fib(81) == 37889062373143906
  {
    FibPair70();
  }

  lemma FibPair90()
    ensures Fib(90) == 2880067194370816120 && Fib(91) == 4660046610375530309
  {
    FibPair80();
  }

  /** The values that fix where the 32- and 64-bit versions stop being exact. */
  lemma FibLandmarks()
    ensures Fib(46) == 1836311903
    ensures Fib(47) == 2971215073
    ensures Fib(92) == 7540113804746346429
    ensures Fib(93) == 12200160415121876738
  {
    FibPair40();
    FibPair90();
  }

  /** Every Fib(n) up to n = 46 fits in a signed 32-bit integer. */
  lemma FibBound32(n: nat)
    ensures n <= 46 ==> Fib(n) < TWO_31
  {
    if n <= 46 {
      FibMonotone(n, 46);
      FibLandmarks();
    }
  }

  /** Every Fib(n) up to n = 92 fits in a signed 64-bit integer. */
  lemma FibBound64(n: nat)
    ensures n <= 92 ==> Fib(n) < TWO_63
  {
    if n <= 92 {
      FibMonotone(n, 92);
      FibLandmarks();
    }
  }

  /**
   * Go's `Compute`: every n below 2 (negative ones included) is returned
   * as it is; otherwise the two previous values are added with Go's
   * wrapping 64-bit `int` addition. The result is the n-th Fibonacci
   * number for 0 <= n <= 92.
   */
  function Compute(n: Int64): (r: Int64)
    ensures n < 2 ==> r == n
    ensures 0 <= n <= 92 ==> r == Fib(n)
  {
    if n < 2 then n
    else
      FibBound64(n);
      Wrap64(Compute(n - 1) + Compute(n - 2))
  }

  /** Within the exact range the recurrence holds without wrap-around. */
  lemma ComputeRecurrence(n: Int64)
    requires 2 <= n <= 92
    ensures Compute(n) == Compute(n - 1) + Compute(n - 2)
    ensures Compute(n) >= 0
  {
  }

  /** The cases of the package's unit test. */
  lemma ComputeTestedValues()
    ensures Compute(0) == 0 && Compute(1) == 1
    ensures Compute(5) == 5 && Compute(10) == 55
  {
  }

  /**
   * The first index where 64-bit wrap-around shows: Compute(93) is
   * Fib(93) - 2^64, a negative number.
   */
  lemma ComputeWrapsAt93()
    ensures Compute(93) == Fib(93) - TWO_64
    ensures Compute(93) < 0
  {
    FibLandmarks();
    assert Compute(93) == Wrap64(Fib(92) + Fib(91));
  }
}
