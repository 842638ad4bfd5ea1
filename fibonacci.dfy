/**
 * The Fibonacci exercise, exercises/fibonacci/src/solution.rs: a naive
 * recursive `fibonacci(n: u32) -> u32`, the value asserted in `main` and the
 * first ten values `main` prints.
 */
module Fibonacci {
  import opened Primitives

  /** The Fibonacci numbers over unbounded integers. */
  function Fib(n: nat): nat
  {
    if n == 0 then 0 else if n == 1 then 1 else Fib(n - 1) + Fib(n - 2)
  }

  /** `fibonacci(n)` with `u32` arithmetic. The addition is checked (as in a
      debug build): `None` is the overflow panic. The first recursive call is
      evaluated first, so its panic is the one that surfaces. */
  function Fibonacci(n: u32): Option<u32>
    decreases n
  {
    if n == 0 then Some(0)
    else if n == 1 then Some(1)
    else
      match Fibonacci(n - 1)
      case None => None
      case Some(a) =>
        match Fibonacci(n - 2)
        case None => None
        case Some(b) =>
          if a as int + b as int < 0x1_0000_0000 then Some((a as int + b as int) as u32) else None
  }

  /** A linear-time tail-recursive equivalent of the naive recursion:
      `n` more steps of `(a, b) := (b, a + b)`, returning `a`. */
  function FibIter(n: nat, a: nat, b: nat): nat
  {
    if n == 0 then a else FibIter(n - 1, b, a + b)
  }

  /** Started from two consecutive Fibonacci numbers, the loop walks the
      sequence: `n` steps from `Fib(k)` reach `Fib(k + n)`. */
  lemma {:induction false} FibIterCorrect(n: nat, k: nat)
    ensures FibIter(n, Fib(k), Fib(k + 1)) == Fib(k + n)
    decreases n
  {
    if n > 0 {
      FibIterCorrect(n - 1, k + 1);
    }
  }

  /** Linear-time Fibonacci numbers. */
  function FastFib(n: nat): (r: nat)
    ensures r == Fib(n)
  {
    FibIterCorrect(n, 0);
    FibIter(n, 0, 1)
  }

  /** Ten steps at once from two known consecutive values. */
  lemma Leap(k: nat, a: nat, b: nat)
    requires Fib(k) == a && Fib(k + 1) == b
    ensures Fib(k + 10) == FibIter(10, a, b)
    ensures Fib(k + 11) == FibIter(10, b, a + b)
  {
    FibIterCorrect(10, k);
    FibIterCorrect(10, k + 1);
  }

  lemma Fib10()
    ensures Fib(10) == 55 && Fib(11) == 89
  {
    Leap(0, 0, 1);
  }

  lemma Fib20()
    ensures Fib(20) == 6765 && Fib(21) == 10946
  {
    Fib10();
    Leap(10, 55, 89);
  }

  lemma Fib30()
    ensures Fib(30) == 832040 && Fib(31) == 1346269
  {
    Fib20();
    Leap(20, 6765, 10946);
  }

  lemma Fib40()
    ensures Fib(40) == 102334155 && Fib(41) == 165580141
  {
    Fib30();
    Leap(30, 832040, 1346269);
  }

  /** The values the exercise depends on, computed ten steps at a time. */
  lemma FibTable()
    ensures Fib(36) == 14930352
    ensures Fib(47) == 2971215073
    ensures Fib(48) == 4807526976
  {
    Fib30();
    FibIterCorrect(6, 30);
    assert FibIter(6, 832040, 1346269) == 14930352;
    Fib40();
    FibIterCorrect(7, 40);
    FibIterCorrect(8, 40);
    assert FibIter(7, 102334155, 165580141) == 2971215073;
    assert FibIter(8, 102334155, 165580141) == 4807526976;
  }

  /** The Fibonacci numbers never decrease. */
  lemma {:induction false} FibMonotone(m: nat, n: nat)
    requires m <= n
    ensures Fib(m) <= Fib(n)
    decreases n - m
  {
    if m < n {
      FibMonotone(m + 1, n);
      if m >= 1 {
        assert Fib(m + 1) == Fib(m) + Fib(m - 1);
      }
    }
  }

  /** `fib(47)` is the last Fibonacci number that fits a `u32`. */
  lemma U32Limit()
    ensures Fib(47) < 0x1_0000_0000 <= Fib(48)
  {
    FibTable();
  }

  /** Every Fibonacci number up to the 47th fits a `u32`. */
  lemma FitsU32(m: nat)
    requires m <= 47
    ensures Fib(m) < 0x1_0000_0000
  {
    FibMonotone(m, 47);
    U32Limit();
  }

  /** Up to 47 the `u32` function returns the Fibonacci number exactly. */
  lemma {:induction false} FibonacciExact(n: u32)
    requires n <= 47
    ensures Fibonacci(n).Some? && Fibonacci(n).value as nat == Fib(n as nat)
    decreases n
  {
    if n >= 2 {
      FibonacciExact(n - 1);
      FibonacciExact(n - 2);
      FitsU32(n as nat);
      var a, b := Fibonacci(n - 1).value, Fibonacci(n - 2).value;
      assert a as int + b as int == Fib(n as nat);
    }
  }

  /** From 48 on the addition overflows: in a debug build `fibonacci(n)`
      panics. */
  lemma {:induction false} FibonacciOverflows(n: u32)
    requires n >= 48
    ensures Fibonacci(n).None?
    decreases n
  {
    if n == 48 {
      FibonacciExact(47);
      FibonacciExact(46);
      U32Limit();
    } else {
      FibonacciOverflows(n - 1);
    }
  }

  /** The value `main` asserts. */
  lemma AssertedValue()
    ensures Fibonacci(36) == Some(14930352)
  {
    FibonacciExact(36);
    FibTable();
  }

  /** The ten values `main` prints, for `i` in `0..10`. */
  lemma FirstTen()
    ensures [Fibonacci(0), Fibonacci(1), Fibonacci(2), Fibonacci(3), Fibonacci(4),
             Fibonacci(5), Fibonacci(6), Fibonacci(7), Fibonacci(8), Fibonacci(9)]
      == [Some(0), Some(1), Some(1), Some(2), Some(3), Some(5), Some(8), Some(13), Some(21), Some(34)]
  {
    FibonacciExact(2);
    FibonacciExact(3);
    FibonacciExact(4);
    FibonacciExact(5);
    FibonacciExact(6);
    FibonacciExact(7);
    FibonacciExact(8);
    FibonacciExact(9);
  }
}
