/** The benchmarked routine: Fibonacci numbers by a loop over arbitrary-precision integers.
    Java's BigInteger is Dafny's unbounded int; only the loop counter has a fixed width. */
module Fibonacci {
  import opened JavaInt

  /** The Fibonacci sequence indexed from 0: 0, 1, 1, 2, 3, 5, 8, ... */
  function Fib(n: nat): nat
  {
    if n < 2 then n else Fib(n - 1) + Fib(n - 2)
  }

  /** Fib(i - 1), extended by Fib(-1) = 1 so that Fib(1) == Fib(0) + Fib(-1):
      the value the loop keeps in `minusOne` after i passes. */
  function FibBefore(i: nat): nat
  {
    if i == 0 then 1 else Fib(i - 1)
  }

  /** FibLoopBig: three accumulators start at (0, 1, 0); each pass shifts them down and
      adds. The loop runs x times, so a non-positive x gives 0. The counter here is
      unbounded; the Java counter is an `int` (see IntCounterNeverReaches). */
  method FibLoopBig(x: int) returns (current: nat)
    requires IsLong(x)
    ensures x <= 0 ==> current == 0
    ensures x >= 0 ==> current == Fib(x)
  {
    var minusTwo: nat, minusOne: nat := 0, 1;
    current := 0;
    var i := 0;
    while i < x
      invariant 0 <= i <= if x < 0 then 0 else x
      invariant current == Fib(i) && minusOne == FibBefore(i)
    {
      minusTwo := minusOne;   // F(i-1) moves into F(i-2)
      minusOne := current;    // F(i) moves into F(i-1)
      current := minusTwo + minusOne;
      i := i + 1;
    }
  }

  /** The closing self-check: FibLoopBig(i) for every i from 0 to 93, collected
      instead of printed. */
  method VerificationTest() returns (values: seq<nat>)
    ensures |values| == 94
    ensures forall i :: 0 <= i < |values| ==> values[i] == Fib(i)
  {
    values := [];
    for i := 0 to 94
      invariant |values| == i
      invariant forall j :: 0 <= j < i ==> values[j] == Fib(j)
    {
      var v := FibLoopBig(i);
      values := values + [v];
    }
  }

  /** Fib never decreases. */
  lemma {:induction false} FibMonotone(a: nat, b: nat)
    requires a <= b
    ensures Fib(a) <= Fib(b)
  {
    if a < b {
      FibMonotone(a, b - 1);
    }
  }

  /** From index 2 on, Fib strictly increases. */
  lemma {:induction false} FibStrictlyIncreasing(a: nat, b: nat)
    requires 2 <= a < b
    ensures Fib(a) < Fib(b)
  {
    FibMonotone(a, b - 1);
    FibMonotone(1, b - 2);
  }

  // The verifier evaluates Fib at a literal index only some fifteen levels deep within
  // one proof at a reasonable cost, so the values far out are reached in stages.

  lemma FibAt15()
    ensures Fib(15) == 610 && Fib(16) == 987
  {
  }

  lemma FibAt30()
    ensures Fib(30) == 832040 && Fib(31) == 1346269
  {
    FibAt15();
  }

  lemma FibAt45()
    ensures Fib(45) == 1134903170 && Fib(46) == 1836311903
  {
    FibAt30();
  }

  lemma FibAt60()
    ensures Fib(60) == 1548008755920 && Fib(61) == 2504730781961
  {
    FibAt45();
  }

  lemma FibAt75()
    ensures Fib(75) == 2111485077978050 && Fib(76) == 3416454622906707
  {
    FibAt60();
  }

  lemma FibAt90()
    ensures Fib(90) == 2880067194370816120 && Fib(91) == 4660046610375530309
  {
    FibAt75();
  }

  /** The opening of the sequence as the benchmark's documentation lists it, and further
      checkpoints of it. */
  lemma FibQuotedValues()
    ensures [Fib(0), Fib(1), Fib(2), Fib(3), Fib(4), Fib(5), Fib(6), Fib(7), Fib(8), Fib(9), Fib(10), Fib(11)]
         == [0, 1, 1, 2, 3, 5, 8, 13, 21, 34, 55, 89]
    ensures Fib(20) == 6765 && Fib(50) == 12586269025
  {
    FibAt15();
    FibAt45();
  }

  /** Fib(92) is the last Fibonacci number a Java `long` holds. */
  lemma FibLongLimit(n: nat)
    ensures Fib(n) <= LONG_MAX <==> n <= 92
  {
    FibAt90();
    assert Fib(92) == 7540113804746346429 && Fib(93) == 12200160415121876738;
    if n <= 92 {
      FibMonotone(n, 92);
    } else {
      FibMonotone(93, n);
    }
  }

  /** The value of the Java loop counter `int i` after n passes: `i++` wraps at INT_MAX. */
  function CounterAfter(n: nat): (i: int)
    ensures IsInt(i)
  {
    if n == 0 then 0 else WrapInt(CounterAfter(n - 1) + 1)
  }

  /** Below the wrap point the `int` counter counts exactly. */
  lemma {:induction false} CounterExact(n: nat)
    requires n <= INT_MAX
    ensures CounterAfter(n) == n
  {
    if n > 0 {
      CounterExact(n - 1);
    }
  }

  /** As written, for a `long` x above INT_MAX the guard `i < x` holds after every number
      of passes, since the counter wraps from INT_MAX to INT_MIN: the loop never returns. */
  lemma IntCounterNeverReaches(x: int, n: nat)
    requires IsLong(x) && x > INT_MAX
    ensures CounterAfter(n) < x
    ensures n == INT_MAX + 1 ==> CounterAfter(n) == INT_MIN
  {
    if n == INT_MAX + 1 {
      CounterExact(n - 1);
    }
  }
}
