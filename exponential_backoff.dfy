/** The retry counter of ExponentialBackoff.cs.  Each read of NextDelay
    returns min(max, initial * 2^attempt) plus a jitter below one second,
    counts the attempt and adds the delay to a running total; Reset clears
    both counters.  The random jitter is an input.

    The source computes `initial * 2^attempt` in 32-bit arithmetic, which
    wraps to a negative number from attempt 22 on with the default delays.
    AsWrittenBaseDelay models that arithmetic; BaseDelay is the evidently
    intended value, and the class uses it. */
module Backoff {

  const Int32Min := -0x8000_0000
  const Int32Max := 0x7FFF_FFFF

  predicate IsInt32(x: int)
  {
    Int32Min <= x <= Int32Max
  }

  /** Two's-complement wrap-around of a 32-bit `int` operation. */
  function Wrap32(x: int): (r: int)
    ensures IsInt32(r)
    ensures IsInt32(x) ==> r == x
    ensures (r - x) % 0x1_0000_0000 == 0
  {
    (x + 0x8000_0000) % 0x1_0000_0000 - 0x8000_0000
  }

  function Pow2(n: nat): (p: nat)
    ensures p >= 1
  {
    if n == 0 then 1 else 2 * Pow2(n - 1)
  }

  lemma {:induction false} Pow2Monotone(m: nat, n: nat)
    requires m <= n
    ensures Pow2(m) <= Pow2(n)
    decreases n
  {
    if m < n {
      Pow2Monotone(m, n - 1);
    }
  }

  /** The powers of two the overflow argument needs. */
  lemma Pow2UpTo22()
    ensures Pow2(21) == 2097152 && Pow2(22) == 4194304
  {
    assert Pow2(1) == 2;
    assert Pow2(2) == 4;
    assert Pow2(3) == 8;
    assert Pow2(4) == 16;
    assert Pow2(5) == 32;
    assert Pow2(6) == 64;
    assert Pow2(7) == 128;
    assert Pow2(8) == 256;
    assert Pow2(9) == 512;
    assert Pow2(10) == 1024;
    assert Pow2(11) == 2048;
    assert Pow2(12) == 4096;
    assert Pow2(13) == 8192;
    assert Pow2(14) == 16384;
    assert Pow2(15) == 32768;
    assert Pow2(16) == 65536;
    assert Pow2(17) == 131072;
    assert Pow2(18) == 262144;
    assert Pow2(19) == 524288;
    assert Pow2(20) == 1048576;
    assert Pow2(21) == 2097152;
    assert Pow2(22) == 4194304;
  }

  const DefaultInitialDelayMs := 1000
  const DefaultMaxDelayMs := 32000
  /** The jitter is drawn from [0, JitterBoundMs). */
  const JitterBoundMs := 1000

  /** The delay before jitter for a given attempt, in exact arithmetic. */
  function BaseDelay(initial: int, max: int, attempt: nat): (d: int)
    ensures d <= max && d <= initial * Pow2(attempt)
    ensures d == max || d == initial * Pow2(attempt)
  {
    var grown := initial * Pow2(attempt);
    if max < grown then max else grown
  }

  /** With 0 <= initial <= max the base delay starts at `initial`, never
      exceeds `max` and never shrinks from one attempt to the next. */
  lemma BaseDelayBounds(initial: int, max: int, attempt: nat, later: nat)
    requires 0 <= initial <= max && attempt <= later
    ensures initial <= BaseDelay(initial, max, attempt) <= max
    ensures BaseDelay(initial, max, attempt) <= BaseDelay(initial, max, later)
    ensures attempt == 0 ==> BaseDelay(initial, max, attempt) == initial
  {
    Pow2Monotone(attempt, later);
    ScaleMonotone(initial, 1, Pow2(attempt));
    ScaleMonotone(initial, Pow2(attempt), Pow2(later));
  }

  /** Scaling by a non-negative factor keeps order. */
  lemma ScaleMonotone(factor: int, x: int, y: int)
    requires 0 <= factor && x <= y
    ensures factor * x <= factor * y
  {
    assert factor * y - factor * x == factor * (y - x);
  }

  /** The base delay as the source computes it: the product wraps in
      32-bit arithmetic before the minimum is taken.  Math.Pow(2, attempt)
      converts to `int` exactly up to attempt 30. */
  function AsWrittenBaseDelay(initial: int, max: int, attempt: nat): (d: int)
    requires IsInt32(initial) && IsInt32(max) && attempt <= 30
    ensures IsInt32(d) && d <= max
  {
    var grown := Wrap32(initial * Pow2(attempt));
    if max < grown then max else grown
  }

  /** With the default delays the source's value is right up to attempt
      21. */
  lemma AsWrittenAgreesBelowOverflow(attempt: nat)
    requires attempt <= 21
    ensures AsWrittenBaseDelay(DefaultInitialDelayMs, DefaultMaxDelayMs, attempt)
      == BaseDelay(DefaultInitialDelayMs, DefaultMaxDelayMs, attempt)
  {
    Pow2Monotone(attempt, 21);
    Pow2UpTo22();
  }

  /** ... and wrong from attempt 22: 1000 * 2^22 wraps to -100663296, so
      NextDelay returns a negative delay. */
  lemma AsWrittenOverflowsAtAttempt22()
    ensures AsWrittenBaseDelay(DefaultInitialDelayMs, DefaultMaxDelayMs, 22) == -100663296
    ensures BaseDelay(DefaultInitialDelayMs, DefaultMaxDelayMs, 22) == DefaultMaxDelayMs
    ensures AsWrittenBaseDelay(DefaultInitialDelayMs, DefaultMaxDelayMs, 22) + (JitterBoundMs - 1) < 0
  {
    Pow2UpTo22();
  }

  function Sum(s: seq<int>): int
  {
    if s == [] then 0 else Sum(s[..|s| - 1]) + s[|s| - 1]
  }

  class ExponentialBackoff {
    const initialDelayMilliseconds: int
    const maxDelayMilliseconds: int
    var deltaMilliseconds: int
    var currentAttempt: nat
    /** The delays returned since construction or the last Reset. */
    ghost var delays: seq<int>

    /** The attempt counter counts the delays handed out and the running
        total is their sum. */
    ghost predicate Valid()
      reads this
    {
      currentAttempt == |delays| && deltaMilliseconds == Sum(delays)
    }

    constructor ()
      ensures Valid() && delays == []
      ensures initialDelayMilliseconds == DefaultInitialDelayMs && maxDelayMilliseconds == DefaultMaxDelayMs
      ensures currentAttempt == 0 && deltaMilliseconds == 0
    {
      initialDelayMilliseconds := DefaultInitialDelayMs;
      maxDelayMilliseconds := DefaultMaxDelayMs;
      deltaMilliseconds := 0;
      currentAttempt := 0;
      delays := [];
    }

    constructor WithDelays(initialDelayMilliseconds: int, maxDelayMilliseconds: int)
      ensures Valid() && delays == []
      ensures this.initialDelayMilliseconds == initialDelayMilliseconds
      ensures this.maxDelayMilliseconds == maxDelayMilliseconds
      ensures currentAttempt == 0 && deltaMilliseconds == 0
    {
      this.initialDelayMilliseconds := initialDelayMilliseconds;
      this.maxDelayMilliseconds := maxDelayMilliseconds;
      deltaMilliseconds := 0;
      currentAttempt := 0;
      delays := [];
    }

    function CurrentAttempt(): (n: nat)
      reads this
      ensures Valid() ==> n == |delays|
    {
      currentAttempt
    }

    function DeltaMilliseconds(): (d: int)
      reads this
      ensures Valid() ==> d == Sum(delays)
    {
      deltaMilliseconds
    }

    /** The NextDelay getter, with `jitter` the random draw in [0, 1000). */
    method NextDelay(jitter: int) returns (delayMs: int)
      requires Valid() && 0 <= jitter < JitterBoundMs
      modifies this
      ensures Valid()
      ensures delayMs == BaseDelay(initialDelayMilliseconds, maxDelayMilliseconds, old(currentAttempt)) + jitter
      ensures currentAttempt == old(currentAttempt) + 1
      ensures deltaMilliseconds == old(deltaMilliseconds) + delayMs
      ensures delays == old(delays) + [delayMs]
    {
      var newValue := currentAttempt;
      var delay := BaseDelay(initialDelayMilliseconds, maxDelayMilliseconds, newValue);
      delay := delay + jitter;
      currentAttempt := currentAttempt + 1;
      deltaMilliseconds := deltaMilliseconds + delay;
      delays := delays + [delay];
      assert delays[..|delays| - 1] == old(delays);
      delayMs := delay;
    }

    /** Clears the attempt counter and the running total. */
    method Reset()
      modifies this
      ensures Valid() && delays == []
      ensures currentAttempt == 0 && deltaMilliseconds == 0
    {
      currentAttempt := 0;
      deltaMilliseconds := 0;
      delays := [];
    }
  }

  /** With the default delays, every delay lies in [1000, 33000) and the
      first one is below two seconds. */
  lemma DefaultDelaysBounded(attempt: nat, jitter: int)
    requires 0 <= jitter < JitterBoundMs
    ensures DefaultInitialDelayMs <= BaseDelay(DefaultInitialDelayMs, DefaultMaxDelayMs, attempt) + jitter
    ensures BaseDelay(DefaultInitialDelayMs, DefaultMaxDelayMs, attempt) + jitter < DefaultMaxDelayMs + JitterBoundMs
  {
    BaseDelayBounds(DefaultInitialDelayMs, DefaultMaxDelayMs, attempt, attempt);
  }
}
