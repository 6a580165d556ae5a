/**
 The heartbeat backoff of the agent: a left shift on a 64-bit signed duration
 whose overflow is caught only by the test `delay > cap || delay <= 0`.
 */
module Backoff {
  import opened Common

  const TWO_TO_63: int := 0x8000_0000_0000_0000
  const TWO_TO_64: int := 0x1_0000_0000_0000_0000

  /** Five minutes, in nanoseconds. */
  const MAX_BACKOFF: int := 300 * SECOND

  function Pow2(k: nat): (p: nat)
    ensures p >= 1
  {
    if k == 0 then 1 else 2 * Pow2(k - 1)
  }

  /** The value a 64-bit two's complement register holds for `x`. */
  function Wrap(x: int): (result: int) {
    var r := x % TWO_TO_64;
    if r < TWO_TO_63 then r else r - TWO_TO_64
  }

  /** Go's `x << k` on int64: shifting by 64 or more yields zero. */
  function ShiftLeft(x: int, k: nat): (r: int) {
    if k < 64 then Wrap(x * Pow2(k)) else 0
  }

  /** The delay before the next heartbeat after `failures` consecutive failures. */
  function NextDelay(interval: int, failures: nat): (r: int) {
    if failures < 3 then interval else
    var delay := ShiftLeft(interval, failures - 3);
    if delay > MAX_BACKOFF || delay <= 0 then MAX_BACKOFF else delay
  }

  /** The intended curve, on unbounded integers. */
  function ExactDelay(interval: int, failures: nat): (r: int) {
    if failures < 3 then interval else
    var delay := interval * Pow2(failures - 3);
    if delay > MAX_BACKOFF then MAX_BACKOFF else delay
  }

  lemma {:induction false} Pow2Adds(a: nat, b: nat)
    ensures Pow2(a + b) == Pow2(a) * Pow2(b)
  {
    if b == 0 {
    } else {
      Pow2Adds(a, b - 1);
      assert Pow2(a + b) == 2 * (Pow2(a) * Pow2(b - 1));
    }
  }

  lemma {:induction false} Pow2Grows(a: nat, b: nat)
    requires a <= b
    ensures Pow2(a) <= Pow2(b)
    decreases b - a
  {
    if a == b {
    } else {
      Pow2Grows(a + 1, b);
    }
  }

  lemma Pow2Of25()
    ensures Pow2(22) == 0x40_0000 && Pow2(24) == 0x100_0000 && Pow2(25) == 0x200_0000
    ensures Pow2(26) == 0x400_0000 && Pow2(27) == 0x800_0000 && Pow2(28) == 0x1000_0000
    ensures Pow2(29) == 0x2000_0000 && Pow2(30) == 0x4000_0000
  {
    assert Pow2(8) == 256;
    Pow2Adds(8, 8);
    assert Pow2(6) == 64;
    Pow2Adds(16, 6);
    assert Pow2(24) == 4 * Pow2(22);
    assert Pow2(26) == 4 * Pow2(24);
    assert Pow2(28) == 4 * Pow2(26);
    assert Pow2(30) == 4 * Pow2(28);
    assert Pow2(25) == 2 * Pow2(24) && Pow2(27) == 2 * Pow2(26) && Pow2(29) == 2 * Pow2(28);
  }

  /** Wrapping keeps every power of two below 2^64 that divides a value. */
  lemma WrapKeepsMultiples(c: int, q: int)
    requires c == 0x80_0000_0000
    ensures Wrap(c * q) % c == 0
  {
    var x := c * q;
    var m := x / TWO_TO_64;
    assert x % TWO_TO_64 == x - m * TWO_TO_64;
    var r := if x % TWO_TO_64 < TWO_TO_63 then q - m * 0x200_0000 else q - m * 0x200_0000 - 0x200_0000;
    assert Wrap(x) == c * r;
    assert (c * r) % c == 0;
  }

  /** With at least 30 doublings the wrapped delay is a multiple of 2^39 ns, more than five minutes. */
  lemma LateWrapExceedsCap(seconds: int, k: nat)
    requires 30 <= k
    ensures ShiftLeft(seconds * SECOND, k) <= 0 || ShiftLeft(seconds * SECOND, k) > MAX_BACKOFF
  {
    if k < 64 {
      Pow2Of25();
      Pow2Adds(30, k - 30);
      var p := Pow2(k - 30);
      Regroup(seconds, SECOND, 0x4000_0000, p);
      Factor(seconds * p, 0x80_0000_0000, 1_953_125);
      WrapKeepsMultiples(0x80_0000_0000, (seconds * p) * 1_953_125);
    }
  }

  lemma Factor(x: int, c: int, d: int)
    ensures x * (c * d) == c * (x * d)
  {}

  /** The five shift counts at which an interval of at most five minutes wraps by less than 2^39 ns. */
  lemma EarlyWrapExceedsCap(seconds: int, k: nat)
    requires 1 <= seconds <= 300 && 25 <= k < 30
    requires seconds * SECOND * Pow2(k) >= TWO_TO_63
    ensures ShiftLeft(seconds * SECOND, k) <= 0 || ShiftLeft(seconds * SECOND, k) > MAX_BACKOFF
  {
    var p := Pow2(k - 25);
    Pow2Of25();
    Pow2Adds(25, k - 25);
    Pow2Grows(k - 25, 4);
    assert Pow2(4) == 16;
    Regroup(seconds, SECOND, 0x200_0000, p);
    assert 1 <= seconds * p <= 4800 by {
      MulGrows(1, seconds, 1, p);
      MulGrows(seconds, 300, p, 16);
    }
    UnitsWrapPastCap(seconds * p);
  }

  lemma Regroup(a: int, b: int, c: int, d: int)
    ensures a * b * (c * d) == (a * d) * (b * c)
  {}

  /** Any number of steps of 2^25 s up to 4800 that reaches 2^63 ns wraps to nothing positive and short. */
  lemma UnitsWrapPastCap(n: int)
    requires 1 <= n <= 4800 && n * (SECOND * 0x200_0000) >= TWO_TO_63
    ensures Wrap(n * (SECOND * 0x200_0000)) <= 0 || Wrap(n * (SECOND * 0x200_0000)) > MAX_BACKOFF
  {
    var x := n * (SECOND * 0x200_0000);
    var m := x / TWO_TO_64;
    assert x % TWO_TO_64 == x - m * TWO_TO_64;
    assert 0 <= m <= 8;
    assert m == 0 || m == 1 || m == 2 || m == 3 || m == 4 || m == 5 || m == 6 || m == 7 || m == 8;
  }

  /**
   For every interval up to five minutes and every failure count, the wrapping
   64-bit computation gives the exact capped exponential.
   */
  lemma BackoffIsExact(seconds: int, failures: nat)
    requires 1 <= seconds <= 300
    ensures NextDelay(seconds * SECOND, failures) == ExactDelay(seconds * SECOND, failures)
  {
    if failures >= 3 {
      var k := failures - 3;
      var x := seconds * SECOND * Pow2(k);
      Pow2Of25();
      if k >= 9 {
        Pow2Grows(9, k);
        assert Pow2(9) == 512;
        assert x >= SECOND * 512 by {
          assert seconds * SECOND >= SECOND;
          MulGrows(SECOND, seconds * SECOND, 512, Pow2(k));
        }
      }
      if k < 25 {
        Pow2Grows(k, 24);
        MulGrows(seconds * SECOND, 300 * SECOND, Pow2(k), 0x100_0000);
        assert 0 < x < TWO_TO_63 by {
          MulGrows(1, seconds * SECOND, 1, Pow2(k));
        }
      } else if k >= 30 {
        LateWrapExceedsCap(seconds, k);
      } else if x >= TWO_TO_63 {
        EarlyWrapExceedsCap(seconds, k);
      }
    }
  }

  lemma MulGrows(a: int, b: int, c: int, d: int)
    requires 0 <= a <= b && 0 <= c <= d
    ensures a * c <= b * d
  {
    assert a * c <= b * c;
    assert b * c <= b * d;
  }

  /**
   Failures never shorten the delay exactly when the configured interval does
   not exceed the five-minute cap.
   */
  lemma BackoffNeverShortens(seconds: int)
    requires 1 <= seconds && seconds * SECOND < TWO_TO_63
    ensures (forall n: nat, m: nat | n <= m ::
               NextDelay(seconds * SECOND, n) <= NextDelay(seconds * SECOND, m)) <==> seconds <= 300
  {
    var interval := seconds * SECOND;
    if seconds <= 300 {
      forall n: nat, m: nat | n <= m
        ensures NextDelay(interval, n) <= NextDelay(interval, m)
      {
        BackoffIsExact(seconds, n);
        BackoffIsExact(seconds, m);
        if 3 <= n {
          Pow2Grows(n - 3, m - 3);
          MulGrows(interval, interval, Pow2(n - 3), Pow2(m - 3));
        } else if 3 <= m {
          MulGrows(interval, interval, 1, Pow2(m - 3));
        }
      }
    } else {
      assert NextDelay(interval, 2) == interval > MAX_BACKOFF >= NextDelay(interval, 3);
    }
  }

  /** The delay is never below the configured interval, up to the cap. */
  lemma BackoffIsBounded(seconds: int, failures: nat)
    requires 1 <= seconds <= 300
    ensures seconds * SECOND <= NextDelay(seconds * SECOND, failures) <= MAX_BACKOFF
  {
    BackoffNeverShortens(seconds);
    assert NextDelay(seconds * SECOND, 0) <= NextDelay(seconds * SECOND, failures);
  }

  /** Some shift count wraps the interval to a delay that is positive and below the cap. */
  predicate WrapsShort(interval: int) {
    exists k: nat :: k < 30 && 0 < ShiftLeft(interval, k) < MAX_BACKOFF
  }

  /**
   For every interval: the delay is the exact capped exponential for all
   failure counts exactly when the interval does not exceed the cap or none of
   its first 30 doublings wraps to a short delay.
   */
  lemma BackoffIsExactExactlyWhen(seconds: int)
    requires 1 <= seconds && seconds * SECOND < TWO_TO_63
    ensures (forall n: nat :: NextDelay(seconds * SECOND, n) == ExactDelay(seconds * SECOND, n))
       <==> (seconds <= 300 || !WrapsShort(seconds * SECOND))
  {
    forall n: nat
      ensures seconds <= 300 ==> NextDelay(seconds * SECOND, n) == ExactDelay(seconds * SECOND, n)
      ensures seconds > 300 && n >= 3 ==>
                (NextDelay(seconds * SECOND, n) == ExactDelay(seconds * SECOND, n) <==>
                 !(0 < ShiftLeft(seconds * SECOND, n - 3) < MAX_BACKOFF))
      ensures n >= 33 ==> !(0 < ShiftLeft(seconds * SECOND, n - 3) < MAX_BACKOFF)
    {
      if seconds <= 300 {
        BackoffIsExact(seconds, n);
      } else if n >= 3 {
        MulGrows(1, Pow2(n - 3), seconds * SECOND, seconds * SECOND);
      }
      if n >= 33 {
        LateWrapExceedsCap(seconds, n - 3);
      }
    }
    if seconds > 300 && WrapsShort(seconds * SECOND) {
      var k: nat :| k < 30 && 0 < ShiftLeft(seconds * SECOND, k) < MAX_BACKOFF;
      assert NextDelay(seconds * SECOND, k + 3) != ExactDelay(seconds * SECOND, k + 3);
    }
  }

  /** A longer interval can wrap to a short positive delay: 47279 s after 27 failures waits 94.5 s. */
  lemma LongIntervalCanWrap()
    ensures NextDelay(47_279 * SECOND, 27) == 94_489_280_512
    ensures ExactDelay(47_279 * SECOND, 27) == MAX_BACKOFF
    ensures WrapsShort(47_279 * SECOND)
  {
    Pow2Of25();
    assert 47_279 * SECOND * 0x100_0000 == 43 * TWO_TO_64 + 94_489_280_512;
    assert 0 < ShiftLeft(47_279 * SECOND, 24) < MAX_BACKOFF;
  }

  // -------------------------------------------------- the curve, step by step

  /** A register holds the number of its width that is the same modulo 2^64. */
  lemma WrapIsRegister(x: int)
    ensures -0x8000_0000_0000_0000 <= Wrap(x) < 0x8000_0000_0000_0000
    ensures (x - Wrap(x)) % 0x1_0000_0000_0000_0000 == 0
  {
    var m := x / TWO_TO_64;
    assert x % TWO_TO_64 == x - m * TWO_TO_64;
    if x % TWO_TO_64 < TWO_TO_63 {
      assert (m * TWO_TO_64) % TWO_TO_64 == 0;
    } else {
      assert x - Wrap(x) == (m + 1) * TWO_TO_64;
      assert ((m + 1) * TWO_TO_64) % TWO_TO_64 == 0;
    }
  }

  lemma WrapOfSame(x: int, y: int, m: int)
    requires x == y + m * TWO_TO_64
    ensures Wrap(x) == Wrap(y)
  {
    var k := y / TWO_TO_64;
    assert y % TWO_TO_64 == y - k * TWO_TO_64;
    assert x == (k + m) * TWO_TO_64 + y % TWO_TO_64;
    assert x % TWO_TO_64 == y % TWO_TO_64;
  }

  /** Wrapping once at the end is wrapping at each doubling. */
  lemma WrapDoubles(x: int)
    ensures Wrap(2 * Wrap(x)) == Wrap(2 * x)
  {
    WrapIsRegister(x);
    var m := (x - Wrap(x)) / TWO_TO_64;
    assert x - Wrap(x) == m * TWO_TO_64;
    assert 2 * x == 2 * Wrap(x) + (2 * m) * TWO_TO_64;
    WrapOfSame(2 * x, 2 * Wrap(x), 2 * m);
  }

  /** A shift by `k` is `k` doublings of the register. */
  lemma ShiftIsDoubling(x: int, k: nat)
    requires -0x8000_0000_0000_0000 <= x < 0x8000_0000_0000_0000
    ensures ShiftLeft(x, 0) == x
    ensures ShiftLeft(x, k + 1) == Wrap(2 * ShiftLeft(x, k))
  {
    assert Wrap(x) == x;
    assert x * Pow2(0) == x;
    if k < 63 {
      WrapDoubles(x * Pow2(k));
      NextPower(x, k);
    } else if k == 63 {
      WrapDoubles(x * Pow2(63));
      TopBitIsLost(x);
    }
  }

  lemma NextPower(x: int, k: nat)
    ensures x * Pow2(k + 1) == 2 * (x * Pow2(k))
  {}

  lemma TopBitIsLost(x: int)
    ensures Wrap(2 * (x * Pow2(63))) == 0
  {
    Pow2Adds(32, 31);
    assert Pow2(32) == 0x1_0000_0000 by {
      Pow2Of25();
      assert Pow2(32) == 4 * Pow2(30);
    }
    assert Pow2(31) == 0x8000_0000 by {
      Pow2Of25();
      assert Pow2(31) == 2 * Pow2(30);
    }
    assert Pow2(63) == TWO_TO_63;
    assert 2 * (x * Pow2(63)) == 0 + x * TWO_TO_64;
    WrapOfSame(2 * (x * Pow2(63)), 0, x);
  }

  /**
   The curve as promised: the interval for up to three failures, then each
   failure doubles the delay up to five minutes.
   */
  lemma BackoffDoubles(seconds: int, failures: nat)
    requires 1 <= seconds <= 300
    ensures failures <= 3 ==> NextDelay(seconds * SECOND, failures) == seconds * 1_000_000_000
    ensures failures >= 3 ==>
              NextDelay(seconds * SECOND, failures + 1)
                == (if 2 * NextDelay(seconds * SECOND, failures) > 300_000_000_000 then 300_000_000_000
                    else 2 * NextDelay(seconds * SECOND, failures))
  {
    BackoffIsExact(seconds, failures);
    BackoffIsExact(seconds, failures + 1);
    if failures >= 3 {
      var x := seconds * SECOND;
      NextPower(x, failures - 3);
      assert Pow2(0) == 1;
    }
  }

  /** Longer intervals that never wrap short wait the interval, then five minutes. */
  lemma LongBackoffIsCapped(seconds: int, failures: nat)
    requires 300 < seconds && seconds * SECOND < TWO_TO_63 && !WrapsShort(seconds * SECOND)
    ensures NextDelay(seconds * SECOND, failures) ==
            if failures < 3 then seconds * 1_000_000_000 else 300_000_000_000
  {
    BackoffIsExactExactlyWhen(seconds);
    if failures >= 3 {
      MulGrows(1, Pow2(failures - 3), seconds * SECOND, seconds * SECOND);
    }
  }
}
