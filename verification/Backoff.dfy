/** Retry delays in 64-bit nanoseconds. */
module Backoff {
  import opened Common

  const SECOND := 1_000_000_000
  const DEFAULT_DELAY := 10 * SECOND
  const TWO_63 := 0x8000_0000_0000_0000
  const TWO_64 := 0x1_0000_0000_0000_0000

  /** The value an int64 holds after an operation whose exact result is `x`. */
  function Wrap64(x: int): (r: int)
    ensures -TWO_63 <= r < TWO_63
    ensures -TWO_63 <= x < TWO_63 ==> r == x
  {
    (x + TWO_63) % TWO_64 - TWO_63
  }

  function Pow2(n: nat): nat {
    if n == 0 then 1 else 2 * Pow2(n - 1)
  }

  /** int64(1) << r */
  function ShiftedOne(r: nat): int {
    if r >= 64 then 0 else Wrap64(Pow2(r))
  }

  function BaseDelay(delay: Option<int>): int {
    if delay.Some? then delay.value else DEFAULT_DELAY
  }

  /**
   `delay` is the parsed retry delay, absent when none is given or it does not parse.
   */
  function RetryDelay(retryCount: nat, exponential: bool, delay: Option<int>): int {
    var base := BaseDelay(delay);
    if exponential then Wrap64(base * ShiftedOne(retryCount)) else base
  }

  lemma {:induction false} Pow2Monotone(a: nat, b: nat)
    requires a <= b
    ensures 1 <= Pow2(a) <= Pow2(b)
  {
    if b > 0 {
      if a == b {
        Pow2Monotone(a - 1, b - 1);
      } else {
        Pow2Monotone(a, b - 1);
      }
    }
  }

  lemma Pow2Values()
    ensures Pow2(29) == 536870912
    ensures Pow2(63) == TWO_63
  {
    assert Pow2(10) == 1024;
    assert Pow2(20) == 1048576;
    assert Pow2(29) == 536870912;
    assert Pow2(40) == 1099511627776;
    assert Pow2(50) == 1125899906842624;
    assert Pow2(60) == 1152921504606846976;
  }

  lemma ProductAtLeast(base: int, p: int, q: int)
    requires base >= 1 && p >= q >= 0
    ensures base * p >= q
  {
    assert base * p >= 1 * p;
  }

  lemma ShiftSmall(retryCount: nat)
    requires retryCount < 63
    ensures ShiftedOne(retryCount) == Pow2(retryCount)
  {
    Pow2Values();
    Pow2Monotone(retryCount, 62);
    assert Pow2(63) == 2 * Pow2(62);
  }

  lemma ExactTooLarge(retryCount: nat, base: int)
    requires base >= 1 && retryCount >= 63
    ensures base * Pow2(retryCount) >= TWO_63
  {
    Pow2Values();
    Pow2Monotone(63, retryCount);
    ProductAtLeast(base, Pow2(retryCount), TWO_63);
  }

  /** The computed exponential delay is the exact one precisely while the exact one fits in an int64. */
  lemma DelayExactIff(retryCount: nat, base: int)
    requires 0 <= base < TWO_63
    ensures RetryDelay(retryCount, true, Some(base)) == base * Pow2(retryCount) <==> base * Pow2(retryCount) < TWO_63
  {
    var delay := RetryDelay(retryCount, true, Some(base));
    var shifted, exact := ShiftedOne(retryCount), Pow2(retryCount);
    assert delay == Wrap64(base * shifted);
    if base == 0 {
      assert base * shifted == 0 && base * exact == 0;
    } else if retryCount < 63 {
      ShiftSmall(retryCount);
      Pow2Monotone(0, retryCount);
      ProductAtLeast(base, exact, 0);
    } else {
      ExactTooLarge(retryCount, base);
    }
  }

  lemma WrapsBy(x: int) returns (k: int)
    ensures Wrap64(x) == x + k * TWO_64
  {
    k := -((x + TWO_63) / TWO_64);
  }

  lemma {:induction false} PowersAdd(a: nat, b: nat)
    ensures Pow2(a + b) == Pow2(a) * Pow2(b)
  {
    if b > 0 {
      PowersAdd(a, b - 1);
    }
  }

  lemma ShiftWrapsBy(retryCount: nat) returns (k: int)
    ensures ShiftedOne(retryCount) == Pow2(retryCount) + k * TWO_64
  {
    if retryCount < 64 {
      k := WrapsBy(Pow2(retryCount));
    } else {
      PowersAdd(retryCount - 64, 64);
      Pow2Values();
      k := 0 - Pow2(retryCount - 64);
    }
  }

  /** Whatever the counter, the exponential delay is the signed 64-bit residue of base * 2^r. */
  lemma DelayResidue(retryCount: nat, base: int) returns (k: int)
    ensures RetryDelay(retryCount, true, Some(base)) == base * Pow2(retryCount) + k * 0x1_0000_0000_0000_0000
    ensures -0x8000_0000_0000_0000 <= RetryDelay(retryCount, true, Some(base)) < 0x8000_0000_0000_0000
  {
    var outer := WrapsBy(base * ShiftedOne(retryCount));
    var inner := ShiftWrapsBy(retryCount);
    k := base * inner + outer;
    assert base * (Pow2(retryCount) + inner * TWO_64) == base * Pow2(retryCount) + (base * inner) * TWO_64;
  }

  /** Backoff that is not exponential always waits the given delay, or ten seconds. */
  lemma FixedDelay(retryCount: nat, delay: Option<int>)
    ensures RetryDelay(retryCount, false, delay) == if delay.Some? then delay.value else 10_000_000_000
    ensures RetryDelay(retryCount, true, None) == RetryDelay(retryCount, true, Some(10_000_000_000))
  {
  }

  lemma DoublingLimit(retryCount: nat)
    ensures Pow2(retryCount) <= 536870912 <==> retryCount <= 29
    ensures retryCount > 29 ==> Pow2(retryCount) >= 1073741824
  {
    Pow2Values();
    if retryCount <= 29 {
      Pow2Monotone(retryCount, 29);
    } else {
      Pow2Monotone(30, retryCount);
      assert Pow2(30) == 2 * Pow2(29);
    }
  }

  lemma DefaultProductFits(exact: nat)
    requires exact <= 536870912 || exact >= 1073741824
    ensures DEFAULT_DELAY * exact < TWO_63 <==> exact <= 536870912
  {
  }

  /** With the default delay of ten seconds that is up to the 29th doubling. */
  lemma DefaultDelayExactIff(retryCount: nat)
    ensures RetryDelay(retryCount, true, None) == DEFAULT_DELAY * Pow2(retryCount) <==> retryCount <= 29
  {
    assert RetryDelay(retryCount, true, None) == RetryDelay(retryCount, true, Some(DEFAULT_DELAY));
    DelayExactIff(retryCount, DEFAULT_DELAY);
    DoublingLimit(retryCount);
    DefaultProductFits(Pow2(retryCount));
  }
}
