/** Delivery retry delays: time.Duration arithmetic in nanoseconds, wrapping at 64 bits. */
module Backoff {

  const TWO_63: int := 0x8000_0000_0000_0000
  const TWO_64: int := 0x1_0000_0000_0000_0000

  const SECOND: int := 1_000_000_000

  predicate Duration(d: int) {
    -TWO_63 <= d < TWO_63
  }

  /** The int64 a mathematical result is truncated to. */
  function Wrap(x: int): (d: int)
    ensures Duration(d)
  {
    (x + TWO_63) % TWO_64 - TWO_63
  }

  function Pow2(n: nat): (p: nat)
    ensures p >= 1
  {
    if n == 0 then 1 else 2 * Pow2(n - 1)
  }

  /** backoff(attempts, min, max) */
  function Delay(attempts: int, min: int, max: int): int {
    var shift := (if attempts < 1 then 1 else attempts) - 1;
    if shift > 32 then max
    else
      var d := Wrap(min * Pow2(shift));
      if d <= 0 || d > max then max else d
  }

  /** The delay meant: doubling from min up to max for 33 attempts, max from then on. */
  function Intended(n: nat, min: int, max: int): int {
    if n <= 33 && min * Pow2(if n == 0 then 0 else n - 1) < max then min * Pow2(if n == 0 then 0 else n - 1) else max
  }

  /** The doubled delay overflows 64 bits and what is left of it passes for a short delay. */
  predicate Misfires(attempts: int, min: int, max: int) {
    && 1 <= attempts <= 33
    && min * Pow2(attempts - 1) >= TWO_64
    && 0 < min * Pow2(attempts - 1) % TWO_64 < max
  }

  lemma WrapCases(x: int)
    requires 0 <= x
    ensures x < TWO_63 ==> Wrap(x) == x
    ensures TWO_63 <= x < TWO_64 ==> Wrap(x) < 0
    ensures Wrap(x) > 0 ==> Wrap(x) == x % TWO_64
    ensures 0 < x % TWO_64 < TWO_63 ==> Wrap(x) == x % TWO_64
  {
    var q, r := x / TWO_64, x % TWO_64;
    assert x + TWO_63 == TWO_64 * q + (r + TWO_63);
    if r < TWO_63 {
      ModUnique(x + TWO_63, q, r + TWO_63);
    } else {
      assert x + TWO_63 == TWO_64 * (q + 1) + (r - TWO_63);
      ModUnique(x + TWO_63, q + 1, r - TWO_63);
    }
  }

  lemma ModUnique(x: int, q: int, r: int)
    requires 0 <= r < TWO_64 && x == TWO_64 * q + r
    ensures x % TWO_64 == r
  {
  }

  lemma Grows(min: int, shift: nat)
    requires 0 < min
    ensures min <= min * Pow2(shift)
  {
    assert min * (Pow2(shift) - 1) >= 0;
  }

  /** Theorem: a retry waits as long as intended if and only if the doubled delay does not misfire. */
  lemma DelayAsIntended(n: nat, min: int, max: int)
    requires 0 < min <= max < TWO_63
    ensures Delay(n, min, max) == Intended(n, min, max) <==> !Misfires(n, min, max)
  {
    if n <= 33 {
      var x := min * Pow2(if n == 0 then 0 else n - 1);
      Grows(min, if n == 0 then 0 else n - 1);
      WrapCases(x);
    }
  }

  lemma {:induction false} Pow2Monotone(a: nat, b: nat)
    requires a <= b
    ensures Pow2(a) <= Pow2(b)
  {
    if a < b {
      Pow2Monotone(a, b - 1);
    }
  }

  lemma ProductMonotone(a: int, b: int, x: int, y: int)
    requires 0 <= a <= b && 0 <= x <= y
    ensures a * x <= b * y
  {
    assert a * x <= a * y;
    assert a * y <= b * y;
  }

  lemma TwoTo32()
    ensures Pow2(32) == 0x1_0000_0000
  {
    assert Pow2(8) == 256;
    assert Pow2(16) == 65536;
    assert Pow2(24) == 16777216;
  }

  /** A least delay of at most 2^32 nanoseconds (about 4.3 seconds) never misfires. */
  lemma ShortNeverMisfires(n: nat, min: int, max: int)
    requires 0 < min <= 0x1_0000_0000
    ensures !Misfires(n, min, max)
  {
    if 1 <= n <= 33 {
      TwoTo32();
      Pow2Monotone(n - 1, 32);
      var x := min * Pow2(n - 1);
      ProductMonotone(min, 0x1_0000_0000, Pow2(n - 1), 0x1_0000_0000);
      assert x <= TWO_64;
      if x == TWO_64 {
        ModUnique(x, 1, 0);
      }
    }
  }

  /** Theorem: with such a least delay every retry waits as intended: between min and max, never less than before. */
  lemma ShortBackoff(n: nat, m: nat, min: int, max: int)
    requires 0 < min <= max < TWO_63 && min <= 0x1_0000_0000 && n <= m
    ensures Delay(n, min, max) == Intended(n, min, max)
    ensures min <= Delay(n, min, max) <= Delay(m, min, max) <= max
  {
    ShortNeverMisfires(n, min, max);
    ShortNeverMisfires(m, min, max);
    DelayAsIntended(n, min, max);
    DelayAsIntended(m, min, max);
    var i, j := if n == 0 then 0 else n - 1, if m == 0 then 0 else m - 1;
    Grows(min, i);
    Pow2Monotone(i, j);
    ProductMonotone(min, min, Pow2(i), Pow2(j));
  }

  /**
    Theorem: with such a least delay the first retry waits min, each of the next 32 twice as long as the one
    before it or max if that is less, and every later one max.
   */
  lemma DelayDoubles(n: nat, min: int, max: int)
    requires 0 < min <= max < TWO_63 && min <= 0x1_0000_0000
    ensures Delay(0, min, max) == Delay(1, min, max) == min
    ensures 1 <= n <= 32 ==>
              Delay(n + 1, min, max) == if 2 * Delay(n, min, max) < max then 2 * Delay(n, min, max) else max
    ensures n >= 34 ==> Delay(n, min, max) == max
  {
    ShortBackoff(1, 1, min, max);
    if 1 <= n <= 32 {
      ShortBackoff(n, n + 1, min, max);
      DoubledProduct(n, min);
    }
  }

  lemma DoubledProduct(n: nat, min: int)
    requires n >= 1 && 0 < min
    ensures min * Pow2(n) == 2 * (min * Pow2(n - 1))
  {
    assert Pow2(n) == 2 * Pow2(n - 1);
  }

  /** Beyond that it can: one nanosecond more, and the 33rd delay is shorter than the least delay. */
  lemma LongMisfires(max: int)
    requires 0x1_0000_0001 <= max < TWO_63
    ensures Misfires(33, 0x1_0000_0001, max) && Delay(33, 0x1_0000_0001, max) == 0x1_0000_0000
  {
    TwoTo32();
    var x := 0x1_0000_0001 * 0x1_0000_0000;
    assert 0x1_0000_0001 * Pow2(32) == x == TWO_64 * 1 + 0x1_0000_0000;
    ModUnique(x, 1, 0x1_0000_0000);
    WrapCases(x);
  }

  // ---- configuration -----------------------------------------------------------------------

  datatype Config = Config(maxAttempts: int, min: int, max: int)

  /** What New makes of a configuration. */
  function Defaulted(c: Config): Config {
    var min := if c.min <= 0 then SECOND else c.min;
    Config(if c.maxAttempts <= 0 then 5 else c.maxAttempts, min, if c.max < min then 300 * SECOND else c.max)
  }

  /**
    Defaulting always leaves a positive budget and least delay, and leaves the bounds in order unless the
    least delay exceeds both the configured maximum and the default one of five minutes.
   */
  lemma DefaultsOrdered(c: Config)
    ensures Defaulted(c).maxAttempts >= 1 && Defaulted(c).min > 0
    ensures Defaulted(c).maxAttempts == (if c.maxAttempts >= 1 then c.maxAttempts else 5)
    ensures Defaulted(c).min == if c.min >= 1 then c.min else 1_000_000_000
    ensures c.max >= Defaulted(c).min ==> Defaulted(c).max == c.max
    ensures c.max < Defaulted(c).min ==> Defaulted(c).max == 300_000_000_000
    ensures Defaulted(c).min <= Defaulted(c).max <==> !(c.max < c.min && c.min > 300_000_000_000)
    ensures Defaulted(Defaulted(c)) == Defaulted(c)
  {
  }
}
