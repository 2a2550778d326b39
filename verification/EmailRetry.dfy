/** Retry delays: exponential back-off with a cap and a random jitter of one fifth. */
module EmailRetry {

  const RETRY_BASE_DELAY_MS := 30_000
  const RETRY_CAP_DELAY_MS := 1_800_000
  const MIN_DELAY_MS := 1_000

  function Pow2(n: nat): nat {
    if n == 0 then 1 else 2 * Pow2(n - 1)
  }

  function Min(a: int, b: int): int { if a < b then a else b }

  function Max(a: int, b: int): int { if a < b then b else a }

  /** Math.round: to the nearest integer, halves up. */
  function Round(x: real): int {
    (x + 0.5).Floor
  }

  function BackoffMs(attempt: int): int {
    Min(RETRY_CAP_DELAY_MS, RETRY_BASE_DELAY_MS * Pow2(Max(0, attempt - 1)))
  }

  /** `draw` is the random number of the call, at least 0 and below 1. */
  function Jittered(exp: real, draw: real): real {
    exp + (draw * 2.0 - 1.0) * (exp * 0.2)
  }

  function RetryDelayMs(attempt: int, draw: real): int {
    Max(MIN_DELAY_MS, Round(Jittered(BackoffMs(attempt) as real, draw)))
  }

  /** The delay stays within one fifth of the back-off, which caps at half an hour. */
  lemma DelayBounds(attempt: int, draw: real)
    requires 0.0 <= draw < 1.0
    ensures 5 * RetryDelayMs(attempt, draw) >= 4 * BackoffMs(attempt)
    ensures 5 * RetryDelayMs(attempt, draw) <= 6 * BackoffMs(attempt)
    ensures MIN_DELAY_MS <= RetryDelayMs(attempt, draw) <= 2_160_000
  {
    PowPositive(Max(0, attempt - 1));
    BackoffDivisible(attempt);
    var k := BackoffMs(attempt) / 15;
    var exp := BackoffMs(attempt) as real;
    JitterRange(exp, draw);
    FifthsAsReals(BackoffMs(attempt), k);
    RoundBetween(Jittered(exp, draw), 12 * k, 18 * k);
  }

  lemma FifthsAsReals(b: int, k: int)
    requires b == 15 * k
    ensures (12 * k) as real == b as real * 0.8 && (18 * k) as real == b as real * 1.2
  {
    var kr := k as real;
    assert (12 * k) as real == 12.0 * kr && (15 * k) as real == 15.0 * kr && (18 * k) as real == 18.0 * kr;
  }

  lemma RoundBetween(x: real, lo: int, hi: int)
    requires lo as real <= x <= hi as real
    ensures lo <= Round(x) <= hi
  {
  }

  lemma PowPositive(n: nat)
    ensures Pow2(n) >= 1
  {
  }

  lemma BackoffDivisible(attempt: int)
    ensures BackoffMs(attempt) % 15 == 0
  {
    var p := Pow2(Max(0, attempt - 1));
    assert RETRY_BASE_DELAY_MS * p == 15 * (2_000 * p);
  }

  lemma JitterRange(exp: real, draw: real)
    requires 0.0 <= draw < 1.0 && exp >= 0.0
    ensures exp * 0.8 <= Jittered(exp, draw) <= exp * 1.2
  {
    Scale(draw * 2.0 - 1.0, exp * 0.2);
  }

  lemma Scale(d: real, j: real)
    requires -1.0 <= d <= 1.0 && j >= 0.0
    ensures -j <= d * j <= j
  {
    if d >= 0.0 {
      Product(d, j);
      Product(1.0 - d, j);
      assert (1.0 - d) * j == j - d * j;
    } else {
      Product(-d, j);
      Product(1.0 + d, j);
      assert (1.0 + d) * j == j + d * j;
      assert (-d) * j == -(d * j);
    }
  }

  lemma Product(a: real, b: real)
    requires a >= 0.0 && b >= 0.0
    ensures a * b >= 0.0
  {
  }

  /** All four retries together wait between six and nine minutes. */
  lemma FourRetriesWait(a: real, b: real, c: real, d: real)
    requires 0.0 <= a < 1.0 && 0.0 <= b < 1.0 && 0.0 <= c < 1.0 && 0.0 <= d < 1.0
    ensures 360_000 <= RetryDelayMs(1, a) + RetryDelayMs(2, b) + RetryDelayMs(3, c) + RetryDelayMs(4, d) <= 540_000
  {
    DelayBounds(1, a);
    DelayBounds(2, b);
    DelayBounds(3, c);
    DelayBounds(4, d);
    assert BackoffMs(1) == 30_000 && BackoffMs(2) == 60_000;
    assert Pow2(2) == 4 && Pow2(3) == 8;
    assert BackoffMs(3) == 120_000 && BackoffMs(4) == 240_000;
  }

  /** The back-off starts at half a minute and doubles up to half an hour. */
  lemma BackoffDoubles(attempt: int)
    ensures attempt <= 1 ==> BackoffMs(attempt) == 30_000
    ensures attempt >= 1 ==>
              BackoffMs(attempt + 1) == if 2 * BackoffMs(attempt) < 1_800_000 then 2 * BackoffMs(attempt) else 1_800_000
  {
    if attempt >= 1 {
      var p := Pow2(attempt - 1);
      assert Pow2(attempt) == 2 * p;
    }
  }

  /** The larger the draw the longer the wait; a draw in the middle waits the back-off itself. */
  lemma DelayGrows(attempt: int, a: real, b: real)
    requires 0.0 <= a <= b < 1.0
    ensures RetryDelayMs(attempt, a) <= RetryDelayMs(attempt, b)
    ensures RetryDelayMs(attempt, 0.5) == BackoffMs(attempt)
  {
    PowPositive(Max(0, attempt - 1));
    var exp := BackoffMs(attempt) as real;
    Product(b - a, exp);
    assert Jittered(exp, b) - Jittered(exp, a) == (b - a) * exp * 0.4;
    assert Jittered(exp, 0.5) == exp;
    RoundBetween(exp, BackoffMs(attempt), BackoffMs(attempt));
  }
}
