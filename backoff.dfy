/** The reconnect delay of `RestartBackoffAsync` (Services/DiscoBotService.cs):
    2^min(attempt, 7) seconds capped at 120, plus a jitter below 750 milliseconds. */
module Backoff {
  import opened Numbers

  const CapSeconds: nat := 120
  const MaxExponent: nat := 7
  const JitterBoundMs: nat := 750

  /** Two to the power `n`; it outgrows its exponent. */
  function Pow2(n: nat): (r: nat)
    ensures r >= n + 1
  {
    if n == 0 then 1 else 2 * Pow2(n - 1)
  }

  /** The backoff in whole seconds: two to the power of the attempt, with the exponent held at
      seven and the result capped at 120. */
  function BackoffSeconds(attempt: nat): (seconds: nat)
    ensures 1 <= seconds <= CapSeconds
  {
    Min(CapSeconds, Pow2(Min(attempt, MaxExponent)))
  }

  /** The whole delay in milliseconds: the backoff seconds plus the jitter drawn from [0, 750). */
  function DelayMs(attempt: nat, jitterMs: nat): (ms: nat)
    requires jitterMs < JitterBoundMs
    ensures ms / 1000 == BackoffSeconds(attempt)
    ensures ms % 1000 == jitterMs
  {
    BackoffSeconds(attempt) * 1000 + jitterMs
  }

  /** Attempts 1 to 6 wait 2, 4, 8, 16, 32 and 64 seconds: the backoff doubles. */
  lemma DoublesUpToSix(attempt: nat)
    requires 1 <= attempt <= 6
    ensures BackoffSeconds(attempt) == Pow2(attempt)
    ensures attempt < 6 ==> BackoffSeconds(attempt + 1) == 2 * BackoffSeconds(attempt)
  {
    assert Pow2(1) == 2 && Pow2(2) == 4 && Pow2(3) == 8;
    assert Pow2(4) == 16 && Pow2(5) == 32 && Pow2(6) == 64 && Pow2(7) == 128;
  }

  /** From attempt 7 on the backoff stays at the 120-second cap. */
  lemma CappedFromSeven(attempt: nat)
    requires attempt >= 7
    ensures BackoffSeconds(attempt) == CapSeconds
  {
  }

  /** For any real attempt the backoff lies in [2, 120] seconds. */
  lemma BackoffBounds(attempt: nat)
    requires attempt >= 1
    ensures 2 <= BackoffSeconds(attempt) <= CapSeconds
  {
  }

  /** A later attempt never waits less. */
  lemma BackoffMonotone(a: nat, b: nat)
    requires a <= b
    ensures BackoffSeconds(a) <= BackoffSeconds(b)
  {
    Pow2Monotone(Min(a, MaxExponent), Min(b, MaxExponent));
  }

  /** A larger exponent never gives a smaller power. */
  lemma {:induction false} Pow2Monotone(m: nat, n: nat)
    requires m <= n
    ensures Pow2(m) <= Pow2(n)
  {
    if m < n {
      Pow2Monotone(m, n - 1);
    }
  }

  /** The whole delay of a real attempt lies in [2 s, 120.75 s). */
  lemma DelayBounds(attempt: nat, jitterMs: nat)
    requires attempt >= 1 && jitterMs < JitterBoundMs
    ensures 2000 <= DelayMs(attempt, jitterMs) < CapSeconds * 1000 + JitterBoundMs
  {
  }
}
