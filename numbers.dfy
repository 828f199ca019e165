/** Small arithmetic shared by the batching and the backoff. */
module Numbers {
  /** `Math.Min` on naturals. */
  function Min(a: nat, b: nat): (m: nat)
    ensures m <= a && m <= b
    ensures m == a || m == b
  {
    if a <= b then a else b
  }
}
