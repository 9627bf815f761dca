/** A byte passes through a bit vector unchanged. */
module BitCast {
  lemma ThroughBits(n: int)
    requires 0 <= n < 256
    ensures ((n as bv8) as int) == n
  {
  }
}
