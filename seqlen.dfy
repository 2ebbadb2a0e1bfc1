/** Length bucketing for ahead-of-time tracing (run_pretrained_openfold.py, round_up_seqlen). */
module SeqLen {

  /** TRACING_INTERVAL: the bucket width, in residues. */
  const TracingInterval: nat := 50

  /** round_up_seqlen: the smallest multiple of TracingInterval that is at least seqlen. */
  function RoundUpSeqlen(seqlen: nat): (r: nat)
    ensures r % TracingInterval == 0
    ensures seqlen <= r < seqlen + TracingInterval
  {
    var n := seqlen + TracingInterval - 1;
    assert n == n / TracingInterval * TracingInterval + n % TracingInterval;
    n / TracingInterval * TracingInterval
  }

  /** No multiple of the interval that is at least seqlen lies below the rounded length. */
  lemma RoundUpIsLeast(seqlen: nat, m: nat)
    requires m % TracingInterval == 0 && seqlen <= m
    ensures RoundUpSeqlen(seqlen) <= m
  {
    var r := RoundUpSeqlen(seqlen);
    var a, b := r / TracingInterval, m / TracingInterval;
    assert r == a * TracingInterval && m == b * TracingInterval;
  }

  /** A length already on a bucket boundary is its own bucket, so rounding twice changes nothing. */
  lemma RoundUpIdempotent(seqlen: nat)
    ensures RoundUpSeqlen(RoundUpSeqlen(seqlen)) == RoundUpSeqlen(seqlen)
  {
    var r := RoundUpSeqlen(seqlen);
    RoundUpIsLeast(r, r);
  }

  /** Longer sequences never land in a smaller bucket. */
  lemma RoundUpMonotonic(a: nat, b: nat)
    requires a <= b
    ensures RoundUpSeqlen(a) <= RoundUpSeqlen(b)
  {
    RoundUpIsLeast(a, RoundUpSeqlen(b));
  }
}
