/** The rate-limit backoff delay of httpclient/http_response_parser.go:48-55
    (repeated verbatim at httpclient/httpclient.go:177-184). The source
    computes it in floating point as floor((2^r - 1) * 0.5) clamped to 30;
    for every retry count it can reach, that value is the integer below. */
module Backoff {

  const CeilingSecs: nat := 30

  function Pow2(n: nat): (p: nat)
    ensures p >= 1
    decreases n
  {
    if n == 0 then 1 else 2 * Pow2(n - 1)
  }

  /** The delay in seconds before retry number `retries + 1`. */
  function BackOffSeconds(retries: nat): (d: nat)
    ensures d <= CeilingSecs
  {
    var delay := (Pow2(retries) - 1) / 2;
    if delay > CeilingSecs then CeilingSecs else delay
  }

  lemma {:induction false} Pow2Monotone(a: nat, b: nat)
    requires a <= b
    ensures Pow2(a) <= Pow2(b)
    decreases b - a
  {
    if a < b {
      Pow2Monotone(a, b - 1);
    }
  }

  /** The delays of the first retries: 0, 0, 1, 3, 7, 15, then the 30 s ceiling. */
  lemma BackOffTable()
    ensures BackOffSeconds(0) == 0 && BackOffSeconds(1) == 0 && BackOffSeconds(2) == 1
    ensures BackOffSeconds(3) == 3 && BackOffSeconds(4) == 7 && BackOffSeconds(5) == 15
    ensures BackOffSeconds(6) == 30
  {
    assert Pow2(6) == 64 by {
      assert Pow2(0) == 1 && Pow2(1) == 2 && Pow2(2) == 4 && Pow2(3) == 8 && Pow2(4) == 16 && Pow2(5) == 32;
    }
  }

  /** From the sixth retry on the delay stays at the ceiling. */
  lemma BackOffSaturates(retries: nat)
    requires retries >= 6
    ensures BackOffSeconds(retries) == CeilingSecs
  {
    BackOffTable();
    Pow2Monotone(6, retries);
  }

  /** The delay never shrinks as the retry count grows. */
  lemma BackOffMonotone(a: nat, b: nat)
    requires a <= b
    ensures BackOffSeconds(a) <= BackOffSeconds(b)
  {
    Pow2Monotone(a, b);
  }
}
