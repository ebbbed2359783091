/** Minimum, and facts about multiplication and division that the proofs need one at a time. */
module Arithmetic {

  function Min(a: int, b: int): int {
    if a < b then a else b
  }

  lemma MulMonotone(k: nat, a: int, b: int)
    requires a <= b
    ensures k * a <= k * b
  {
  }

  /** A base-k remainder and quotient are determined by their combination. */
  lemma DivisionUnique(k: int, p: int, a: int, q: int, b: int)
    requires 0 <= p < k && 0 <= q < k
    requires p + k * a == q + k * b
    ensures p == q && a == b
  {
    if a < b {
      DigitBelow(k, p, a, q, b);
    } else if b < a {
      DigitBelow(k, q, b, p, a);
    }
  }

  /** A smaller quotient makes a smaller number, whatever the remainders. */
  lemma DigitBelow(k: int, p: int, a: int, q: int, b: int)
    requires 0 <= p < k && 0 <= q < k && a < b
    ensures p + k * a < q + k * b
  {
    MulMonotone(k, a + 1, b);
    assert k * (a + 1) == k * a + k;
  }

  lemma QuotientIs(o: int, k: int, q: int, r: int)
    requires 0 <= r < k && o == q * k + r
    ensures o / k == q && o % k == r
  {
    assert o == (o / k) * k + o % k;
    DivisionUnique(k, r, q, o % k, o / k);
  }

  lemma DivShift(a: int, k: int)
    requires k > 0
    ensures (a + k) / k == a / k + 1
    ensures 0 <= a < k ==> a / k == 0
  {
    QuotientIs(a + k, k, a / k + 1, a % k);
  }
}
