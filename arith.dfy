/** Integer facts shared by the models: multiplication is monotone, division
    is determined by quotient and remainder, and the triangular sums that the
    simulators' growing allocation sizes add up to. */
module Arith {

  lemma MulMonotone(k1: int, k2: int, b: int)
    requires k1 < k2 && b > 0
    ensures k1 * b < k2 * b
  {
    assert k2 * b - k1 * b == (k2 - k1) * b;
  }

  lemma MulBound(d: int, b: int)
    requires b > 0
    ensures d >= 1 ==> d * b >= b
    ensures d <= -1 ==> d * b <= -b
  {
    if d >= 1 {
      assert d * b - b == (d - 1) * b;
    } else if d <= -1 {
      assert d * b + b == (d + 1) * b;
    }
  }

  /** The quotient is the unique q with a == q·b + r and 0 ≤ r < b. */
  lemma DivUnique(a: int, b: int, q: int, r: int)
    requires b > 0 && 0 <= r < b && a == q * b + r
    ensures a / b == q && a % b == r
  {
    var q', r' := a / b, a % b;
    var d := q - q';
    assert d * b == q * b - q' * b;
    MulBound(d, b);
  }

  /** 5 + 10 + … + 5·k: the running total, in MB, of requests that grow by
      5 MB per iteration. */
  function StepTotal(k: nat): nat {
    if k == 0 then 0 else StepTotal(k - 1) + 5 * k
  }

  /** The running total is the triangular number 5·k(k+1)/2. */
  lemma {:induction false} StepTotalClosedForm(k: nat)
    ensures 2 * StepTotal(k) == 5 * k * (k + 1)
  {
    if k > 0 {
      StepTotalClosedForm(k - 1);
      assert 5 * k * (k + 1) == 5 * (k - 1) * k + 10 * k;
    }
  }

  lemma {:induction false} StepTotalMonotone(a: nat, b: nat)
    requires a <= b
    ensures StepTotal(a) <= StepTotal(b)
    decreases b - a
  {
    if a < b {
      StepTotalMonotone(a, b - 1);
    }
  }
}
