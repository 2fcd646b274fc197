/** Facts about multiplication and division by the (positive) number of
    agents, used to move between turns and rounds. */
module Arith {

  /** A turn between `k * q` and `k * q + k` lies in round `q`. */
  lemma DivFromBounds(turn: nat, k: nat, q: int)
    requires k >= 1 && k * q <= turn < k * q + k
    ensures turn / k == q
  {
    var d := turn / k - q;
    assert k * d == (turn - turn % k) - k * q;
    MulWithinOne(k, d);
  }

  /** A multiple of `k` strictly between `-k` and `k` is zero. */
  lemma MulWithinOne(k: int, d: int)
    requires k >= 1
    ensures 0 - k < k * d < k ==> d == 0
  {
    if d >= 1 {
      assert k * d == k + k * (d - 1);
    } else if d <= -1 {
      assert k * d == k * (d + 1) - k;
    }
  }

  /** Multiplying by a positive `k` keeps and reflects order. */
  lemma MulLess(k: nat, a: int, b: int)
    requires k >= 1 && a < b
    ensures k * a < k * b
  {
    assert k * b == k * a + k * (b - a);
  }

  lemma MulCancelLess(k: nat, a: int, b: int)
    requires k >= 1
    ensures k * a < k * b ==> a < b
  {
    if a >= b {
      MulAtMost(k, b, a);
    }
  }

  lemma MulAtMost(k: nat, a: int, b: int)
    requires k >= 1 && a <= b
    ensures k * a <= k * b
  {
    assert k * b == k * a + k * (b - a);
  }
}
