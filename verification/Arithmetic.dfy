/** Quotients and remainders of a number written as a multiple and a rest. */
module Arithmetic {
  lemma {:induction false} LargeMultiple(m: nat, k: int)
    requires k != 0
    ensures m * k >= m || m * k + m <= 0
    decreases if k < 0 then -k else k
  {
    if k > 1 {
      LargeMultiple(m, k - 1);
      assert m * k == m * (k - 1) + m;
    } else if k < -1 {
      LargeMultiple(m, k + 1);
      assert m * k == m * (k + 1) - m;
    }
  }

  lemma DivisionIs(x: nat, m: nat, q: nat, r: nat)
    requires r < m && x == m * q + r
    ensures x / m == q && x % m == r
  {
    var k := x / m - q;
    assert m * k == r - x % m;
    if k != 0 {
      LargeMultiple(m, k);
      assert false;
    }
  }
}
