/** The few facts about products and quotients the other modules need. */
module Arithmetic {

  lemma MulOrder(x: nat, y: nat, d: nat)
    requires x <= y
    ensures x * d <= y * d
  {
    assert y * d == x * d + (y - x) * d;
  }

  lemma NextMultiple(k: nat, d: nat)
    ensures 0 <= k * d && (k + 1) * d == k * d + d
  {
  }

  /** k times d, added up. */
  function Multiple(k: nat, d: nat): nat {
    if k == 0 then 0 else d + Multiple(k - 1, d)
  }

  lemma {:induction false} MultipleIsProduct(k: nat, d: nat)
    ensures Multiple(k, d) == k * d
  {
    if 0 < k {
      MultipleIsProduct(k - 1, d);
      NextMultiple(k - 1, d);
    }
  }

  lemma QuotientAtLeast(k: nat, d: nat, n: nat)
    requires 0 < d && k * d <= n
    ensures k <= n / d
  {
    var q := n / d;
    if q < k {
      MulOrder(q + 1, k, d);
      assert false;
    }
  }
}
