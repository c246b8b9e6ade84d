/** Facts about products that the timing arguments use. */
module Arithmetic {
  lemma MulSplit(x: nat, y: nat, k: nat)
    requires x <= y
    ensures x * k + (y - x) * k == y * k
    ensures 0 <= x * k <= y * k
  {
    assert 0 <= (y - x) * k;
  }

  lemma MulSucc(x: nat, k: nat)
    ensures (x + 1) * k == x * k + k
  {
  }

  /** A multiple of a whole number of milliseconds is one. */
  lemma WholeMs(x: nat, k: nat)
    requires k % 1000 == 0
    ensures (x * k) % 1000 == 0
  {
    assert x * k == (x * (k / 1000)) * 1000;
  }
}
