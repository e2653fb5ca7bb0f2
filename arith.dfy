/** Facts about Euclidean division by a positive number. */
module Arith {
  /** The only multiple of `k` strictly between `-k` and `k` is zero. */
  lemma SmallMultiple(m: int, k: int)
    requires k > 0 && -k < m * k < k
    ensures m == 0
  {
  }

  /** Division is determined by a quotient and a remainder below `k`. */
  lemma DivMod(a: nat, k: nat, q: nat, r: nat)
    requires k > 0 && r < k && a == q * k + r
    ensures a / k == q && a % k == r
  {
    var q2 := a / k;
    var r2 := a % k;
    assert (q2 - q) * k == r - r2;
    SmallMultiple(q2 - q, k);
  }

  lemma SmallModulo(i: nat, k: nat)
    requires i < k
    ensures i / k == 0 && i % k == i
  {
    DivMod(i, k, 0, i);
  }

  /** Adding `k` adds one to the quotient and keeps the remainder. */
  lemma ModuloShift(i: nat, k: nat)
    requires k > 0
    ensures (i + k) / k == i / k + 1 && (i + k) % k == i % k
  {
    assert i + k == (i / k + 1) * k + i % k;
    DivMod(i + k, k, i / k + 1, i % k);
  }

  /** Row-major order: an earlier row, or an earlier column of the same
      row, comes first. */
  lemma RowMajorBefore(xa: nat, ya: nat, xb: nat, yb: nat, w: nat)
    requires xa < w && xb < w && (ya < yb || (ya == yb && xa < xb))
    ensures ya * w + xa < yb * w + xb
  {
    if ya < yb {
      assert (yb - ya - 1) * w >= 0;
      assert yb * w == (ya + 1) * w + (yb - ya - 1) * w;
    }
  }
}
