/** Row-major index arithmetic. */
module Indexing {

  lemma MulNonNegative(a: int, k: int)
    requires 0 <= a && 0 <= k
    ensures 0 <= a * k
  {
  }

  lemma MulMonotone(a: int, b: int, k: int)
    requires a <= b && 0 <= k
    ensures a * k <= b * k
  {
    MulNonNegative(b - a, k);
    assert (b - a) * k == b * k - a * k;
  }

  lemma MulStrict(a: int, b: int, k: int)
    requires a < b && k >= 1
    ensures a * k < b * k
  {
    MulMonotone(a + 1, b, k);
    assert (a + 1) * k == a * k + k;
  }

  /** A row-major position determines its row and column. */
  lemma CellUnique(p: int, r: int, q: int, s: int, k: int)
    requires 0 <= r < k && 0 <= s < k
    ensures p * k + r == q * k + s ==> p == q && r == s
  {
    if p < q {
      MulMonotone(p + 1, q, k);
      assert (p + 1) * k == p * k + k;
    } else if q < p {
      MulMonotone(q + 1, p, k);
      assert (q + 1) * k == q * k + k;
    }
  }

  /** Row `p` of an m-by-k layout occupies p*k..(p+1)*k. */
  lemma RowInRange(p: int, m: int, k: int)
    requires 0 <= p < m && 0 <= k
    ensures 0 <= p * k <= p * k + k <= m * k
    ensures (p + 1) * k == p * k + k
  {
    MulNonNegative(p, k);
    MulMonotone(p + 1, m, k);
    assert (p + 1) * k == p * k + k;
  }

  lemma CellInRange(p: int, r: int, m: int, k: int)
    requires 0 <= p < m && 0 <= r < k
    ensures 0 <= p * k + r < m * k
  {
    RowInRange(p, m, k);
  }

  /** Division and remainder read row and column back. */
  lemma CellDivMod(p: int, r: int, k: int)
    requires 0 <= r < k
    ensures (p * k + r) / k == p
    ensures (p * k + r) % k == r
  {
    var x := p * k + r;
    DivModFacts(x, k);
    CellUnique(x / k, x % k, p, r, k);
  }

  lemma DivModFacts(x: int, k: int)
    requires k > 0
    ensures x == x / k * k + x % k
    ensures 0 <= x % k < k
  {
  }

  function Quotient(a: nat, b: nat): (q: nat)
    requires b > 0
    ensures q == a / b
  {
    DivModFacts(a, b);
    a / b
  }

  lemma DivInRange(x: int, m: int, k: int)
    requires 0 < k && 0 <= x < m * k
    ensures 0 <= x / k < m
  {
    DivModFacts(x, k);
    if x / k >= m {
      MulMonotone(m, x / k, k);
    }
    if x / k < 0 {
      MulMonotone(x / k, -1, k);
    }
  }

  /** Row-major layout of three nested dimensions, grouped either way. */
  lemma NestedCell(a: int, b: int, c: int, m: int, k: int)
    ensures (a * m + b) * k + c == a * (m * k) + (b * k + c)
  {
    assert (a * m + b) * k == a * m * k + b * k;
    assert a * m * k == a * (m * k);
  }

  lemma MulDivides(m: int, k: int)
    requires m > 0
    ensures m * k % m == 0 && m * k / m == k
  {
    CellDivMod(k, 0, m);
  }

  lemma MulCancel(n: int, a: int, b: int)
    requires n > 0 && n * a <= n * b
    ensures a <= b
  {
    if a > b {
      MulMonotone(b + 1, a, n);
    }
  }
}
