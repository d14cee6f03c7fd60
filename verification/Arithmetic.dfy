/** Division and powers of two, where the solver needs the steps spelled out. */
module Arithmetic {
  lemma MulBound(k: int, d: int)
    requires k >= 0
    ensures d >= 1 ==> k * d >= k
    ensures d <= -1 ==> k * d <= -k
  {
    if d >= 1 { assert k * (d - 1) >= 0; } else if d <= -1 { assert k * (-1 - d) >= 0; }
  }

  lemma DivModUnique(n: nat, k: nat, q: nat, r: nat)
    requires k > 0 && n == k * q + r && r < k
    ensures n / k == q && n % k == r
  {
    var q1, r1 := n / k, n % k;
    var d := q1 - q;
    assert k * d == k * q1 - k * q;
    MulBound(k, d);
  }

  lemma ModStep(n: nat, k: nat)
    requires k > 0
    ensures (n + 1) % k == if n % k + 1 == k then 0 else n % k + 1
    ensures (n + 1) / k == if n % k + 1 == k then n / k + 1 else n / k
  {
    var q, r := n / k, n % k;
    if r + 1 == k {
      assert k * (q + 1) == k * q + k;
      DivModUnique(n + 1, k, q + 1, 0);
    } else {
      DivModUnique(n + 1, k, q, r + 1);
    }
  }

  lemma MultipleOf(q: nat, k: nat)
    requires k > 0
    ensures (q * k) % k == 0 && (q * k) / k == q
  {
    assert q * k == k * q;
    DivModUnique(q * k, k, q, 0);
  }

  lemma MultiplesApart(j: int, q: int, u: nat)
    ensures j <= q ==> j * u <= q * u
    ensures j > q ==> j * u >= q * u + u
  {
    if j <= q {
      MulDistributes(q, j, u);
      NoNegativeProduct(q - j, u);
    } else {
      MulDistributes(j, q + 1, u);
      MulDistributes(q + 1, 1, u);
      NoNegativeProduct(j - (q + 1), u);
    }
  }

  lemma MulDistributes(a: int, b: int, u: int)
    ensures (a - b) * u == a * u - b * u
  {}

  lemma NoNegativeProduct(a: nat, b: nat)
    ensures a * b >= 0
  {}

  lemma MulAssociates(a: int, b: int, c: int)
    ensures a * (b * c) == (a * b) * c
  {}

  lemma MulMonotone(a: nat, b: nat, c: nat, d: nat)
    requires a <= c && b <= d
    ensures a * b <= c * d
  {
    assert a * b <= c * b by { assert (c - a) * b >= 0; }
    assert c * b <= c * d by { assert c * (d - b) >= 0; }
  }

  function Pow2(e: nat): (p: nat)
    ensures p > 0
  {
    if e == 0 then 1 else 2 * Pow2(e - 1)
  }

  lemma {:induction false} Pow2Sum(a: nat, b: nat)
    ensures Pow2(a + b) == Pow2(a) * Pow2(b)
    decreases a
  {
    if a > 0 {
      Pow2Sum(a - 1, b);
      MulAssociates(2, Pow2(a - 1), Pow2(b));
      assert Pow2(a) == 2 * Pow2(a - 1) && Pow2(a + b) == 2 * Pow2(a - 1 + b);
    }
  }

  lemma {:induction false} Pow2Grows(a: nat, b: nat)
    requires a <= b
    ensures Pow2(a) <= Pow2(b)
    decreases b
  {
    if a < b { Pow2Grows(a, b - 1); }
  }
}
