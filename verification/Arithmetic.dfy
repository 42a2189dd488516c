// The few facts about multiplication and division by a variable that the layers above need.
module Arithmetic {

  lemma MulLess(a: int, b: int, m: nat)
    requires a < b
    ensures a * m + m <= b * m
  {
    var k := b - a - 1;
    assert k * m >= 0;
    assert b * m == (a + 1 + k) * m;
  }

  lemma MulSucc(a: int, m: int)
    ensures (a + 1) * m == a * m + m
  {
  }

  lemma DivMod(n: int, m: int)
    requires m > 0
    ensures n == (n / m) * m + n % m && 0 <= n % m < m
  {
  }

  lemma DivUnique(n: int, m: int, q: int, r: int)
    requires 0 <= r < m && n == q * m + r
    ensures n / m == q && n % m == r
  {
    DivMod(n, m);
    if n / m < q { MulLess(n / m, q, m); }
    if q < n / m { MulLess(q, n / m, m); }
  }

  function Quotient(n: nat, m: nat): (q: nat)
    requires m > 0
  {
    DivMod(n, m);
    n / m
  }

  function Remainder(n: nat, m: nat): (r: nat)
    requires m > 0
  {
    n % m
  }

  lemma QuotientUnique(n: nat, m: nat, q: nat, r: nat)
    requires r < m && n == q * m + r
    ensures Quotient(n, m) == q && Remainder(n, m) == r
  {
    DivUnique(n, m, q, r);
  }

  /** Division rounding up. */
  function CeilDiv(n: nat, m: nat): nat
    requires m > 0
  {
    (n + m - 1) / m
  }

  lemma CeilDivStep(n: nat, m: nat)
    requires m > 0 && n >= m
    ensures CeilDiv(n, m) == 1 + CeilDiv(n - m, m)
  {
    var k := n - 1;
    DivMod(k, m);
    DivUnique(k + m, m, 1 + k / m, k % m);
  }

  lemma CeilDivSmall(n: nat, m: nat)
    requires m > 0 && n <= m
    ensures CeilDiv(n, m) == if n == 0 then 0 else 1
  {
    if n == 0 { DivUnique(m - 1, m, 0, m - 1); } else { DivUnique(n + m - 1, m, 1, n - 1); }
  }
}
