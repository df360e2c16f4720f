/** Elementary facts about products and floored quotients, stated one at a time
    so that each proof elsewhere uses exactly the step it needs. */
module Arithmetic {

  function Product(a: nat, b: nat): nat {
    a * b
  }

  lemma MulLe(a: int, b: int, c: int)
    requires a <= b && 0 <= c
    ensures a * c <= b * c
  {
  }

  lemma MulLt(a: int, b: int, c: int)
    requires a < b && 0 < c
    ensures a * c < b * c
  {
  }

  /** Order is decided by any positive multiple. */
  lemma MulOrder(a: int, b: int, c: int)
    requires 0 < c
    ensures a < b <==> a * c < b * c
    ensures a <= b <==> a * c <= b * c
  {
    if a < b {
      MulLt(a, b, c);
    } else {
      MulLe(b, a, c);
    }
    if a <= b {
      MulLe(a, b, c);
    } else {
      MulLt(b, a, c);
    }
  }

  lemma SquareOrder(a: nat, b: nat)
    ensures a <= b <==> a * a <= b * b
    ensures a < b <==> a * a < b * b
  {
    if a <= b {
      MulLe(a, b, a);
      MulLe(a, b, b);
    } else {
      MulLt(b, a, a);
      MulLe(b, a, b);
    }
    if a < b {
      MulLe(a, b, a);
      MulLt(a, b, b);
    } else {
      MulLe(b, a, a);
      MulLe(b, a, b);
    }
  }

  /** Floored division of naturals. */
  lemma DivBounds(n: int, d: int)
    requires d > 0
    ensures n / d * d <= n < n / d * d + d
    ensures n % d == n - n / d * d
  {
  }

  /** The quotient is the largest number whose multiple still fits. */
  lemma DivIsMax(n: int, d: int, q: int)
    requires d > 0
    ensures q * d <= n <==> q <= n / d
    ensures n < q * d <==> n / d < q
  {
    var k := n / d;
    DivBounds(n, d);
    if q <= k {
      MulLe(q, k, d);
    } else {
      MulLe(k + 1, q, d);
      assert (k + 1) * d == k * d + d;
    }
  }

  lemma DivUnique(n: int, d: int, q: int)
    requires d > 0
    requires q * d <= n < q * d + d
    ensures n / d == q
  {
    DivIsMax(n, d, q);
    DivIsMax(n, d, q + 1);
    assert (q + 1) * d == q * d + d;
  }

  lemma DivMonotone(a: int, b: int, d: int)
    requires d > 0 && a <= b
    ensures a / d <= b / d
  {
    DivBounds(a, d);
    DivIsMax(b, d, a / d);
  }
}
