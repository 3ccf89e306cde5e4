/** Division facts that the solver needs spelled out. */
module Arithmetic {

  lemma MulLe(a: nat, x: int, y: int)
    requires x <= y
    ensures a * x <= a * y
  {
  }

  lemma Distribute(a: int, x: int, y: int)
    ensures a * (x + y) == a * x + a * y
  {
  }

  lemma Unique(a: nat, q: int, r: int, q': int, r': int)
    requires a > 0 && a * q + r == a * q' + r' && 0 <= r < a && 0 <= r' < a
    ensures q == q' && r == r'
  {
    if q < q' {
      MulLe(a, q + 1, q');
      Distribute(a, q, 1);
    } else if q' < q {
      MulLe(a, q' + 1, q);
      Distribute(a, q', 1);
    }
  }

  lemma DivModIs(x: int, a: nat, q: int, r: int)
    requires a > 0 && x == a * q + r && 0 <= r < a
    ensures x / a == q && x % a == r
  {
    Fundamental(x, a);
    Unique(a, q, r, x / a, x % a);
  }

  lemma Fundamental(x: int, a: nat)
    requires a > 0
    ensures x == a * (x / a) + x % a && 0 <= x % a < a
  {
  }

  lemma AddMultiple(x: int, k: int, a: nat)
    requires a > 0
    ensures (x + a * k) % a == x % a
    ensures (x + a * k) / a == x / a + k
  {
    Fundamental(x, a);
    Distribute(a, x / a, k);
    DivModIs(x + a * k, a, x / a + k, x % a);
  }

  lemma SumOfMultiples(x: int, y: int, a: nat)
    requires a > 0 && y % a == 0
    ensures (x + y) % a == x % a
    ensures (x - y) % a == x % a
  {
    Fundamental(y, a);
    AddMultiple(x, y / a, a);
    AddMultiple(x, -(y / a), a);
    Distribute(a, y / a, -(y / a));
  }
}
