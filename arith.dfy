/**
 * The few facts about multiplication and Euclidean division that the grid and the timer
 * need, proved once.
 */
module Arith {
  /** Multiplying by a non-negative factor keeps the order. */
  lemma MulLe(a: int, b: int, m: nat)
    requires a <= b
    ensures a * m <= b * m
  {
    var d: nat := b - a;
    assert b * m == a * m + d * m;
  }

  /** Euclidean division is unique: a quotient and a remainder in range are the ones `/`
      and `%` give. */
  lemma DivModUnique(a: int, m: nat, q: int, r: int)
    requires m > 0 && 0 <= r < m && a == q * m + r
    ensures a / m == q && a % m == r
  {
    var q', r' := a / m, a % m;
    assert a == q' * m + r';
    if q' < q {
      MulLe(q' + 1, q, m);
    } else if q' > q {
      MulLe(q + 1, q', m);
    }
  }

  /** One more step moves a count to the next remainder, wrapping to 0 at the modulus. */
  lemma ModNext(n: nat, m: nat)
    requires m >= 1
    ensures (n + 1) % m == if n % m + 1 == m then 0 else n % m + 1
    ensures (n + 1) / m == if n % m + 1 == m then n / m + 1 else n / m
  {
    var q, r := n / m, n % m;
    assert n == q * m + r;
    if r + 1 == m {
      assert n + 1 == (q + 1) * m + 0;
      DivModUnique(n + 1, m, q + 1, 0);
    } else {
      DivModUnique(n + 1, m, q, r + 1);
    }
  }
}
