/** Facts about integer multiplication, division and remainder that the fee and field arithmetic rely on. */
module Arith {

  /** Multiplying by a non-negative factor keeps the order. */
  lemma MulMonotone(a: int, b: int, c: nat)
    requires a <= b
    ensures a * c <= b * c
  {
  }

  lemma MulCancelLt(a: int, b: int, c: nat)
    requires a * c < b * c
    ensures a < b
  {
    if a >= b {
      MulMonotone(b, a, c);
    }
  }

  lemma MulCancelLe(a: int, b: int, c: nat)
    requires c > 0 && a * c <= b * c
    ensures a <= b
  {
    assert (b + 1) * c == b * c + c;
    MulCancelLt(a, b + 1, c);
  }

  /** The quotient of n by a positive d is the integer q with q * d <= n < (q + 1) * d. */
  lemma DivBounds(n: int, d: nat)
    requires d > 0
    ensures (n / d) * d <= n < (n / d + 1) * d
  {
    assert n == (n / d) * d + n % d;
  }

  /** Only one integer q satisfies q * d <= n < (q + 1) * d. */
  lemma UniqueQuotient(n: int, d: nat, q1: int, q2: int)
    requires q1 * d <= n < (q1 + 1) * d
    requires q2 * d <= n < (q2 + 1) * d
    ensures q1 == q2
  {
    MulCancelLt(q1, q2 + 1, d);
    MulCancelLt(q2, q1 + 1, d);
  }

  /** Adding a multiple of p does not change the remainder modulo p. */
  lemma ModAddMultiple(a: int, p: nat, j: int)
    requires p > 0
    ensures (a + p * j) % p == a % p
  {
    var q := a / p;
    var rem := a % p;
    assert a + p * j == p * (q + j) + rem;
    ModUnique(a + p * j, p, q + j, rem);
  }

  /** x % p is the only remainder in [0, p) of a decomposition x = p * q + rem. */
  lemma ModUnique(x: int, p: nat, q: int, rem: int)
    requires p > 0 && 0 <= rem < p && x == p * q + rem
    ensures x % p == rem
  {
    var q0 := x / p;
    DivBounds(x, p);
    assert q * p <= x < (q + 1) * p;
    UniqueQuotient(x, p, q, q0);
  }
}
