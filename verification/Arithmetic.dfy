/** Products and quotients of variables, one fact at a time. */
module Arithmetic {

  /** How many values a word has. */
  type Width = w: nat | w >= 0x1_0000_0000 witness 0x1_0000_0000

  function Pow2(k: nat): nat
    ensures Pow2(k) > 0
  {
    if k == 0 then 1 else 2 * Pow2(k - 1)
  }

  lemma IntMul(x: int, y: int, z: int)
    requires x >= 0 && y <= z
    ensures x * y <= x * z
  {
  }

  lemma Split(x: int, y: int, z: int)
    ensures x * y + x * z == x * (y + z)
  {
  }

  lemma QuotientBounds(n: nat, f: nat)
    requires f > 0
    ensures n / f * f <= n < n / f * f + f && 0 <= n / f <= n
  {
    assert n == f * (n / f) + n % f;
    if n / f <= -1 {
      IntMul(f, n / f, -1);
    }
    IntMul(n / f, 1, f);
  }

  /** A quotient is known by its remainder. */
  lemma QuotientIs(n: nat, f: nat, q: int, r: int)
    requires f > 0 && n == f * q + r && 0 <= r < f
    ensures n / f == q
  {
    QuotientBounds(n, f);
    var p := n / f;
    if p < q {
      IntMul(f, p + 1, q);
      Split(f, p, 1);
    } else if p > q {
      IntMul(f, q + 1, p);
      Split(f, q, 1);
    }
  }

  // ----- reals

  lemma CastMul(a: int, b: int)
    ensures (a * b) as real == a as real * b as real
  {
  }
}
