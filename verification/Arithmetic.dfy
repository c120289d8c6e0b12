/** Facts about products and quotients. */
module Arithmetic {

  lemma Monotone(a: nat, b: nat, n: nat)
    requires a < b
    ensures (a + 1) * n <= b * n
  {
    assert b * n == (a + 1) * n + (b - a - 1) * n;
  }

  lemma Quotient(size: nat, n: nat, i: nat, pos: nat)
    requires pos < n && i * n + pos == size
    ensures size / n == i && size % n == pos
  {
    var q := size / n;
    assert size == q * n + size % n;
    if q < i { Monotone(q, i, n); }
    if i < q { Monotone(i, q, n); }
  }
}
