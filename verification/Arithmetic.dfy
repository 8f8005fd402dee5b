/** Facts about multiplication, division and powers that several models need. */
module Arithmetic {

  function Min(a: int, b: int): int { if a <= b then a else b }

  function Max(a: int, b: int): int { if a >= b then a else b }

  function Pow2(k: nat): (r: nat)
    ensures r >= 1
  {
    if k == 0 then 1 else 2 * Pow2(k - 1)
  }

  lemma MulBounds(n: int, d: int)
    requires n >= 0
    ensures d >= 1 ==> n * d >= n
    ensures d <= -1 ==> n * d <= -n
    ensures d == 0 ==> n * d == 0
  {
    if d >= 1 { assert n * d == n * (d - 1) + n; }
    if d <= -1 { assert n * d == n * (d + 1) - n; }
  }

  lemma DivModUnique(x: int, n: nat, q: int, r: nat)
    requires n > 0 && r < n && x == n * q + r
    ensures x / n == q && x % n == r
  {
    var d := x / n - q;
    assert n * d == r - x % n;
    MulBounds(n, d);
  }

  lemma ModAddMultiple(q: nat, n: nat, r: nat)
    requires n > 0
    ensures (q * n + r) % n == r % n
  {
    assert q * n + r == n * (q + r / n) + r % n;
    DivModUnique(q * n + r, n, q + r / n, r % n);
  }

  /** Two numbers with the same remainder are at least one period apart. */
  lemma SameRemainderGap(a: nat, b: nat, n: nat)
    requires n > 0 && a % n == b % n && a < b
    ensures a + n <= b
  {
    var d := b / n - a / n;
    assert n * d == b - a;
    MulBounds(n, d);
  }

  lemma NextPeriod(a: nat, n: nat)
    requires n > 0
    ensures (a + n) % n == a % n
    ensures n >= 2 ==> (a + 1) % n != a % n
  {
    var q, r := a / n, a % n;
    assert a + n == n * (q + 1) + r;
    DivModUnique(a + n, n, q + 1, r);
    if n >= 2 && (a + 1) % n == a % n { SameRemainderGap(a, a + 1, n); assert false; }
  }

  lemma ModDouble(x: nat, h: nat)
    requires h > 0
    ensures x % (2 * h) == 2 * (x / 2 % h) + x % 2
  {
    var q, r := x / 2 / h, x / 2 % h;
    assert x / 2 == h * q + r;
    assert x == 2 * (h * q + r) + x % 2;
    assert 2 * (h * q) == (2 * h) * q;
    DivModUnique(x, 2 * h, q, 2 * r + x % 2);
  }

  lemma MulDouble(a: int, b: int)
    ensures (2 * a) * b == 2 * (a * b) == a * (2 * b)
  {
  }

  lemma MulMonotone(a: nat, b: nat, q: nat)
    requires a <= b
    ensures a * q <= b * q
  {
    assert b * q == a * q + (b - a) * q;
  }

  lemma MulAddBound(x: nat, c: nat, p: nat, q: nat)
    requires x < p && c < q
    ensures 0 <= x * q + c < p * q
  {
    MulMonotone(x + 1, p, q);
    assert (x + 1) * q == x * q + q;
  }
}
