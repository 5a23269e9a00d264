/** Congruence of integers modulo m, with the facts Montgomery arithmetic needs. */
module Congruence {

  predicate Times(k: int, m: int, x: int, y: int) {
    x - y == k * m
  }

  ghost predicate Cong(x: int, y: int, m: int) {
    exists k :: Times(k, m, x, y)
  }

  lemma By(x: int, y: int, m: int, k: int)
    requires x - y == k * m
    ensures Cong(x, y, m)
  {
    assert Times(k, m, x, y);
  }

  lemma Trans(x: int, y: int, z: int, m: int)
    requires Cong(x, y, m) && Cong(y, z, m)
    ensures Cong(x, z, m)
  {
    var k :| Times(k, m, x, y);
    var l :| Times(l, m, y, z);
    assert (k + l) * m == k * m + l * m;
    By(x, z, m, k + l);
  }

  lemma Scale(x: int, y: int, c: int, m: int)
    requires Cong(x, y, m)
    ensures Cong(x * c, y * c, m)
  {
    var k :| Times(k, m, x, y);
    assert x * c - y * c == (x - y) * c == (k * m) * c == (k * c) * m;
    By(x * c, y * c, m, k * c);
  }

  lemma Product(x: int, y: int, u: int, v: int, m: int)
    requires Cong(x, y, m) && Cong(u, v, m)
    ensures Cong(x * u, y * v, m)
  {
    Scale(x, y, u, m);
    Scale(u, v, y, m);
    assert u * y == y * u && v * y == y * v;
    Trans(x * u, y * u, y * v, m);
  }

  /** Congruence modulo a multiple of m. */
  lemma Coarser(x: int, y: int, q: int, m: int)
    requires Cong(x, y, q * m)
    ensures Cong(x, y, m)
  {
    var k :| Times(k, q * m, x, y);
    assert k * (q * m) == (k * q) * m;
    By(x, y, m, k * q);
  }

  /** An odd modulus lets a factor 2 be cancelled. */
  lemma Halve(x: int, y: int, m: int)
    requires Cong(2 * x, 2 * y, m) && m % 2 == 1
    ensures Cong(x, y, m)
  {
    var k :| Times(k, m, 2 * x, 2 * y);
    var h := (m + 1) / 2;
    var d := x - y;
    assert 2 * h == m + 1;
    assert h * (k * m) == h * (2 * d) == (2 * h) * d == m * d + d;
    assert (h * k - d) * m == h * (k * m) - d * m;
    By(x, y, m, h * k - d);
  }

  function Pow(b: int, e: nat): int {
    if e == 0 then 1 else b * Pow(b, e - 1)
  }

  lemma {:induction false} PowAdd(b: int, d: nat, e: nat)
    ensures Pow(b, d + e) == Pow(b, d) * Pow(b, e)
  {
    if d > 0 {
      PowAdd(b, d - 1, e);
      assert b * (Pow(b, d - 1) * Pow(b, e)) == (b * Pow(b, d - 1)) * Pow(b, e);
    }
  }

  /** ... and so any power of two. */
  lemma {:induction false} Cancel(x: int, y: int, k: nat, m: int)
    requires Cong(x * Pow(2, k), y * Pow(2, k), m) && m % 2 == 1
    ensures Cong(x, y, m)
  {
    if k > 0 {
      var p := Pow(2, k - 1);
      assert x * Pow(2, k) == 2 * (x * p) && y * Pow(2, k) == 2 * (y * p);
      Halve(x * p, y * p, m);
      Cancel(x, y, k - 1, m);
    }
  }

  /** The only number below m congruent to x is its remainder. */
  lemma Remainder(r: int, x: int, m: int)
    requires 0 <= r < m && Cong(r, x, m)
    ensures r == x % m
  {
    var k :| Times(k, m, r, x);
    var q := x / m;
    assert x == q * m + x % m;
    assert (k + q) * m == k * m + q * m;
    Small(r - x % m, k + q, m);
  }

  lemma Small(d: int, k: int, m: int)
    requires d == k * m && -m < d < m
    ensures d == 0
  {
    AtLeast(k, m);
    AtLeast(-k, m);
  }

  lemma AtLeast(k: int, m: int)
    ensures k >= 1 && m >= 0 ==> k * m >= m
  {
  }

  /** Quotient and remainder are the only ones. */
  lemma Div(x: int, m: int, q: int, r: int)
    requires 0 <= r < m && x == q * m + r
    ensures x / m == q && x % m == r
  {
    assert x == x / m * m + x % m;
    assert (q - x / m) * m == q * m - x / m * m;
    Small(x % m - r, q - x / m, m);
    AtLeast(q - x / m, m);
    AtLeast(x / m - q, m);
    assert (x / m - q) * m == -((q - x / m) * m);
  }
}
