/** Modular arithmetic in Montgomery form on 32-bit limbs. */
module Montgomery {
  import opened Bignum
  import opened Congruence

  // ---- the two inner loops of a multiplication ----

  lemma WordBound(t: Limb, a: Limb, x: Limb, c: Limb)
    ensures t + a * x + c < 0x1_0000_0000 * 0x1_0000_0000
  {
    MulLe(a, 0xFFFF_FFFF, x);
    MulLe(x, 0xFFFF_FFFF, 0xFFFF_FFFF);
  }

  /** A 64-bit word t + a x + c as its low limb and the carry. */
  method Word(t: Limb, a: Limb, x: Limb, c: Limb) returns (lo: Limb, hi: Limb)
    ensures lo + 0x1_0000_0000 * hi == t + a * x + c
  {
    WordBound(t, a, x, c);
    var s := t + a * x + c;
    lo, hi := s % 0x1_0000_0000, s / 0x1_0000_0000;
  }

  /** One limb of an accumulated product x * (.. a ..) at weight w. */
  lemma MacStep(t: int, a: int, x: int, c: int, lo: int, hi: int, w: int)
    requires lo + 0x1_0000_0000 * hi == t + a * x + c
    ensures lo * w + hi * (0x1_0000_0000 * w) == t * w + (a * w) * x + c * w
  {
    Split(t + a * x + c, lo, hi, w);
    assert (a * x) * w == (a * w) * x;
  }

  lemma Distribute(a: int, b: int, x: int)
    ensures (a + b) * x == a * x + b * x
  {
  }

  /** t += a x on the first n limbs. */
  method MulAdd(t: array<Limb>, a: array<Limb>, x: Limb, n: nat) returns (carry: Limb)
    requires n <= a.Length && n <= t.Length && t != a
    modifies t
    ensures t[n..] == old(t[n..])
    ensures Value(t[..], n) + carry * Weight(n) == old(Value(t[..], n)) + Value(a[..], n) * x
  {
    carry := 0;
    ghost var t0 := t[..];
    for j := 0 to n
      invariant t[n..] == old(t[n..]) && forall k | j <= k < n :: t[k] == t0[k]
      invariant Value(t[..], j) + carry * Weight(j) == Value(t0, j) + Value(a[..], j) * x
    {
      ghost var was, w, c := t[..], Weight(j), carry;
      t[j], carry := Word(t[j], a[j], x, carry);
      ValueNext(was, t[..], j);
      MacStep(t0[j], a[j], x, c, t[j], carry, w);
      Distribute(Value(a[..], j), a[j] * w, x);
    }
  }

  /** The same with everything shifted down one limb: lo goes to weight w, the word was at 2^32 w. */
  lemma ShiftStep(v: int, t: int, m: int, q: int, c: int, lo: int, hi: int, w: int, u: int)
    requires lo + 0x1_0000_0000 * hi == t + m * q + c
    requires 0x1_0000_0000 * (v + c * w) == u
    ensures 0x1_0000_0000 * (v + lo * w + hi * (0x1_0000_0000 * w)) ==
                u + t * (0x1_0000_0000 * w) + (m * (0x1_0000_0000 * w)) * q
  {
    MacStep(t, m, q, c, lo, hi, w);
    var w' := 0x1_0000_0000 * w;
    assert t * w' == 0x1_0000_0000 * (t * w);
    assert (m * w') * q == 0x1_0000_0000 * ((m * w) * q) by {
      assert m * w' == 0x1_0000_0000 * (m * w);
    }
  }

  /** t + m q on the first k limbs. */
  ghost function Sum(t: seq<Limb>, m: seq<Limb>, q: nat, k: nat): int
    requires k <= |t| && k <= |m|
  {
    Value(t, k) + Value(m, k) * q
  }

  lemma ReduceFirst(t: seq<Limb>, m: seq<Limb>, q: nat, low: Limb, carry: Limb)
    requires |t| > 0 && |m| > 0 && low + 0x1_0000_0000 * carry == t[0] + m[0] * q
    requires (t[0] + m[0] * q) % 0x1_0000_0000 == 0
    ensures 0x1_0000_0000 * (Value(t, 0) + carry * Weight(0)) == Sum(t, m, q, 1)
  {
    assert Value(t, 1) == t[0] && Value(m, 1) == m[0];
  }

  lemma ReduceNext(was: seq<Limb>, now: seq<Limb>, t: seq<Limb>, m: seq<Limb>, q: nat, j: nat, c: nat, carry: nat)
    requires 1 <= j < |t| && j < |m| && j < |was| && j < |now| && was[..j - 1] == now[..j - 1]
    requires now[j - 1] + 0x1_0000_0000 * carry == t[j] + m[j] * q + c
    requires 0x1_0000_0000 * (Value(was, j - 1) + c * Weight(j - 1)) == Sum(t, m, q, j)
    ensures 0x1_0000_0000 * (Value(now, j) + carry * Weight(j)) == Sum(t, m, q, j + 1)
  {
    ValueNext(was, now, j - 1);
    ShiftStep(Value(was, j - 1), t[j], m[j], q, c, now[j - 1], carry, Weight(j - 1), Sum(t, m, q, j));
    Distribute(Value(m, j), m[j] * Weight(j), q);
  }

  /** (t + m q) / 2^32 on the first n limbs, where the division is exact; returns the carry. */
  method ReduceLow(t: array<Limb>, m: array<Limb>, q: Limb, n: nat) returns (carry: Limb)
    requires 1 <= n <= m.Length && n <= t.Length && t != m && (t[0] + m[0] * q) % 0x1_0000_0000 == 0
    modifies t
    ensures t[n - 1..] == old(t[n - 1..])
    ensures 0x1_0000_0000 * (Value(t[..], n - 1) + carry * Weight(n - 1)) == Sum(old(t[..]), m[..], q, n)
  {
    ghost var t0, m0 := t[..], m[..];
    var low;
    low, carry := Word(t[0], m[0], q, 0);
    ReduceFirst(t0, m0, q, low, carry);
    for j := 1 to n
      invariant t[n - 1..] == old(t[n - 1..]) && forall k | j <= k < n :: t[k] == t0[k]
      invariant 0x1_0000_0000 * (Value(t[..], j - 1) + carry * Weight(j - 1)) == Sum(t0, m0, q, j)
    {
      ghost var was, c := t[..], carry;
      t[j - 1], carry := Word(t[j], m[j], q, carry);
      ReduceNext(was, t[..], t0, m0, q, j, c, carry);
    }
  }

  lemma TopLimbs(s: seq<Limb>, n: nat)
    requires n + 2 <= |s|
    ensures Value(s, n + 1) == Value(s, n) + s[n] * Weight(n)
    ensures Value(s, n + 2) == Value(s, n) + s[n] * Weight(n) + s[n + 1] * Weight(n + 1)
  {
  }

  /** t += a x with the carry into the two limbs above. */
  method MulRow(t: array<Limb>, a: array<Limb>, x: Limb, n: nat)
    requires n <= a.Length && n + 2 <= t.Length && t != a
    modifies t
    ensures Value(t[..], n + 2) == old(Value(t[..], n + 1)) + Value(a[..], n) * x
  {
    ghost var t0 := t[..];
    var carry := MulAdd(t, a, x, n);
    assert t[n] == old(t[n..])[0];
    ghost var t1 := t[..];
    var lo, hi := Word(t[n], 0, 0, carry);
    AddStep(t0[n], carry, 0, lo, hi, Weight(n));
    t[n], t[n + 1] := lo, hi;
    ValueFrame(t1, t[..], n);
    TopLimbs(t0, n);
    TopLimbs(t[..], n);
  }

  lemma RowSum(v: int, s: int, c: int, t: int, u: int, lo: int, hi: int, w: int)
    requires 0x1_0000_0000 * (v + c * w) == s && lo + 0x1_0000_0000 * hi == t + c
    ensures var w' := 0x1_0000_0000 * w;
            0x1_0000_0000 * (v + lo * w + (u + hi) * w') == s + t * w' + u * (0x1_0000_0000 * w')
  {
    Split(t + c, lo, hi, w);
    var w' := 0x1_0000_0000 * w;
    assert t * w' == 0x1_0000_0000 * (t * w);
    assert u * (0x1_0000_0000 * w') == 0x1_0000_0000 * (u * w');
    assert (u + hi) * w' == u * w' + hi * w';
    assert (t + c) * w == t * w + c * w;
  }

  lemma TopFits(top: nat, w: nat, v: nat, u: nat)
    requires 0x1_0000_0000 * (v + top * w) == u < 0x1_0000_0000 * (0x1_0000_0000 * w)
    ensures top < 0x1_0000_0000
  {
    if top >= 0x1_0000_0000 {
      MulLe(0x1_0000_0000, top, w);
    }
  }

  /** t before, t1 after the low limbs, and the two limbs above from lo and hi. */
  lemma RowOk(t: seq<Limb>, t1: seq<Limb>, sum: nat, carry: Limb, lo: Limb, hi: Limb, n: nat)
    requires 1 <= n && n + 2 <= |t| == |t1| && lo + 0x1_0000_0000 * hi == t[n] + carry
    requires 0x1_0000_0000 * (Value(t1, n - 1) + carry * Weight(n - 1)) == sum
    requires sum + t[n] * Weight(n) + t[n + 1] * Weight(n + 1) < 0x1_0000_0000 * Weight(n + 1)
    ensures t[n + 1] as int + hi < 0x1_0000_0000
    ensures 0x1_0000_0000 * Value(t1[n - 1 := lo][n := t[n + 1] as int + hi], n + 1) ==
                sum + t[n] * Weight(n) + t[n + 1] * Weight(n + 1)
  {
    var w, top := Weight(n - 1), t[n + 1] as int + hi;
    RowSum(Value(t1, n - 1), sum, carry, t[n], t[n + 1], lo, hi, w);
    TopFits(top, Weight(n), Value(t1, n - 1) + lo * w, sum + t[n] * Weight(n) + t[n + 1] * Weight(n + 1));
    var t2 := t1[n - 1 := lo][n := top];
    ValueFrame(t1, t2, n - 1);
    TopLimbs(t2, n);
  }

  method Truncate(x: nat) returns (r: Limb)
    ensures x < 0x1_0000_0000 ==> r == x
  {
    r := x % 0x1_0000_0000;
  }

  /** (t + m q) / 2^32 with the two limbs above. */
  method ReduceRow(t: array<Limb>, m: array<Limb>, q: Limb, n: nat)
    requires 1 <= n <= m.Length && n + 2 <= t.Length && t != m && (t[0] + m[0] * q) % 0x1_0000_0000 == 0
    requires Value(t[..], n + 2) + Value(m[..], n) * q < 0x1_0000_0000 * Weight(n + 1)
    modifies t
    ensures 0x1_0000_0000 * Value(t[..], n + 1) == old(Value(t[..], n + 2)) + Value(m[..], n) * q
  {
    ghost var t0 := t[..];
    var carry := ReduceLow(t, m, q, n);
    assert t[n] == old(t[n - 1..])[1] && t[n + 1] == old(t[n - 1..])[2];
    ghost var t1: seq<Limb> := t[..];
    var lo, hi := Word(t[n], 0, 0, carry);
    TopLimbs(t0, n);
    RowOk(t0, t1, Sum(t0, m[..], q, n), carry, lo, hi, n);
    var top := Truncate(t[n + 1] as int + hi as int);
    t[n - 1], t[n] := lo, top;
    assert t[..] == t1[n - 1 := lo][n := top];
  }

  // ---- multiplication ----

  /** What one row keeps: the accumulator times the weight is the product so far modulo m. */
  lemma RowKeeps(t: int, u: int, t': int, a: int, x: int, q: int, m: int, w: int, ab: int, k: int)
    requires u == t + a * x && 0x1_0000_0000 * t' == u + m * q && t * w == ab + k * m
    ensures t' * (0x1_0000_0000 * w) == ab + a * (x * w) + (k + q * w) * m
  {
    assert t' * (0x1_0000_0000 * w) == (0x1_0000_0000 * t') * w;
    assert (t + a * x + m * q) * w == t * w + (a * x) * w + (m * q) * w;
    assert (a * x) * w == a * (x * w) && (m * q) * w == (q * w) * m;
    assert (k + q * w) * m == k * m + (q * w) * m;
  }

  /** The accumulator stays below 2 m. */
  lemma RowBound(t: nat, a: nat, x: Limb, q: Limb, m: nat)
    requires t < 2 * m && a < m
    ensures t + a * x + m * q < 0x1_0000_0000 * (2 * m)
  {
    MulLe(x, 0xFFFF_FFFF, a);
    MulLe(q, 0xFFFF_FFFF, m);
    assert a * x == x * a && m * q == q * m;
  }

  /** q makes the lowest limb vanish: modulo 2^32, t + m q = t + t (m minv) = t - t. */
  lemma LowVanishes(t: nat, m: nat, minv: nat)
    requires (m * minv + 1) % 0x1_0000_0000 == 0
    ensures (t + m * ((t * minv) % 0x1_0000_0000)) % 0x1_0000_0000 == 0
  {
    var z := t * minv;
    var q := z % 0x1_0000_0000;
    By(q, z, 0x1_0000_0000, -(z / 0x1_0000_0000));
    Scale(q, z, m, 0x1_0000_0000);
    By(m * minv, -1, 0x1_0000_0000, (m * minv + 1) / 0x1_0000_0000);
    Scale(m * minv, -1, t, 0x1_0000_0000);
    assert z * m == (m * minv) * t by {
      Assoc(t, minv, m);
      assert minv * m == m * minv;
    }
    assert q * m == m * q;
    Trans(m * q, z * m, -1 * t, 0x1_0000_0000);
    Vanishes(m * q, t);
  }

  lemma Vanishes(x: int, t: int)
    requires Cong(x, -1 * t, 0x1_0000_0000)
    ensures (t + x) % 0x1_0000_0000 == 0
  {
    var k :| Times(k, 0x1_0000_0000, x, -1 * t);
  }

  /** A value below 2 m, with its carry beyond n limbs, made a value below m. */
  method ReduceOnce(t: array<Limb>, top: nat, m: array<Limb>, n: nat)
    requires n <= t.Length && n <= m.Length && t != m && Value(t[..], n) + top * Weight(n) < 2 * Value(m[..], n)
    modifies t
    ensures Value(t[..], n) < Value(m[..], n)
    ensures var v := old(Value(t[..], n)) + top * Weight(n);
            Value(t[..], n) == if v < Value(m[..], n) then v else v - Value(m[..], n)
  {
    ghost var v, w := Value(t[..], n), Weight(n);
    ValueBound(t[..], n);
    ValueBound(m[..], n);
    AtLeast(top - 1, w);
    assert (top - 1) * w == top * w - w;
    var c := Cmp(t, m, n);
    if top != 0 || c >= 0 {
      var borrow := SubN(t, t, m, n);
      ValueBound(t[..], n);
    }
  }

  lemma Pow32()
    ensures Pow(2, 32) == 0x1_0000_0000
  {
    assert Pow(2, 4) == 16;
    PowAdd(2, 4, 4);
    PowAdd(2, 8, 8);
    PowAdd(2, 16, 16);
  }

  lemma {:induction false} WeightPow(n: nat)
    ensures Weight(n) == Pow(2, 32 * n)
  {
    if n > 0 {
      WeightPow(n - 1);
      Pow32();
      PowAdd(2, 32, 32 * (n - 1));
    }
  }

  // ---- Newton's iteration for the inverse of a limb ----

  /** After i rounds m x = 1 modulo this. */
  function Precision(i: nat): nat
    requires i <= 5
  {
    if i == 0 then 0x8
    else if i == 1 then 0x40 else if i == 2 then 0x1000 else if i == 3 then 0x100_0000 else 0x1_0000_0000
  }

  lemma Square(z: int, f: int)
    requires z == 1 + f
    ensures z * (2 - z) == 1 - f * f
  {
  }

  lemma SquareError(m: int, x: int, k: int, d: int)
    requires m * x - 1 == k * d
    ensures m * (x * (2 - m * x)) == 1 - (k * k) * (d * d)
  {
    var z, f := m * x, k * d;
    Assoc(m, x, 2 - z);
    Square(z, f);
    assert f * f == (k * k) * (d * d) by {
      Assoc(k, d, k * d);
      Assoc(d, k, d);
      Assoc(k, k, d * d);
      assert d * (k * d) == k * (d * d);
    }
  }

  /** Each round squares the error. */
  lemma NewtonStep(m: int, x: int, y: int, i: nat)
    requires i < 5 && Cong(m * x, 1, Precision(i)) && Cong(y, x * (2 - m * x), 0x1_0000_0000)
    ensures Cong(m * y, 1, Precision(i + 1))
  {
    var d, d' := Precision(i), Precision(i + 1);
    var k :| Times(k, d, m * x, 1);
    var z := x * (2 - m * x);
    SquareError(m, x, k, d);
    By(m * z, 1, d * d, -(k * k));
    var p, q := (d * d) / d', 0x1_0000_0000 / d';
    assert d * d == p * d' && 0x1_0000_0000 == q * d';
    Coarser(m * z, 1, p, d');
    Coarser(y, z, q, d');
    Scale(y, z, m, d');
    assert y * m == m * y && z * m == m * z;
    Trans(m * y, m * z, 1, d');
  }

  lemma NewtonStart(m: nat)
    requires m % 2 == 1
    ensures Cong(m * m, 1, 8)
  {
    var a := m / 4;
    var c := m % 4;
    assert m * m == 8 * (2 * (a * a) + a * c) + c * c by {
      assert m == 4 * a + c;
      assert (4 * a + c) * (4 * a + c) == 16 * (a * a) + 8 * (a * c) + c * c;
    }
    By(m * m, 1, 8, 2 * (a * a) + a * c + (if c == 1 then 0 else 1));
  }

  /** The negated inverse of an odd limb modulo 2^32. */
  method NegInverse(m: Limb) returns (minv: Limb)
    requires m % 2 == 1
    ensures (m * minv + 1) % 0x1_0000_0000 == 0
  {
    var x: Limb := m;
    NewtonStart(m);
    for i := 0 to 5
      invariant Cong(m * x, 1, Precision(i))
    {
      var z: int := (x as int) * (2 - (m as int) * x);
      var y: Limb := z % 0x1_0000_0000;
      By(y, z, 0x1_0000_0000, -(z / 0x1_0000_0000));
      NewtonStep(m, x, y, i);
      x := y;
    }
    minv := (0x1_0000_0000 - x) % 0x1_0000_0000;
    Negated(m, x, minv);
  }

  lemma Negated(m: nat, x: nat, minv: nat)
    requires Cong(m * x, 1, 0x1_0000_0000) && x < 0x1_0000_0000 && minv == (0x1_0000_0000 - x) % 0x1_0000_0000
    ensures (m * minv + 1) % 0x1_0000_0000 == 0
  {
    var k :| Times(k, 0x1_0000_0000, m * x, 1);
    var c := if x == 0 then 0 else 1;
    assert minv == 0x1_0000_0000 * c - x;
    assert m * minv == 0x1_0000_0000 * (m * c) - m * x;
    assert m * minv + 1 == 0x1_0000_0000 * (m * c - k);
  }

  /** One row of the multiplication: add a x, then make the lowest limb vanish and drop it. */
  method Row(t: array<Limb>, a: array<Limb>, x: Limb, m: array<Limb>, minv: Limb, n: nat) returns (ghost q: Limb)
    requires 1 <= n <= a.Length && n == m.Length && n + 2 <= t.Length && t != a && t != m
    requires (m[0] * minv + 1) % 0x1_0000_0000 == 0
    requires Value(t[..], n + 1) < 2 * Value(m[..], n) && Value(a[..], n) < Value(m[..], n)
    modifies t
    ensures Value(t[..], n + 1) < 2 * Value(m[..], n)
    ensures 0x1_0000_0000 * Value(t[..], n + 1) == old(Value(t[..], n + 1)) + Value(a[..], n) * x + Value(m[..], n) * q
  {
    ghost var v, mv := Value(t[..], n + 1), Value(m[..], n);
    MulRow(t, a, x, n);
    LowVanishes(t[0], m[0], minv);
    var f := (t[0] * minv as int) % 0x1_0000_0000;
    RowBound(v, Value(a[..], n), x, f, mv);
    ValueBound(m[..], n);
    ReduceRow(t, m, f, n);
    q := f;
  }

  lemma RowsNext(v: int, v': int, av: int, bs: seq<Limb>, i: nat, q: int, m: int, k: int)
    requires i < |bs| && v * Weight(i) == av * Value(bs, i) + k * m && 0x1_0000_0000 * v' == v + av * bs[i] + m * q
    ensures v' * Weight(i + 1) == av * Value(bs, i + 1) + (k + q * Weight(i)) * m
  {
    var w := Weight(i);
    RowKeeps(v, v + av * bs[i], v', av, bs[i], q, m, w, av * Value(bs, i), k);
    Distribute(Value(bs, i), bs[i] * w, av);
  }

  /** All rows: t = a b / R modulo m, below 2 m. */
  method Rows(t: array<Limb>, a: array<Limb>, b: array<Limb>, m: array<Limb>, minv: Limb, n: nat) returns (ghost k: int)
    requires 1 <= n <= a.Length && n <= b.Length && n == m.Length && n + 2 <= t.Length && t !in {a, b, m}
    requires (m[0] * minv + 1) % 0x1_0000_0000 == 0 && Value(a[..], n) < Value(m[..], n) && Value(t[..], n + 1) == 0
    modifies t
    ensures Value(t[..], n + 1) < 2 * Value(m[..], n)
    ensures Value(t[..], n + 1) * Weight(n) == Value(a[..], n) * Value(b[..], n) + k * Value(m[..], n)
  {
    ghost var av, bs, mv := Value(a[..], n), b[..], Value(m[..], n);
    k := 0;
    for i := 0 to n
      invariant Value(t[..], n + 1) < 2 * mv
      invariant Value(t[..], n + 1) * Weight(i) == av * Value(bs, i) + k * mv
    {
      ghost var v := Value(t[..], n + 1);
      ghost var q;
      q := Row(t, a, b[i], m, minv, n);
      RowsNext(v, Value(t[..], n + 1), av, bs, i, q, mv, k);
      k := k + q * Weight(i);
    }
  }

  /** Subtracting m does not change a value modulo m. */
  lemma Subtracted(v: int, r: int, w: int, ab: int, k: int, m: int)
    requires v * w == ab + k * m && (r == v || r == v - m)
    ensures Cong(r * w, ab, m)
  {
    if r == v {
      By(r * w, ab, m, k);
    } else {
      Distribute(v, -m, w);
      Distribute(k, -w, m);
      By(r * w, ab, m, k - w);
    }
  }

  method Copy(out: array<Limb>, t: array<Limb>, n: nat)
    requires n <= out.Length && n <= t.Length && out != t
    modifies out
    ensures Value(out[..], n) == Value(t[..], n)
  {
    for i := 0 to n
      invariant forall j | 0 <= j < i :: out[j] == t[j]
    {
      out[i] := t[i];
    }
    assert out[..][..n] == t[..][..n];
    ValueFrame(t[..], out[..], n);
  }

  /** out = a b / R modulo m, below m; out may be a or b. */
  method MontMul(out: array<Limb>, a: array<Limb>, b: array<Limb>, m: array<Limb>, minv: Limb, n: nat)
    requires 1 <= n <= a.Length && n <= b.Length && n <= out.Length && n == m.Length && out != m
    requires (m[0] * minv + 1) % 0x1_0000_0000 == 0 && Value(a[..], n) < Value(m[..], n)
    modifies out
    ensures Value(out[..], n) < Value(m[..], n)
    ensures Cong(Value(out[..], n) * Weight(n), old(Value(a[..], n)) * old(Value(b[..], n)), Value(m[..], n))
  {
    var t: array<Limb> := new Limb[n + 2](i => 0);
    ValueZero(t[..], n + 1);
    ghost var ab, mv := Value(a[..], n) * Value(b[..], n), Value(m[..], n);
    ghost var k;
    k := Rows(t, a, b, m, minv, n);
    ghost var v := Value(t[..], n + 1);
    ReduceOnce(t, t[n], m, n);
    Subtracted(v, Value(t[..], n), Weight(n), ab, k, mv);
    Copy(out, t, n);
  }

  /** Doubling modulo m. */
  method Double(a: array<Limb>, m: array<Limb>, n: nat)
    requires 1 <= n <= a.Length && n <= m.Length && a != m && Value(a[..], n) < Value(m[..], n)
    modifies a
    ensures Value(a[..], n) < Value(m[..], n)
    ensures Cong(Value(a[..], n), 2 * old(Value(a[..], n)), Value(m[..], n))
  {
    ghost var v, mv := 2 * Value(a[..], n), Value(m[..], n);
    var top := ShiftLeft(a, n);
    ReduceOnce(a, top, m, n);
    By(Value(a[..], n), v, mv, if v < mv then 0 else -1);
  }

  lemma DoubledPower(x: int, y: int, c: int, i: nat, m: int)
    requires Cong(x, c * Pow(2, i), m) && Cong(y, 2 * x, m)
    ensures Cong(y, c * Pow(2, i + 1), m)
  {
    Scale(x, c * Pow(2, i), 2, m);
    assert x * 2 == 2 * x && (c * Pow(2, i)) * 2 == c * Pow(2, i + 1);
    Trans(y, 2 * x, c * Pow(2, i + 1), m);
  }

  /** a R modulo m by 32 n doublings. */
  method Doublings(a: array<Limb>, m: array<Limb>, n: nat)
    requires 1 <= n <= a.Length && n <= m.Length && a != m && Value(a[..], n) < Value(m[..], n)
    modifies a
    ensures Value(a[..], n) < Value(m[..], n)
    ensures Cong(Value(a[..], n), old(Value(a[..], n)) * Weight(n), Value(m[..], n))
  {
    ghost var c, mv := Value(a[..], n), Value(m[..], n);
    By(c, c * Pow(2, 0), mv, 0);
    for i := 0 to 32 * n
      invariant Value(a[..], n) < mv && Cong(Value(a[..], n), c * Pow(2, i), mv)
    {
      ghost var x := Value(a[..], n);
      Double(a, m, n);
      DoubledPower(x, Value(a[..], n), c, i, mv);
    }
    WeightPow(n);
  }

  /** The multiplication in terms of Montgomery forms: of x R and y R it makes x y R. */
  lemma MontForm(r: int, a: int, b: int, x: int, y: int, n: nat, m: int)
    requires m % 2 == 1 && Cong(r * Weight(n), a * b, m) && Cong(a, x * Weight(n), m) && Cong(b, y * Weight(n), m)
    ensures Cong(r, (x * y) * Weight(n), m)
  {
    var w := Weight(n);
    Product(a, x * w, b, y * w, m);
    assert (x * w) * (y * w) == ((x * y) * w) * w by {
      Assoc(x, w, y * w);
      Assoc(x * y, w, w);
      Assoc(x, y, w * w);
      assert w * (y * w) == y * (w * w);
    }
    Trans(r * w, a * b, ((x * y) * w) * w, m);
    WeightPow(n);
    Cancel(r, (x * y) * w, 32 * n, m);
  }
}
