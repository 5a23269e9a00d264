/** The modulus context: initialisation from bytes, modular sums, and exponentiation. */
module ModArith {
  import opened Common
  import opened Congruence
  import opened Bignum
  import opened Montgomery

  const MAX_BITS := 4096

  /** A number times R^2, divided by R, is its Montgomery form. */
  lemma IntoForm(x: int, a: int, rr: int, n: nat, m: int)
    requires m % 2 == 1 && Cong(x * Weight(n), a * rr, m) && Cong(rr, Weight(n) * Weight(n), m)
    ensures Cong(x, a * Weight(n), m)
  {
    var w := Weight(n);
    Scale(rr, w * w, a, m);
    assert rr * a == a * rr && (w * w) * a == (a * w) * w by { Assoc(a, w, w); }
    Trans(x * w, a * rr, (a * w) * w, m);
    WeightPow(n);
    Cancel(x, a * w, 32 * n, m);
  }

  /** A Montgomery form divided by R is the number. */
  lemma OutOfForm(r: int, a: int, x: int, n: nat, m: int)
    requires m % 2 == 1 && Cong(r * Weight(n), a * 1, m) && Cong(a, x * Weight(n), m)
    ensures Cong(r, x, m)
  {
    Trans(r * Weight(n), a, x * Weight(n), m);
    WeightPow(n);
    Cancel(r, x, 32 * n, m);
  }

  lemma SmallBits(bits: nat, v: nat)
    requires v == 0 <==> bits == 0
    requires bits > 0 ==> Pow(2, bits - 1) <= v < Pow(2, bits)
    ensures bits < 2 <==> v < 2
  {
    if bits >= 2 {
      PowPositive(bits - 2);
      assert Pow(2, bits - 1) == 2 * Pow(2, bits - 2);
    } else if bits == 1 {
      assert Pow(2, 1) == 2 * Pow(2, 0);
    }
  }

  // ---- the bits of the exponent ----

  /** v shifted right by b bits. */
  function Shr(v: nat, b: nat): nat {
    if b == 0 then v else Shr(v, b - 1) / 2
  }

  lemma ByteShr(v: Byte)
    ensures Shr(v, 8) == 0
  {
    assert Shr(v, 1) < 128;
    assert Shr(v, 2) < 64;
    assert Shr(v, 3) < 32;
    assert Shr(v, 4) < 16;
    assert Shr(v, 5) < 8;
    assert Shr(v, 6) < 4;
    assert Shr(v, 7) < 2;
  }

  /** Square, and multiply if the bit is set: the exponent gets one more bit. */
  lemma PowBit(b: int, e: nat, bit: nat)
    requires bit <= 1
    ensures Pow(b, 2 * e + bit) == Pow(b, e) * Pow(b, e) * (if bit == 1 then b else 1)
  {
    PowAdd(b, e, e);
    PowAdd(b, 2 * e, bit);
    assert Pow(b, 1) == b * Pow(b, 0) == b;
  }

  /** The exponent after the k highest bits of v, when it was p before. */
  function Exponent(p: nat, v: nat, k: nat): nat
    requires k <= 8
  {
    if k == 0 then p else 2 * Exponent(p, v, k - 1) + Shr(v, 8 - k) % 2
  }

  lemma {:induction false} ExponentBits(p: nat, v: Byte, k: nat)
    requires k <= 8
    ensures Exponent(p, v, k) == p * Pow(2, k) + Shr(v, 8 - k)
  {
    if k == 0 {
      ByteShr(v);
    } else {
      ExponentBits(p, v, k - 1);
      assert p * Pow(2, k) == 2 * (p * Pow(2, k - 1));
      assert Shr(v, 8 - (k - 1)) == Shr(v, 8 - k) / 2;
    }
  }

  lemma ExponentByte(p: nat, v: Byte)
    ensures Exponent(p, v, 8) == p * 256 + v
  {
    ExponentBits(p, v, 8);
    assert Pow(2, 4) == 16;
    PowAdd(2, 4, 4);
  }

  // ---- sizes ----

  /** The number of bits of a limb: 32 less its leading zeros. */
  function BitLen(x: nat): nat {
    if x == 0 then 0 else 1 + BitLen(x / 2)
  }

  lemma {:induction false} BitLenOk(x: nat)
    ensures x < Pow(2, BitLen(x)) && (x > 0 ==> BitLen(x) > 0 && Pow(2, BitLen(x) - 1) <= x)
  {
    if x > 0 {
      BitLenOk(x / 2);
    }
  }

  lemma {:induction false} ValueTop(s: seq<Limb>, k: nat, n: nat)
    requires k <= n <= |s| && forall i | k <= i < n :: s[i] == 0
    ensures Value(s, n) == Value(s, k)
  {
    if k < n {
      ValueTop(s, k, n - 1);
    }
  }

  lemma BitsOk(s: seq<Limb>, i: nat)
    requires i < |s| && s[i] > 0
    ensures var b := 32 * i + BitLen(s[i]); b > 0 && Pow(2, b - 1) <= Value(s, i + 1) < Pow(2, b)
  {
    var x, l, w := s[i], BitLen(s[i]), Weight(i);
    BitLenOk(x);
    ValueBound(s, i);
    WeightPow(i);
    PowAdd(2, l, 32 * i);
    PowAdd(2, l - 1, 32 * i);
    MulLe(Pow(2, l - 1), x, w);
    MulLt(x, Pow(2, l), w);
    assert 32 * i + l == l + 32 * i && 32 * i + l - 1 == (l - 1) + 32 * i;
  }

  /** The number of bits of a value. */
  method Bits(a: array<Limb>, n: nat) returns (bits: nat)
    requires n <= a.Length
    ensures Value(a[..], n) == 0 <==> bits == 0
    ensures bits > 0 ==> Pow(2, bits - 1) <= Value(a[..], n) < Pow(2, bits)
  {
    var i := n;
    while i > 0
      invariant 0 <= i <= n && forall k | i <= k < n :: a[k] == 0
    {
      i := i - 1;
      if a[i] != 0 {
        ValueTop(a[..], i + 1, n);
        BitsOk(a[..], i);
        PowPositive(32 * i + BitLen(a[i]) - 1);
        return 32 * i + BitLen(a[i]);
      }
    }
    ValueTop(a[..], 0, n);
    return 0;
  }

  lemma {:induction false} PowPositive(k: nat)
    ensures Pow(2, k) >= 1
  {
    if k > 0 {
      PowPositive(k - 1);
    }
  }

  lemma {:induction false} Pow256Pow(k: nat)
    ensures Pow256(k) == Pow(2, 8 * k)
  {
    if k > 0 {
      Pow256Pow(k - 1);
      assert Pow(2, 4) == 16;
      PowAdd(2, 4, 4);
      PowAdd(2, 8, 8 * (k - 1));
    }
  }

  lemma {:induction false} LowSuffix(b: seq<Byte>, i: nat)
    requires i < |b|
    ensures LowBytes(b[1..], i) == LowBytes(b, i)
  {
    if i > 0 {
      LowSuffix(b, i - 1);
      assert b[1..][|b| - 1 - i] == b[|b| - i];
    }
  }

  /** The first byte counts with the highest weight. */
  lemma BeFirst(b: seq<Byte>)
    requires b != []
    ensures Be(b) == b[0] * Pow256(|b| - 1) + Be(b[1..])
  {
    BeLow(b);
    BeLow(b[1..]);
    LowSuffix(b, |b| - 1);
  }

  lemma {:induction false} ValueParity(s: seq<Limb>, n: nat)
    requires 1 <= n <= |s|
    ensures Value(s, n) % 2 == s[0] % 2
  {
    if n > 1 {
      ValueParity(s, n - 1);
      assert s[n - 1] * Weight(n - 1) == 2 * (s[n - 1] * (0x8000_0000 * Weight(n - 2)));
    } else {
      assert Value(s, 1) == s[0];
    }
  }

  lemma {:induction false} BitLenIff(x: nat, k: nat)
    ensures BitLen(x) <= k <==> x < Pow(2, k)
  {
    if k > 0 && x > 0 {
      BitLenIff(x / 2, k - 1);
    } else {
      PowPositive(k);
    }
  }

  /** Bytes without leading zeros: at most k of them exactly when the number has at most 8 k bits. */
  lemma LongBytes(b: seq<Byte>, k: nat)
    requires b != [] ==> b[0] != 0
    ensures |b| <= k <==> BitLen(Be(b)) <= 8 * k
  {
    Pow256Pow(k);
    BitLenIff(Be(b), 8 * k);
    if |b| <= k {
      BeBound(b);
      Pow256Mono(|b|, k);
    } else {
      BeFirst(b);
      MulLe(1, b[0], Pow256(|b| - 1));
      Pow256Mono(k, |b| - 1);
    }
  }

  lemma BeParity(b: seq<Byte>)
    requires b != []
    ensures Be(b) % 2 == b[|b| - 1] % 2
  {
  }

  lemma FitsLimbs(b: seq<Byte>)
    ensures Be(b) < Weight((|b| + 3) / 4)
  {
    var n := (|b| + 3) / 4;
    BeBound(b);
    Pow256Mono(|b|, 4 * n);
    Pow256Weight(4 * n);
    assert (4 * n) / 4 == n && (4 * n) % 4 == 0;
  }

  /** Drops leading zero bytes. */
  method Strip(be: seq<Byte>) returns (b: seq<Byte>)
    ensures Be(b) == Be(be) && (b != [] ==> b[0] != 0)
  {
    b := be;
    while b != [] && b[0] == 0
      invariant Be(b) == Be(be)
      decreases |b|
    {
      BeFirst(b);
      b := b[1..];
    }
  }

  /** As many limbs as the bytes need. */
  method ReadLimbs(b: seq<Byte>) returns (n: nat, m: array<Limb>)
    requires b != []
    ensures fresh(m) && 1 <= n == m.Length && Value(m[..], n) == Be(b)
  {
    n := (|b| + 3) / 4;
    m := new Limb[n](i => 0);
    FitsLimbs(b);
    var fits := FromBe(m, n, b);
  }

  /** R modulo m: 1 doubled 32 n times. */
  method PowerR(m: array<Limb>, n: nat) returns (one: array<Limb>)
    requires 1 <= n == m.Length && Value(m[..], n) > 1
    ensures fresh(one) && one.Length == n && Value(one[..], n) < Value(m[..], n)
    ensures Cong(Value(one[..], n), Weight(n), Value(m[..], n))
  {
    one := new Limb[n](i => if i == 0 then 1 else 0);
    UnitValue(one[..], n);
    Doublings(one, m, n);
  }

  /** R^2 modulo m: R modulo m doubled as often again. */
  method PowerRR(one: array<Limb>, m: array<Limb>, n: nat) returns (rr: array<Limb>)
    requires 1 <= n == m.Length == one.Length && Value(one[..], n) < Value(m[..], n)
    requires Cong(Value(one[..], n), Weight(n), Value(m[..], n))
    ensures fresh(rr) && rr.Length == n && Value(rr[..], n) < Value(m[..], n)
    ensures Cong(Value(rr[..], n), Weight(n) * Weight(n), Value(m[..], n))
  {
    rr := new Limb[n](i => 0);
    Copy(rr, one, n);
    Doublings(rr, m, n);
    ghost var w, v, mv := Weight(n), Value(one[..], n), Value(m[..], n);
    Scale(v, w, w, mv);
    Trans(Value(rr[..], n), v * w, w * w, mv);
  }

  class Modulus {
    var n: nat
    var m: array<Limb>
    var minv: Limb
    var rr: array<Limb>
    var one: array<Limb>
    var bits: nat

    /** An odd modulus of n limbs, minv = -1/m modulo 2^32, and R and R^2 modulo m for R = 2^(32 n). */
    ghost predicate Valid()
      reads this, m, rr, one
    {
      && 1 <= n == m.Length == rr.Length == one.Length && m != rr && m != one && rr != one
      && M() % 2 == 1 && M() >= 3 && (m[0] * minv + 1) % 0x1_0000_0000 == 0
      && Value(one[..], n) < M() && Cong(Value(one[..], n), Weight(n), M())
      && Value(rr[..], n) < M() && Cong(Value(rr[..], n), Weight(n) * Weight(n), M())
    }

    ghost function M(): nat
      requires n <= m.Length
      reads this, m
    {
      Value(m[..], n)
    }

    /** Buffers for numbers below the modulus. */
    predicate Fits(a: array<Limb>)
      reads this
    {
      n <= a.Length && a != m && a != rr && a != one
    }

    constructor ()
    {
      n, minv, bits := 0, 0, 0;
      m, rr, one := new Limb[0], new Limb[0], new Limb[0];
    }

    /** Fills in the context; succeeds exactly for the odd moduli from 3 up to MAX_BITS bits. */
    method Init(be: seq<Byte>) returns (ok: bool)
      modifies this
      ensures ok <==> Be(be) % 2 == 1 && Be(be) >= 3 && BitLen(Be(be)) <= MAX_BITS
      ensures ok ==> Valid() && M() == Be(be)
    {
      var b := Strip(be);
      LongBytes(b, MAX_BITS / 8);
      if b != [] {
        BeParity(b);
      }
      if b == [] || |b| > MAX_BITS / 8 || b[|b| - 1] % 2 == 0 {
        return false;
      }
      n, m := ReadLimbs(b);
      bits := Bits(m, n);
      SmallBits(bits, M());
      if bits < 2 {
        return false;
      }
      ValueParity(m[..], n);
      minv := NegInverse(m[0]);
      one := PowerR(m, n);
      rr := PowerRR(one, m, n);
      return true;
    }

    method Mul(out: array<Limb>, a: array<Limb>, b: array<Limb>)
      requires Valid() && Fits(out) && n <= a.Length && n <= b.Length && Value(a[..], n) < M()
      modifies out
      ensures Valid() && Value(out[..], n) < M()
      ensures Cong(Value(out[..], n) * Weight(n), old(Value(a[..], n)) * old(Value(b[..], n)), M())
    {
      MontMul(out, a, b, m, minv, n);
    }

    /** out = a R modulo m. */
    method ToForm(out: array<Limb>, a: array<Limb>)
      requires Valid() && Fits(out) && n <= a.Length && Value(a[..], n) < M()
      modifies out
      ensures Valid() && Value(out[..], n) < M() && Cong(Value(out[..], n), old(Value(a[..], n)) * Weight(n), M())
    {
      ghost var v, w := Value(a[..], n), Value(rr[..], n);
      Mul(out, a, rr);
      IntoForm(Value(out[..], n), v, w, n, M());
    }

    /** out = a / R modulo m. */
    method FromForm(out: array<Limb>, a: array<Limb>, ghost x: int)
      requires Valid() && Fits(out) && n <= a.Length && Value(a[..], n) < M()
      requires Cong(Value(a[..], n), x * Weight(n), M())
      modifies out
      ensures Valid() && Value(out[..], n) == x % M()
    {
      var unit: array<Limb> := new Limb[n](i => if i == 0 then 1 else 0);
      UnitValue(unit[..], n);
      ghost var v := Value(a[..], n);
      Mul(out, a, unit);
      OutOfForm(Value(out[..], n), v, x, n, M());
      Remainder(Value(out[..], n), x, M());
    }

    /** acc holds the Montgomery form of y. */
    ghost predicate Holds(acc: array<Limb>, y: int)
      requires n <= acc.Length && n <= m.Length
      reads this, m, acc
    {
      Value(acc[..], n) < M() && Cong(Value(acc[..], n), y * Weight(n), M())
    }

    /** One bit of the exponent: a squaring, and a multiplication if it is set. */
    method ExpBit(acc: array<Limb>, x: array<Limb>, bit: nat, ghost b: int, ghost e: nat)
      requires Valid() && Fits(acc) && Fits(x) && acc != x && bit <= 1 && Holds(acc, Pow(b, e)) && Holds(x, b)
      modifies acc
      ensures Valid() && Holds(acc, Pow(b, 2 * e + bit))
    {
      PowBit(b, e, bit);
      ghost var a0 := Value(acc[..], n);
      Mul(acc, acc, acc);
      MontForm(Value(acc[..], n), a0, a0, Pow(b, e), Pow(b, e), n, M());
      if bit == 1 {
        ghost var a1 := Value(acc[..], n);
        Mul(acc, acc, x);
        MontForm(Value(acc[..], n), a1, Value(x[..], n), Pow(b, e) * Pow(b, e), b, n, M());
      }
    }

    /** One byte of the exponent, from its highest bit down. */
    method ExpByte(acc: array<Limb>, x: array<Limb>, v: Byte, ghost b: int, ghost p: nat)
      requires Valid() && Fits(acc) && Fits(x) && acc != x && Holds(acc, Pow(b, p)) && Holds(x, b)
      modifies acc
      ensures Valid() && Holds(acc, Pow(b, p * 256 + v))
    {
      for k := 0 to 8
        invariant Valid() && Holds(acc, Pow(b, Exponent(p, v, k)))
      {
        ExpBit(acc, x, Shr(v, 7 - k) % 2, b, Exponent(p, v, k));
      }
      ExponentByte(p, v);
    }

    /** All bytes of the exponent. */
    method ExpBytes(acc: array<Limb>, x: array<Limb>, exp: seq<Byte>, ghost b: int)
      requires Valid() && Fits(acc) && Fits(x) && acc != x && Holds(acc, 1) && Holds(x, b)
      modifies acc
      ensures Valid() && Holds(acc, Pow(b, Be(exp)))
    {
      for i := 0 to |exp|
        invariant Valid() && Holds(acc, Pow(b, Be(exp[..i])))
      {
        assert exp[..i + 1][..i] == exp[..i];
        ExpByte(acc, x, exp[i], b, Be(exp[..i]));
      }
      assert exp[..|exp|] == exp;
    }

    /** out = base^exp modulo m, exp as big-endian bytes; out may be base. */
    method Exp(out: array<Limb>, base: array<Limb>, exp: seq<Byte>)
      requires Valid() && Fits(out) && n <= base.Length && Value(base[..], n) < M()
      modifies out
      ensures Valid() && Value(out[..], n) == Pow(old(Value(base[..], n)), Be(exp)) % M()
    {
      ghost var b := Value(base[..], n);
      var x: array<Limb> := new Limb[n](i => 0);
      var acc: array<Limb> := new Limb[n](i => 0);
      ToForm(x, base);
      Copy(acc, one, n);
      ExpBytes(acc, x, exp, b);
      FromForm(out, acc, Pow(b, Be(exp)));
    }

    /** out = a + b modulo m; out may be a or b. */
    method Add(out: array<Limb>, a: array<Limb>, b: array<Limb>)
      requires Valid() && Fits(out) && n <= a.Length && n <= b.Length && Value(a[..], n) < M() && Value(b[..], n) < M()
      modifies out
      ensures Valid() && Value(out[..], n) == (old(Value(a[..], n)) + old(Value(b[..], n))) % M()
    {
      ghost var s := Value(a[..], n) + Value(b[..], n);
      var carry := AddN(out, a, b, n);
      ReduceOnce(out, carry, m, n);
      By(Value(out[..], n), s, M(), if s < M() then 0 else -1);
      Remainder(Value(out[..], n), s, M());
    }

    /** out = a - b modulo m; out may be a or b. */
    method Sub(out: array<Limb>, a: array<Limb>, b: array<Limb>)
      requires Valid() && Fits(out) && n <= a.Length && n <= b.Length && Value(a[..], n) < M() && Value(b[..], n) < M()
      modifies out
      ensures Valid() && Value(out[..], n) == (old(Value(a[..], n)) - old(Value(b[..], n))) % M()
    {
      ghost var d := Value(a[..], n) as int - Value(b[..], n);
      var borrow := SubN(out, a, b, n);
      ValueBound(out[..], n);
      ValueBound(m[..], n);
      if borrow != 0 {
        var carry := AddN(out, out, m, n);
        ValueBound(out[..], n);
      }
      By(Value(out[..], n), d, M(), if d >= 0 then 0 else 1);
      Remainder(Value(out[..], n), d, M());
    }
  }

  lemma {:induction false} UnitValue(s: seq<Limb>, n: nat)
    requires 1 <= n <= |s| && s[0] == 1 && forall i | 1 <= i < n :: s[i] == 0
    ensures Value(s, n) == 1
  {
    if n > 1 {
      UnitValue(s, n - 1);
    } else {
      assert Value(s, 1) == Value(s, 0) + s[0] * Weight(0);
    }
  }
}
