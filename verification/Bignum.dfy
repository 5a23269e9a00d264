/** Natural numbers as little-endian sequences of 32-bit limbs, and the carry loops on them. */
module Bignum {
  import opened Common
  import opened Congruence

  type Limb = x: nat | x < 0x1_0000_0000

  /** The weight of limb k: 2^(32 k). */
  function Weight(k: nat): (p: nat)
    ensures p > 0
  {
    if k == 0 then 1 else 0x1_0000_0000 * Weight(k - 1)
  }

  /** The value of the first k limbs. */
  function Value(s: seq<Limb>, k: nat): nat
    requires k <= |s|
  {
    if k == 0 then 0 else Value(s, k - 1) + s[k - 1] * Weight(k - 1)
  }

  lemma {:induction false} ValueFrame(s: seq<Limb>, s': seq<Limb>, k: nat)
    requires k <= |s| && k <= |s'| && s[..k] == s'[..k]
    ensures Value(s, k) == Value(s', k)
  {
    if k > 0 {
      assert s[k - 1] == s[..k][k - 1] == s'[..k][k - 1];
      assert s[..k - 1] == s[..k][..k - 1] == s'[..k - 1];
      ValueFrame(s, s', k - 1);
    }
  }

  lemma {:induction false} ValueBound(s: seq<Limb>, k: nat)
    requires k <= |s|
    ensures Value(s, k) < Weight(k)
  {
    if k > 0 {
      ValueBound(s, k - 1);
      MulLe(s[k - 1], 0xFFFF_FFFF, Weight(k - 1));
    }
  }

  lemma MulLe(a: nat, b: nat, w: nat)
    requires a <= b
    ensures a * w <= b * w
  {
  }

  lemma MulLt(a: nat, b: nat, w: nat)
    requires a < b
    ensures a * w + w <= b * w
  {
    MulLe(a + 1, b, w);
    assert (a + 1) * w == a * w + w;
  }

  /** A word split into its low limb and its carry, at weight w. */
  lemma Split(s: int, lo: int, hi: int, w: int)
    requires s == lo + 0x1_0000_0000 * hi
    ensures s * w == lo * w + hi * (0x1_0000_0000 * w)
  {
  }

  /** Limbs decide: the highest difference orders the values. */
  lemma {:induction false} ValueOrder(s: seq<Limb>, t: seq<Limb>, i: nat, n: nat)
    requires i < n <= |s| && n <= |t| && s[i] < t[i] && s[i + 1..n] == t[i + 1..n]
    ensures Value(s, n) < Value(t, n)
    decreases n
  {
    if n == i + 1 {
      ValueBound(s, i);
      MulLt(s[i], t[i], Weight(i));
    } else {
      assert s[n - 1] == s[i + 1..n][n - 2 - i] == t[i + 1..n][n - 2 - i];
      assert s[i + 1..n - 1] == s[i + 1..n][..n - 2 - i] == t[i + 1..n - 1];
      ValueOrder(s, t, i, n - 1);
    }
  }

  method Cmp(a: array<Limb>, b: array<Limb>, n: nat) returns (c: int)
    requires n <= a.Length && n <= b.Length
    ensures c == (if Value(a[..], n) < Value(b[..], n) then -1 else if Value(a[..], n) > Value(b[..], n) then 1 else 0)
  {
    var i := n;
    while i > 0
      invariant 0 <= i <= n && a[i..n] == b[i..n]
    {
      i := i - 1;
      if a[i] != b[i] {
        if a[i] < b[i] {
          ValueOrder(a[..], b[..], i, n);
          return -1;
        } else {
          ValueOrder(b[..], a[..], i, n);
          return 1;
        }
      }
    }
    assert a[..][..n] == a[0..n] == b[..][..n];
    ValueFrame(a[..], b[..], n);
    return 0;
  }

  /** The next limb of a value that is written from below. */
  lemma ValueNext(s: seq<Limb>, s': seq<Limb>, k: nat)
    requires k < |s| && k < |s'| && s[..k] == s'[..k]
    ensures Value(s', k + 1) == Value(s, k) + s'[k] * Weight(k)
  {
    ValueFrame(s, s', k);
  }

  /** out = a - b modulo 2^(32 n); out may be a or b. */
  method SubN(out: array<Limb>, a: array<Limb>, b: array<Limb>, n: nat) returns (borrow: nat)
    requires n <= a.Length && n <= b.Length && n <= out.Length
    modifies out
    ensures borrow <= 1 && out[n..] == old(out[n..])
    ensures Value(out[..], n) == old(Value(a[..], n)) - old(Value(b[..], n)) + borrow * Weight(n)
  {
    borrow := 0;
    ghost var x, y := a[..], b[..];
    for i := 0 to n
      invariant borrow <= 1 && out[n..] == old(out[n..])
      invariant forall k | i <= k < n :: a[k] == x[k] && b[k] == y[k]
      invariant Value(out[..], i) == Value(x, i) - Value(y, i) + borrow * Weight(i)
    {
      ghost var was, w := out[..], Weight(i);
      var d := a[i] - b[i] - borrow;
      ghost var b0 := borrow;
      out[i] := d % 0x1_0000_0000;
      borrow := if d < 0 then 1 else 0;
      ValueNext(was, out[..], i);
      SubStep(x[i], y[i], b0, out[i], borrow, w);
    }
  }

  lemma SubStep(a: int, b: int, c: int, o: int, c': int, w: int)
    requires o == a - b - c + 0x1_0000_0000 * c'
    ensures o * w - c' * (0x1_0000_0000 * w) == a * w - b * w - c * w
  {
  }

  lemma AddStep(a: int, b: int, c: int, o: int, c': int, w: int)
    requires o + 0x1_0000_0000 * c' == a + b + c
    ensures o * w + c' * (0x1_0000_0000 * w) == a * w + b * w + c * w
  {
    Split(a + b + c, o, c', w);
  }

  /** out = a + b modulo 2^(32 n); out may be a or b. */
  method AddN(out: array<Limb>, a: array<Limb>, b: array<Limb>, n: nat) returns (carry: nat)
    requires n <= a.Length && n <= b.Length && n <= out.Length
    modifies out
    ensures carry <= 1 && out[n..] == old(out[n..])
    ensures Value(out[..], n) + carry * Weight(n) == old(Value(a[..], n)) + old(Value(b[..], n))
  {
    carry := 0;
    ghost var x, y := a[..], b[..];
    for i := 0 to n
      invariant carry <= 1 && out[n..] == old(out[n..])
      invariant forall k | i <= k < n :: a[k] == x[k] && b[k] == y[k]
      invariant Value(out[..], i) + carry * Weight(i) == Value(x, i) + Value(y, i)
    {
      ghost var was, w := out[..], Weight(i);
      var s := a[i] + b[i] + carry;
      out[i] := s % 0x1_0000_0000;
      ghost var c0 := carry;
      carry := s / 0x1_0000_0000;
      ValueNext(was, out[..], i);
      AddStep(x[i], y[i], c0, out[i], carry, w);
    }
  }

  function High(x: Limb): nat {
    x / 0x8000_0000
  }

  /** x shifted left by one bit, with the highest bit of the limb below. */
  function Shl(x: Limb, below: Limb): Limb {
    (2 * (x as int)) % 0x1_0000_0000 + High(below)
  }

  lemma ShlParts(x: Limb, below: Limb)
    ensures Shl(x, below) as int + 0x1_0000_0000 * High(x) == x as int + x as int + High(below)
  {
  }

  /** d is s shifted left by one bit. */
  ghost predicate Doubled(s: seq<Limb>, d: seq<Limb>, n: nat)
    requires n <= |s| && n <= |d|
  {
    forall i | 0 <= i < n :: d[i] == Shl(s[i], if i == 0 then 0 else s[i - 1])
  }

  lemma {:induction false} DoubledValue(s: seq<Limb>, d: seq<Limb>, n: nat)
    requires n <= |s| && n <= |d| && Doubled(s, d, n)
    ensures Value(d, n) + (if n == 0 then 0 else High(s[n - 1]) * Weight(n)) == 2 * Value(s, n)
  {
    if n > 0 {
      DoubledValue(s, d, n - 1);
      var below: Limb := if n == 1 then 0 else s[n - 2];
      ShlParts(s[n - 1], below);
      AddStep(s[n - 1], s[n - 1], High(below), d[n - 1], High(s[n - 1]), Weight(n - 1));
    }
  }

  /** a shifted left by one bit; returns the bit that falls out. */
  method ShiftLeft(a: array<Limb>, n: nat) returns (top: nat)
    requires 1 <= n <= a.Length
    modifies a
    ensures Value(a[..], n) + top * Weight(n) == 2 * old(Value(a[..], n)) && top <= 1
  {
    ghost var s := a[..];
    top := High(a[n - 1]);
    var i := n;
    while i > 1
      invariant 1 <= i <= n && forall k | 0 <= k < i :: a[k] == s[k]
      invariant forall k | i <= k < n :: a[k] == Shl(s[k], s[k - 1])
    {
      i := i - 1;
      a[i] := Shl(a[i], a[i - 1]);
    }
    a[0] := Shl(a[0], 0);
    DoubledValue(s, a[..], n);
  }

  // ---- big-endian bytes ----

  /** The number a big-endian byte string denotes. */
  function Be(b: seq<Byte>): nat {
    if b == [] then 0 else Be(b[..|b| - 1]) * 256 + b[|b| - 1]
  }

  /** The value of the last i bytes. */
  function LowBytes(b: seq<Byte>, i: nat): nat
    requires i <= |b|
  {
    if i == 0 then 0 else LowBytes(b, i - 1) + b[|b| - i] * Pow256(i - 1)
  }

  function Pow256(k: nat): (p: nat)
    ensures p > 0
  {
    if k == 0 then 1 else 256 * Pow256(k - 1)
  }

  lemma Horner(p: int, d: int, w: int)
    ensures (p * 256 + d) * w == p * (256 * w) + d * w
  {
  }

  lemma {:induction false} BeSplit(b: seq<Byte>, i: nat)
    requires i <= |b|
    ensures Be(b) == Be(b[..|b| - i]) * Pow256(i) + LowBytes(b, i)
  {
    if i == 0 {
      assert b[..|b|] == b;
    } else {
      BeSplit(b, i - 1);
      var p := b[..|b| - i + 1];
      assert p[..|p| - 1] == b[..|b| - i] && p[|p| - 1] == b[|b| - i];
      Horner(Be(b[..|b| - i]), b[|b| - i], Pow256(i - 1));
    }
  }

  lemma BeLow(b: seq<Byte>)
    ensures Be(b) == LowBytes(b, |b|)
  {
    BeSplit(b, |b|);
  }

  lemma {:induction false} BeBound(b: seq<Byte>)
    ensures Be(b) < Pow256(|b|)
  {
    if b != [] {
      BeBound(b[..|b| - 1]);
    }
  }

  function Scale256(r: nat): nat
    requires r < 4
  {
    if r == 0 then 1 else if r == 1 then 0x100 else if r == 2 then 0x1_0000 else 0x100_0000
  }

  lemma {:induction false} Pow256Weight(i: nat)
    ensures Pow256(i) == Scale256(i % 4) * Weight(i / 4)
  {
    if i > 0 {
      Pow256Weight(i - 1);
      if i % 4 == 0 {
        assert (i - 1) % 4 == 3 && (i - 1) / 4 == i / 4 - 1;
      } else {
        assert (i - 1) % 4 == i % 4 - 1 && (i - 1) / 4 == i / 4;
      }
    }
  }

  lemma {:induction false} ValueUpdate(s: seq<Limb>, j: nat, x: Limb, n: nat)
    requires j < n <= |s|
    ensures Value(s[j := x], n) == Value(s, n) + (x - s[j]) * Weight(j)
  {
    var w := Weight(j);
    if n == j + 1 {
      ValueFrame(s, s[j := x], j);
      assert (x - s[j]) * w == x * w - s[j] * w;
    } else {
      ValueUpdate(s, j, x, n - 1);
    }
  }

  lemma {:induction false} ValueZero(s: seq<Limb>, n: nat)
    requires n <= |s| && forall k | 0 <= k < n :: s[k] == 0
    ensures Value(s, n) == 0
  {
    if n > 0 {
      ValueZero(s, n - 1);
    }
  }

  lemma {:induction false} LowBytesMono(b: seq<Byte>, i: nat, j: nat)
    requires i <= j <= |b|
    ensures LowBytes(b, i) <= LowBytes(b, j)
  {
    if i < j {
      LowBytesMono(b, i, j - 1);
      MulLe(0, b[|b| - j], Pow256(j - 1));
    }
  }

  /** A non-zero byte beyond the n limbs. */
  lemma TooLong(b: seq<Byte>, i: nat, n: nat)
    requires 4 * n <= i < |b| && b[|b| - 1 - i] != 0
    ensures Be(b) >= Weight(n)
  {
    BeLow(b);
    LowBytesMono(b, i + 1, |b|);
    MulLe(1, b[|b| - 1 - i], Pow256(i));
    Pow256Mono(4 * n, i);
    Pow256Weight(4 * n);
    assert (4 * n) / 4 == n && (4 * n) % 4 == 0;
  }

  lemma {:induction false} Pow256Mono(i: nat, j: nat)
    requires i <= j
    ensures Pow256(i) <= Pow256(j)
  {
    if i < j {
      Pow256Mono(i, j - 1);
    }
  }

  lemma Assoc(a: int, b: int, c: int)
    ensures (a * b) * c == a * (b * c)
  {
  }

  /** One more byte into its limb. */
  lemma ByteStep(s: seq<Limb>, n: nat, b: seq<Byte>, i: nat)
    requires n <= |s| && i < |b| && i / 4 < n && s[i / 4] < Scale256(i % 4) && Value(s, n) == LowBytes(b, i)
    ensures var x := s[i / 4] + b[|b| - 1 - i] * Scale256(i % 4);
            x < 256 * Scale256(i % 4) && x < 0x1_0000_0000 && Value(s[i / 4 := x], n) == LowBytes(b, i + 1)
  {
    var v, j, r := b[|b| - 1 - i], i / 4, i % 4;
    var x := s[j] + v * Scale256(r);
    assert x < 256 * Scale256(r) by {
      MulLe(v, 255, Scale256(r));
    }
    ValueUpdate(s, j, x, n);
    Pow256Weight(i);
    Assoc(v, Scale256(r), Weight(j));
  }

  /** Reads big-endian bytes into n limbs; fails exactly when they do not fit. */
  method FromBe(out: array<Limb>, n: nat, b: seq<Byte>) returns (ok: bool)
    requires n <= out.Length
    modifies out
    ensures ok <==> Be(b) < Weight(n)
    ensures ok ==> Value(out[..], n) == Be(b)
  {
    for k := 0 to n
      invariant forall j | 0 <= j < k :: out[j] == 0
    {
      out[k] := 0;
    }
    ValueZero(out[..], n);
    for i := 0 to |b|
      invariant Value(out[..], n) == LowBytes(b, i)
      invariant forall j | 0 <= j < n && 4 * j >= i :: out[j] == 0
      invariant i / 4 < n ==> out[i / 4] < Scale256(i % 4)
    {
      var v := b[|b| - 1 - i];
      if i / 4 >= n {
        if v != 0 {
          TooLong(b, i, n);
          return false;
        }
      } else {
        ByteStep(out[..], n, b, i);
        out[i / 4] := out[i / 4] + v * Scale256(i % 4);
      }
    }
    BeLow(b);
    ValueBound(out[..], n);
    return true;
  }

  /** The value below byte i. */
  ghost function Below(s: seq<Limb>, n: nat, i: nat): nat
    requires n <= |s|
  {
    if i / 4 < n then Value(s, i / 4) + (s[i / 4] % Scale256(i % 4)) * Weight(i / 4) else Value(s, n)
  }

  /** Byte i of the value. */
  function ByteOf(s: seq<Limb>, n: nat, i: nat): Byte
    requires n <= |s|
  {
    if i / 4 < n then (s[i / 4] / Scale256(i % 4)) % 256 else 0
  }

  lemma ByteDigit(x: Limb, r: nat)
    requires r < 4
    ensures x % Scale256(r) + (x / Scale256(r)) % 256 * Scale256(r) == if r < 3 then x % Scale256(r + 1) else x
  {
  }

  lemma BelowNext(s: seq<Limb>, n: nat, i: nat)
    requires n <= |s|
    ensures Below(s, n, i + 1) == Below(s, n, i) + ByteOf(s, n, i) * Pow256(i)
  {
    var j, r := i / 4, i % 4;
    if j < n {
      ByteDigit(s[j], r);
      Pow256Weight(i);
      var d, lo := ByteOf(s, n, i), s[j] % Scale256(r);
      Assoc(d, Scale256(r), Weight(j));
      assert (lo + d * Scale256(r)) * Weight(j) == lo * Weight(j) + (d * Scale256(r)) * Weight(j);
      if r < 3 {
        assert (i + 1) / 4 == j && (i + 1) % 4 == r + 1;
      } else {
        assert (i + 1) / 4 == j + 1 && (i + 1) % 4 == 0;
      }
    }
  }

  lemma DropDigit(x: int, y: int, v: int, d: int, p: int)
    requires y == x + d * p && Cong(y, v, 256 * p)
    ensures Cong(x, v, p)
  {
    Coarser(y, v, 256, p);
    assert (-d) * p == -(d * p);
    By(x, y, p, -d);
    Trans(x, y, v, p);
  }

  lemma {:induction false} BelowCong(s: seq<Limb>, n: nat, i: nat)
    requires n <= |s|
    ensures Cong(Below(s, n, i), Value(s, n), Pow256(i))
    decreases 4 * n - i
  {
    if i >= 4 * n {
      By(Below(s, n, i), Value(s, n), Pow256(i), 0);
    } else {
      BelowCong(s, n, i + 1);
      BelowNext(s, n, i);
      DropDigit(Below(s, n, i), Below(s, n, i + 1), Value(s, n), ByteOf(s, n, i), Pow256(i));
    }
  }

  lemma {:induction false} LowBytesFrame(b: seq<Byte>, c: seq<Byte>, i: nat)
    requires i <= |b| == |c| && b[|b| - i..] == c[|c| - i..]
    ensures LowBytes(b, i) == LowBytes(c, i)
  {
    if i > 0 {
      assert b[|b| - i] == b[|b| - i..][0] == c[|c| - i..][0] == c[|c| - i];
      assert b[|b| - i + 1..] == b[|b| - i..][1..] == c[|c| - i..][1..] == c[|c| - i + 1..];
      LowBytesFrame(b, c, i - 1);
    }
  }

  /** Writes the value as big-endian bytes, modulo what they can hold. */
  method ToBe(be: array<Byte>, a: array<Limb>, n: nat)
    requires n <= a.Length
    modifies be
    ensures Be(be[..]) == Value(a[..], n) % Pow256(be.Length)
  {
    var len := be.Length;
    ghost var s := a[..];
    for i := 0 to len
      invariant a[..] == s && LowBytes(be[..], i) == Below(s, n, i)
    {
      ghost var was := be[..];
      be[len - 1 - i] := ByteOf(a[..], n, i);
      LowBytesFrame(was, be[..], i);
      BelowNext(s, n, i);
    }
    BeLow(be[..]);
    BeBound(be[..]);
    BelowCong(s, n, len);
    Remainder(Be(be[..]), Value(s, n), Pow256(len));
  }
}
