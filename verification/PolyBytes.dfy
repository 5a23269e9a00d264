/** Little-endian bytes, and the 26-bit limbs that Poly1305 cuts them into. */
module PolyBytes {
  import opened Common
  import opened Congruence
  import opened PolyArith

  /** The number a byte string stands for, least significant byte first. */
  function Le(s: seq<Byte>): (v: int)
    ensures v >= 0
  {
    if s == [] then 0 else s[0] + 256 * Le(s[1..])
  }

  lemma {:induction false} LeConcat(s: seq<Byte>, t: seq<Byte>)
    ensures Le(s + t) == Le(s) + Pow(256, |s|) * Le(t)
  {
    if s == [] {
      assert s + t == t;
    } else {
      LeConcat(s[1..], t);
      assert (s + t)[1..] == s[1..] + t;
      assert 256 * (Pow(256, |s| - 1) * Le(t)) == Pow(256, |s|) * Le(t);
    }
  }

  lemma {:induction false} LeZeros(s: seq<Byte>)
    requires forall i :: 0 <= i < |s| ==> s[i] == 0
    ensures Le(s) == 0
  {
    if s != [] {
      LeZeros(s[1..]);
    }
  }

  /** A 32-bit word from its bytes. */
  function Word4(a: int, b: int, c: int, d: int): int {
    a + 0x100 * b + 0x1_0000 * c + 0x100_0000 * d
  }

  /** The 32-bit word at offset k. */
  function Word(m: seq<Byte>, k: nat): (w: int)
    requires k + 4 <= |m|
    ensures 0 <= w < 0x1_0000_0000
  {
    Word4(m[k], m[k + 1], m[k + 2], m[k + 3])
  }

  lemma Le4(s: seq<Byte>)
    requires |s| == 4
    ensures Le(s) == Word(s, 0)
  {
    assert Le(s[1..]) == s[1] as int + 256 * Le(s[1..][1..]);
    assert s[1..][1..] == s[2..] && s[2..][1..] == s[3..] && s[3..][1..] == [];
    assert Le(s[2..]) == s[2] as int + 256 * Le(s[3..]);
    assert Le(s[3..]) == s[3] as int + 256 * Le([]);
  }

  lemma LeFour(m: seq<Byte>, k: nat)
    requires k + 4 <= |m|
    ensures Le(m[k..]) == Word(m, k) + 0x1_0000_0000 * Le(m[k + 4..])
  {
    assert m[k..] == m[k..k + 4] + m[k + 4..];
    Le4(m[k..k + 4]);
    LeConcat(m[k..k + 4], m[k + 4..]);
    assert Pow(256, 4) == 0x1_0000_0000;
  }

  /** Sixteen bytes as four 32-bit words. */
  function Words(a: int, b: int, c: int, d: int): int {
    a + 0x1_0000_0000 * b + 0x1_0000_0000_0000_0000 * c + 0x1_0000_0000_0000_0000_0000_0000 * d
  }

  lemma Le16(m: seq<Byte>)
    requires |m| == 16
    ensures Le(m) == Words(Word(m, 0), Word(m, 4), Word(m, 8), Word(m, 12))
  {
    LeFour(m, 0);
    LeFour(m, 4);
    LeFour(m, 8);
    LeFour(m, 12);
    assert m == m[0..] && m[16..] == [];
  }

  /** The bytes of a 32-bit word. */
  function WordBytes(w: int): (s: seq<Byte>)
    requires 0 <= w < 0x1_0000_0000
    ensures |s| == 4 && Word(s, 0) == w
  {
    FourBytes(w);
    [w % 256, w / 0x100 % 256, w / 0x1_0000 % 256, w / 0x100_0000]
  }

  lemma FourBytes(w: int)
    requires 0 <= w < 0x1_0000_0000
    ensures AreBytes(w % 256, w / 0x100 % 256, w / 0x1_0000 % 256, w / 0x100_0000)
    ensures Word4(w % 256, w / 0x100 % 256, w / 0x1_0000 % 256, w / 0x100_0000) == w
  {
    var w1 := w / 0x100;
    var w2 := w1 / 0x100;
    Div(w, 0x1_0000, w2, w1 % 0x100 * 0x100 + w % 0x100);
    Div(w, 0x100_0000, w2 / 0x100, w2 % 0x100 * 0x1_0000 + w1 % 0x100 * 0x100 + w % 0x100);
  }

  /** A block cut into limbs of 26 bits, the last of 24. */
  function Load(m: seq<Byte>): (l: Limbs)
    requires |m| == 16
  {
    Limbs(Word(m, 0) % 0x400_0000, Word(m, 3) / 4 % 0x400_0000, Word(m, 6) / 16 % 0x400_0000,
          Word(m, 9) / 64 % 0x400_0000, Word(m, 12) / 256)
  }

  predicate AreBytes(a: int, b: int, c: int, d: int) {
    0 <= a < 256 && 0 <= b < 256 && 0 <= c < 256 && 0 <= d < 256
  }

  // Where the limb boundaries cut the bytes they fall into.

  lemma Cut0(a: int, b: int, c: int, d: int)
    requires AreBytes(a, b, c, d)
    ensures Word4(a, b, c, d) % 0x400_0000 == a + 0x100 * b + 0x1_0000 * c + 0x100_0000 * (d % 4)
  {
    Div(Word4(a, b, c, d), 0x400_0000, d / 4, a + 0x100 * b + 0x1_0000 * c + 0x100_0000 * (d % 4));
  }

  lemma Cut1(a: int, b: int, c: int, d: int)
    requires AreBytes(a, b, c, d)
    ensures Word4(a, b, c, d) / 4 % 0x400_0000 == a / 4 + 0x40 * b + 0x4000 * c + 0x40_0000 * (d % 16)
  {
    Div(Word4(a, b, c, d), 4, a / 4 + 0x40 * b + 0x4000 * c + 0x40_0000 * d, a % 4);
    Div(a / 4 + 0x40 * b + 0x4000 * c + 0x40_0000 * d, 0x400_0000, d / 16,
        a / 4 + 0x40 * b + 0x4000 * c + 0x40_0000 * (d % 16));
  }

  lemma Cut2(a: int, b: int, c: int, d: int)
    requires AreBytes(a, b, c, d)
    ensures Word4(a, b, c, d) / 16 % 0x400_0000 == a / 16 + 0x10 * b + 0x1000 * c + 0x10_0000 * (d % 64)
  {
    Div(Word4(a, b, c, d), 16, a / 16 + 0x10 * b + 0x1000 * c + 0x10_0000 * d, a % 16);
    Div(a / 16 + 0x10 * b + 0x1000 * c + 0x10_0000 * d, 0x400_0000, d / 64,
        a / 16 + 0x10 * b + 0x1000 * c + 0x10_0000 * (d % 64));
  }

  lemma Cut3(a: int, b: int, c: int, d: int)
    requires AreBytes(a, b, c, d)
    ensures Word4(a, b, c, d) / 64 % 0x400_0000 == a / 64 + 4 * b + 0x400 * c + 0x4_0000 * d
  {
  }

  lemma Cut4(a: int, b: int, c: int, d: int)
    requires AreBytes(a, b, c, d)
    ensures Word4(a, b, c, d) / 256 == b + 0x100 * c + 0x1_0000 * d
  {
  }

  /** The limbs of a block stand for the number its bytes stand for. */
  lemma LoadValue(m: seq<Byte>)
    requires |m| == 16
    ensures Val(Load(m)) == Le(m)
    ensures 0 <= Load(m).x0 < 0x400_0000 && 0 <= Load(m).x1 < 0x400_0000 && 0 <= Load(m).x2 < 0x400_0000
    ensures 0 <= Load(m).x3 < 0x400_0000 && 0 <= Load(m).x4 < 0x100_0000
  {
    Cut0(m[0], m[1], m[2], m[3]);
    Cut1(m[3], m[4], m[5], m[6]);
    Cut2(m[6], m[7], m[8], m[9]);
    Cut3(m[9], m[10], m[11], m[12]);
    Cut4(m[12], m[13], m[14], m[15]);
    Le16(m);
  }

  /** The clamping of section 2.5 of RFC 8439: the bits of r that must be zero, byte by byte. */
  function ClampByte(i: int, b: Byte): Byte {
    if i == 3 || i == 7 || i == 11 || i == 15 then b % 16
    else if i == 4 || i == 8 || i == 12 then b - b % 4
    else b
  }

  function Clamp(m: seq<Byte>): (c: seq<Byte>)
    ensures |c| == |m|
  {
    seq(|m|, i requires 0 <= i < |m| => ClampByte(i, m[i]))
  }

  // The masks of poly_init, as remainders and quotients.

  function Mask1(x: int): int {
    x % 4 + x / 0x100 % 0x4_0000 * 0x100
  }

  function Mask2(x: int): int {
    x % 0x100 + x / 0x4000 % 0x1000 * 0x4000
  }

  function Mask3(x: int): int {
    x % 0x4000 + x / 0x10_0000 % 0x40 * 0x10_0000
  }

  function LoadClamped(m: seq<Byte>): (l: Limbs)
    requires |m| == 16
  {
    Limbs(Word(m, 0) % 0x400_0000, Mask1(Word(m, 3) / 4), Mask2(Word(m, 6) / 16),
          Mask3(Word(m, 9) / 64), Word(m, 12) / 256 % 0x10_0000)
  }

  lemma Nibble(a: int)
    requires 0 <= a < 256
    ensures a % 16 / 4 == a / 4 % 4 && a / 4 == 4 * (a / 16) + a / 4 % 4 && a == 16 * (a / 16) + a % 16
  {
  }

  lemma Clamp1(a: int, b: int, c: int, d: int)
    requires AreBytes(a, b, c, d)
    ensures Mask1(Word4(a, b, c, d) / 4) == Word4(a % 16, b - b % 4, c, d) / 4 % 0x400_0000
  {
    var x := a / 4 + 0x40 * b + 0x4000 * c + 0x40_0000 * d;
    Nibble(a);
    Nibble(d);
    Div(Word4(a, b, c, d), 4, x, a % 4);
    Div(x, 4, a / 16 + 0x10 * b + 0x1000 * c + 0x10_0000 * d, a / 4 % 4);
    Div(x, 0x100, b / 4 + 0x40 * c + 0x4000 * d, a / 4 + 0x40 * (b % 4));
    Div(b / 4 + 0x40 * c + 0x4000 * d, 0x4_0000, d / 16, b / 4 + 0x40 * c + 0x4000 * (d % 16));
    Cut1(a % 16, b - b % 4, c, d);
  }

  lemma Clamp2(a: int, b: int, c: int, d: int)
    requires AreBytes(a, b, c, d)
    ensures Mask2(Word4(a, b, c, d) / 16) == Word4(a, b % 16, c - c % 4, d) / 16 % 0x400_0000
  {
    var x := a / 16 + 0x10 * b + 0x1000 * c + 0x10_0000 * d;
    Nibble(b);
    Div(Word4(a, b, c, d), 16, x, a % 16);
    Div(x, 0x100, b / 16 + 0x10 * c + 0x1000 * d, a / 16 + 0x10 * (b % 16));
    Div(x, 0x4000, c / 4 + 0x40 * d, a / 16 + 0x10 * b + 0x1000 * (c % 4));
    Div(c / 4 + 0x40 * d, 0x1000, d / 64, c / 4 + 0x40 * (d % 64));
    Cut2(a, b % 16, c - c % 4, d);
  }

  lemma Clamp3(a: int, b: int, c: int, d: int)
    requires AreBytes(a, b, c, d)
    ensures Mask3(Word4(a, b, c, d) / 64) == Word4(a, b, c % 16, d - d % 4) / 64 % 0x400_0000
  {
    var x := a / 64 + 4 * b + 0x400 * c + 0x4_0000 * d;
    Nibble(c);
    Div(Word4(a, b, c, d), 64, x, a % 64);
    Div(x, 0x4000, c / 16 + 0x10 * d, a / 64 + 4 * b + 0x400 * (c % 16));
    Div(x, 0x10_0000, d / 4, a / 64 + 4 * b + 0x400 * c + 0x4_0000 * (d % 4));
    Div(d / 4, 0x40, 0, d / 4);
    Cut3(a, b, c % 16, d - d % 4);
  }

  lemma Clamp4(a: int, b: int, c: int, d: int)
    requires AreBytes(a, b, c, d)
    ensures Word4(a, b, c, d) / 256 % 0x10_0000 == Word4(a - a % 4, b, c, d % 16) / 256
  {
    Nibble(d);
    Cut4(a, b, c, d);
    Div(b + 0x100 * c + 0x1_0000 * d, 0x10_0000, d / 16, b + 0x100 * c + 0x1_0000 * (d % 16));
    Cut4(a - a % 4, b, c, d % 16);
  }

  lemma Clamp0(a: int, b: int, c: int, d: int)
    requires AreBytes(a, b, c, d)
    ensures Word4(a, b, c, d) % 0x400_0000 == Word4(a, b, c, d % 16) % 0x400_0000
  {
    var low := a + 0x100 * b + 0x1_0000 * c + 0x100_0000 * (d % 4);
    Quarter(d);
    Div(Word4(a, b, c, d), 0x400_0000, d / 4, low);
    Div(Word4(a, b, c, d % 16), 0x400_0000, d % 16 / 4, low);
  }

  lemma Quarter(d: int)
    requires 0 <= d < 256
    ensures d == 4 * (d / 4) + d % 4 && d % 16 == 4 * (d % 16 / 4) + d % 4
  {
  }

  lemma ClampLoads(m: seq<Byte>)
    requires |m| == 16
    ensures LoadClamped(m) == Load(Clamp(m))
  {
    var c := Clamp(m);
    assert Word(c, 0) == Word4(m[0], m[1], m[2], m[3] % 16);
    assert Word(c, 3) == Word4(m[3] % 16, m[4] - m[4] % 4, m[5], m[6]);
    assert Word(c, 6) == Word4(m[6], m[7] % 16, m[8] - m[8] % 4, m[9]);
    assert Word(c, 9) == Word4(m[9], m[10], m[11] % 16, m[12] - m[12] % 4);
    assert Word(c, 12) == Word4(m[12] - m[12] % 4, m[13], m[14], m[15] % 16);
    Clamp0(m[0], m[1], m[2], m[3]);
    Clamp1(m[3], m[4], m[5], m[6]);
    Clamp2(m[6], m[7], m[8], m[9]);
    Clamp3(m[9], m[10], m[11], m[12]);
    Clamp4(m[12], m[13], m[14], m[15]);
  }

  /** The masks of poly_init are the clamping. */
  lemma ClampValue(m: seq<Byte>)
    requires |m| == 16
    ensures Clamped(LoadClamped(m)) && Val(LoadClamped(m)) == Le(Clamp(m))
  {
    ClampLoads(m);
    LoadValue(Clamp(m));
  }
}
