/** The one-time authenticator of section 2.5 of RFC 8439, fed in pieces. */
module Poly1305 {
  import opened Common
  import opened Congruence
  import opened PolyArith
  import opened PolyBytes

  predicate Normal(h: Limbs) {
    && 0 <= h.x0 < 0x400_0000 && 0 <= h.x1 < 0x400_0000 && 0 <= h.x2 < 0x400_0000
    && 0 <= h.x3 < 0x400_0000 && 0 <= h.x4 < 0x400_0000
  }

  /** A limb with a small carry into it, split at 26 bits. */
  method Step(x: int, into: int) returns (c: int, lo: int)
    requires 0 <= x < 0x400_0040 && 0 <= into <= 64
    ensures x + into == lo + 0x400_0000 * c && 0 <= lo < 0x400_0000 && 0 <= c <= 1
  {
    var s := U32(x + into);
    c, lo := s / 0x400_0000, s % 0x400_0000;
  }

  /** The last pass of carries leaves every limb within 26 bits. */
  method Normalise(h: Limbs) returns (n: Limbs)
    requires Settled(h)
    ensures Normal(n) && Cong(Val(n), Val(h), Prime())
  {
    var c1, h1 := Step(h.x1, 0);
    var c2, h2 := Step(h.x2, c1);
    var c3, h3 := Step(h.x3, c2);
    var c4, h4 := Step(h.x4, c3);
    var c5, h0 := Step(h.x0, c4 * 5);
    n := Limbs(h0, U32(h1 + c5), h2, h3, h4);
    assert c5 == 1 ==> c4 == 1 && c3 == 1 && c2 == 1 && c1 == 1;
    Carried(h, n, 0, c1, c2, c3, c4, c5);
  }

  /** x & mask, for a mask of all ones or all zeros. */
  function Masked(x: int, mask: int): int
    requires mask == 0 || mask == 0xFFFF_FFFF
  {
    if mask == 0 then 0 else x
  }

  /** One subtraction of the prime, chosen by a mask, gives the remainder. */
  method Reduce(h: Limbs) returns (l: Limbs)
    requires Normal(h)
    ensures Normal(l) && Val(l) == Val(h) % Prime()
  {
    var c0, g0 := Step(h.x0, 5);
    var c1, g1 := Step(h.x1, c0);
    var c2, g2 := Step(h.x2, c1);
    var c3, g3 := Step(h.x3, c2);
    var g4 := U32(h.x4 + c3 - 0x400_0000);
    var mask := U32(g4 / 0x8000_0000 - 1);
    assert g4 == if h.x4 + c3 >= 0x400_0000 then 0 else h.x4 + c3 + 0xFC00_0000;
    var keep := 0xFFFF_FFFF - mask;
    l := Limbs(Masked(h.x0, keep) + Masked(g0, mask), Masked(h.x1, keep) + Masked(g1, mask),
               Masked(h.x2, keep) + Masked(g2, mask), Masked(h.x3, keep) + Masked(g3, mask),
               Masked(h.x4, keep) + Masked(g4, mask));
    ghost var q := if mask == 0 then 0 else 1;
    Div(Val(h), Prime(), q, Val(l));
  }

  /** Limbs regrouped into 32-bit words. */
  method Pack(h: Limbs) returns (w0: int, w1: int, w2: int, w3: int)
    requires Normal(h)
    ensures 0 <= w0 < 0x1_0000_0000 && 0 <= w1 < 0x1_0000_0000
    ensures 0 <= w2 < 0x1_0000_0000 && 0 <= w3 < 0x1_0000_0000
    ensures Words(w0, w1, w2, w3) == Sum128(Val(h), 0)
  {
    Div(h.x1 * 0x400_0000, 0x1_0000_0000, h.x1 / 64, h.x1 % 64 * 0x400_0000);
    Div(h.x2 * 0x10_0000, 0x1_0000_0000, h.x2 / 0x1000, h.x2 % 0x1000 * 0x10_0000);
    Div(h.x3 * 0x4000, 0x1_0000_0000, h.x3 / 0x4_0000, h.x3 % 0x4_0000 * 0x4000);
    Div(h.x4 * 0x100, 0x1_0000_0000, h.x4 / 0x100_0000, h.x4 % 0x100_0000 * 0x100);
    w0 := h.x0 + U32(h.x1 * 0x400_0000);
    w1 := h.x1 / 64 + U32(h.x2 * 0x10_0000);
    w2 := h.x2 / 0x1000 + U32(h.x3 * 0x4000);
    w3 := h.x3 / 0x4_0000 + U32(h.x4 * 0x100);
    Div(Val(h), 0x1_0000_0000_0000_0000_0000_0000_0000_0000, h.x4 / 0x100_0000, Words(w0, w1, w2, w3));
  }

  /** One 32-bit word of the final addition. */
  method AddWord(a: int, b: int, into: int) returns (c: int, lo: int)
    requires 0 <= a < 0x1_0000_0000 && 0 <= b < 0x1_0000_0000 && 0 <= into <= 1
    ensures a + b + into == lo + 0x1_0000_0000 * c && 0 <= lo < 0x1_0000_0000 && 0 <= c <= 1
  {
    var f := U64(a + b + into);
    c, lo := f / 0x1_0000_0000, U32(f);
  }

  /** The number that s and the accumulator add up to, modulo 2^128, as the sixteen bytes of the tag. */
  method AddPad(w: seq<int>, pad: seq<int>) returns (tag: seq<Byte>)
    requires |w| == 4 && |pad| == 4
    requires forall i :: 0 <= i < 4 ==> 0 <= w[i] < 0x1_0000_0000 && 0 <= pad[i] < 0x1_0000_0000
    ensures |tag| == 16
    ensures Le(tag) == Sum128(Words(w[0], w[1], w[2], w[3]), Words(pad[0], pad[1], pad[2], pad[3]))
  {
    var c0, o0 := AddWord(w[0], pad[0], 0);
    var c1, o1 := AddWord(w[1], pad[1], c0);
    var c2, o2 := AddWord(w[2], pad[2], c1);
    var c3, o3 := AddWord(w[3], pad[3], c2);
    tag := TagBytes(o0, o1, o2, o3);
    Added(Words(w[0], w[1], w[2], w[3]), Words(pad[0], pad[1], pad[2], pad[3]), Words(o0, o1, o2, o3), c3);
  }

  lemma Added(a: int, b: int, sum: int, c: int)
    requires 0 <= sum < 0x1_0000_0000_0000_0000_0000_0000_0000_0000
    requires a + b == sum + 0x1_0000_0000_0000_0000_0000_0000_0000_0000 * c
    ensures sum == Sum128(a, b)
  {
    Div(a + b, 0x1_0000_0000_0000_0000_0000_0000_0000_0000, c, sum);
  }

  method TagBytes(o0: int, o1: int, o2: int, o3: int) returns (tag: seq<Byte>)
    requires 0 <= o0 < 0x1_0000_0000 && 0 <= o1 < 0x1_0000_0000
    requires 0 <= o2 < 0x1_0000_0000 && 0 <= o3 < 0x1_0000_0000
    ensures |tag| == 16 && Le(tag) == Words(o0, o1, o2, o3)
  {
    var b0, b1, b2, b3 := WordBytes(o0), WordBytes(o1), WordBytes(o2), WordBytes(o3);
    tag := b0 + b1 + b2 + b3;
    assert Word(tag, 0) == Word(b0, 0) && Word(tag, 4) == Word(b1, 0);
    assert Word(tag, 8) == Word(b2, 0) && Word(tag, 12) == Word(b3, 0);
    Le16(tag);
  }

  /** The specification: one block of at most sixteen bytes, with a one bit set above it. */
  function Absorb(acc: int, chunk: seq<Byte>, r: int): int {
    (acc + Le(chunk) + Pow(256, |chunk|)) * r % Prime()
  }

  /** The accumulator after a message cut into blocks of sixteen bytes, the last one possibly shorter. */
  function Hash(msg: seq<Byte>, r: int): int {
    if msg == [] then 0
    else
      var k := (|msg| - 1) / 16 * 16;
      Absorb(Hash(msg[..k], r), msg[k..], r)
  }

  /** The number a tag stands for. */
  function Mac(key: seq<Byte>, msg: seq<Byte>): int
    requires |key| == 32
  {
    Sum128(Hash(msg, Multiplier(key)), Le(key[16..]))
  }

  function Sum128(a: int, b: int): int {
    (a + b) % 0x1_0000_0000_0000_0000_0000_0000_0000_0000
  }

  lemma LastStart(n: int, c: int)
    requires n % 16 == 0 && 0 < c <= 16
    ensures (n + c - 1) / 16 * 16 == n
  {
  }

  lemma HashNext(msg: seq<Byte>, chunk: seq<Byte>, r: int)
    requires |msg| % 16 == 0 && 0 < |chunk| <= 16
    ensures Hash(msg + chunk, r) == Absorb(Hash(msg, r), chunk, r)
  {
    var all := msg + chunk;
    LastStart(|msg|, |chunk|);
    assert all[..|msg|] == msg && all[|msg|..] == chunk;
  }

  lemma CongAdd(x: int, y: int, c: int, m: int)
    requires Cong(x, y, m)
    ensures Cong(x + c, y + c, m)
  {
    var k :| Times(k, m, x, y);
    By(x + c, y + c, m, k);
  }

  lemma CongMod(x: int, m: int)
    requires m > 0
    ensures Cong(x, x % m, m)
  {
    By(x, x % m, m, x / m);
  }

  /** A block step on a representative of the accumulator is the step on the accumulator. */
  lemma AbsorbCong(h: int, h': int, acc: int, chunk: seq<Byte>, r: int)
    requires Cong(h, acc, Prime())
    requires Cong(h', (h + (Le(chunk) + Pow(256, |chunk|))) * r, Prime())
    ensures Cong(h', Absorb(acc, chunk, r), Prime())
  {
    var n := Le(chunk) + Pow(256, |chunk|);
    CongAdd(h, acc, n, Prime());
    Scale(h + n, acc + n, r, Prime());
    CongMod((acc + n) * r, Prime());
    assert (acc + n) * r % Prime() == Absorb(acc, chunk, r);
    Trans(h', (h + n) * r, (acc + n) * r, Prime());
    Trans(h', (acc + n) * r, Absorb(acc, chunk, r), Prime());
  }

  /** A short last block: the one bit is written into the buffer instead. */
  lemma ShortBlock(chunk: seq<Byte>, block: seq<Byte>)
    requires |chunk| < 16 && |block| == 16 && block[..|chunk|] == chunk && block[|chunk|] == 1
    requires forall i :: |chunk| < i < 16 ==> block[i] == 0
    ensures Le(block) == Le(chunk) + Pow(256, |chunk|)
  {
    var rest := block[|chunk|..];
    assert block == chunk + rest;
    LeConcat(chunk, rest);
    LeOne(rest);
  }

  lemma LeOne(s: seq<Byte>)
    requires |s| > 0 && s[0] == 1 && forall i :: 0 < i < |s| ==> s[i] == 0
    ensures Le(s) == 1
  {
    LeZeros(s[1..]);
  }

  /** The multiplier of a key. */
  function Multiplier(key: seq<Byte>): int
    requires |key| == 32
  {
    Le(Clamp(key[..16]))
  }

  ghost predicate Seal(k: int, l: Limbs, key: seq<Byte>) { true }

  /** r holds the multiplier of the key. */
  ghost predicate Multiplies(r: Limbs, key: seq<Byte>) {
    forall k {:trigger Seal(k, r, key)} :: Seal(k, r, key) ==>
      |key| == 32 && Clamped(r) && Val(r) == Multiplier(key)
  }

  ghost predicate SealAcc(k: int, h: Limbs, key: seq<Byte>, msg: seq<Byte>) { true }

  /** h holds the accumulator after msg, up to a multiple of the prime. */
  ghost predicate Accumulates(h: Limbs, key: seq<Byte>, msg: seq<Byte>) {
    forall k {:trigger SealAcc(k, h, key, msg)} :: SealAcc(k, h, key, msg) ==>
      |key| == 32 && Settled(h) && Cong(Val(h), Hash(msg, Multiplier(key)), Prime())
  }

  predicate Pads(pad: seq<int>, key: seq<Byte>) {
    |key| == 32 && pad == [Word(key, 16), Word(key, 20), Word(key, 24), Word(key, 28)]
  }

  /** The block added to the accumulator. */
  method Sum(h: Limbs, m: seq<Byte>, hibit: int) returns (s: Limbs)
    requires Settled(h) && |m| == 16 && (hibit == 0x100_0000 || hibit == 0)
    ensures Loaded(s) && Val(s) == Val(h) + Le(m) + hibit * 0x100_0000_0000_0000_0000_0000_0000
  {
    LoadValue(m);
    var l := Load(m);
    s := AddLimbs(h, l.(x4 := l.x4 + hibit));
  }

  method AddLimbs(h: Limbs, l: Limbs) returns (s: Limbs)
    requires Settled(h) && Normal(l)
    ensures Loaded(s) && s == Limbs(h.x0 + l.x0, h.x1 + l.x1, h.x2 + l.x2, h.x3 + l.x3, h.x4 + l.x4)
  {
    s := Limbs(U32(h.x0 + l.x0), U32(h.x1 + l.x1), U32(h.x2 + l.x2), U32(h.x3 + l.x3), U32(h.x4 + l.x4));
  }

  /** One block: (h + block) * r modulo the prime, in words that never wrap. */
  method Block(h: Limbs, r: Limbs, m: seq<Byte>, hibit: int) returns (h': Limbs)
    requires Settled(h) && Clamped(r) && |m| == 16 && (hibit == 0x100_0000 || hibit == 0)
    ensures Settled(h')
    ensures Cong(Val(h'), (Val(h) + Le(m) + hibit * 0x100_0000_0000_0000_0000_0000_0000) * Val(r), Prime())
  {
    var s := Sum(h, m, hibit);
    var d := Multiply(s, r);
    h' := Carry(d);
    Trans(Val(h'), Val(d), Val(s) * Val(r), Prime());
  }

  ghost predicate SealStep(k: int, x: int, y: int, r: int, n: int) { true }

  /** From x, absorbing the number n, to y (behind a key, like the others). */
  ghost predicate Absorbs(x: int, y: int, r: int, n: int) {
    forall k {:trigger SealStep(k, x, y, r, n)} :: SealStep(k, x, y, r, n) ==> Cong(y, (x + n) * r, Prime())
  }

  /** A block step, whichever way its one bit is set. */
  lemma Next(h: Limbs, h': Limbs, r: Limbs, key: seq<Byte>, msg: seq<Byte>, chunk: seq<Byte>)
    requires Multiplies(r, key) && Accumulates(h, key, msg) && |msg| % 16 == 0 && 0 < |chunk| <= 16
    requires Settled(h') && Absorbs(Val(h), Val(h'), Val(r), Le(chunk) + Pow(256, |chunk|))
    ensures Accumulates(h', key, msg + chunk)
  {
    assert Seal(0, r, key) && SealAcc(0, h, key, msg);
    NextCong(Val(h), Val(h'), Val(r), msg, chunk);
  }

  /** The same for the values. */
  lemma NextCong(x: int, y: int, r: int, msg: seq<Byte>, chunk: seq<Byte>)
    requires Cong(x, Hash(msg, r), Prime()) && |msg| % 16 == 0 && 0 < |chunk| <= 16
    requires Absorbs(x, y, r, Le(chunk) + Pow(256, |chunk|))
    ensures Cong(y, Hash(msg + chunk, r), Prime())
  {
    assert SealStep(0, x, y, r, Le(chunk) + Pow(256, |chunk|));
    AbsorbCong(x, y, Hash(msg, r), chunk, r);
    HashNext(msg, chunk, r);
  }

  lemma OpenMultiplies(r: Limbs, key: seq<Byte>)
    requires Multiplies(r, key)
    ensures |key| == 32 && Clamped(r)
  {
    assert Seal(0, r, key);
  }

  lemma OpenAccumulates(h: Limbs, key: seq<Byte>, msg: seq<Byte>)
    requires Accumulates(h, key, msg)
    ensures |key| == 32 && Settled(h)
  {
    assert SealAcc(0, h, key, msg);
  }

  method BlockOf(h: Limbs, r: Limbs, m: seq<Byte>, hibit: int, ghost n: int) returns (h': Limbs)
    requires Settled(h) && Clamped(r) && |m| == 16 && (hibit == 0x100_0000 || hibit == 0)
    requires n == Le(m) + hibit * 0x100_0000_0000_0000_0000_0000_0000
    ensures Settled(h') && Absorbs(Val(h), Val(h'), Val(r), n)
  {
    h' := Block(h, r, m, hibit);
  }

  /** A full block is absorbed. */
  method AbsorbFull(h: Limbs, r: Limbs, m: seq<Byte>, ghost key: seq<Byte>, ghost msg: seq<Byte>)
    returns (h': Limbs)
    requires Multiplies(r, key) && Accumulates(h, key, msg) && |msg| % 16 == 0 && |m| == 16
    ensures Accumulates(h', key, msg + m)
  {
    OpenMultiplies(r, key);
    OpenAccumulates(h, key, msg);
    TopBit();
    h' := BlockOf(h, r, m, 0x100_0000, Le(m) + Pow(256, 16));
    Next(h, h', r, key, msg, m);
  }

  /** A short block is absorbed, its one bit written into the bytes. */
  method AbsorbShort(h: Limbs, r: Limbs, m: seq<Byte>, ghost key: seq<Byte>, ghost msg: seq<Byte>,
                     ghost chunk: seq<Byte>)
    returns (h': Limbs)
    requires Multiplies(r, key) && Accumulates(h, key, msg) && |msg| % 16 == 0 && |m| == 16
    requires 0 < |chunk| < 16 && m[..|chunk|] == chunk && m[|chunk|] == 1
    requires forall i :: |chunk| < i < 16 ==> m[i] == 0
    ensures Accumulates(h', key, msg + chunk)
  {
    OpenMultiplies(r, key);
    OpenAccumulates(h, key, msg);
    ShortBlock(chunk, m);
    h' := BlockOf(h, r, m, 0, Le(chunk) + Pow(256, |chunk|));
    Next(h, h', r, key, msg, chunk);
  }

  function Zeros(n: nat): seq<Byte> {
    seq(n, _ => 0)
  }

  /** A byte string with zeros up to a multiple of sixteen. */
  function Padded(s: seq<Byte>): (p: seq<Byte>)
    ensures |p| % 16 == 0 && s <= p
  {
    s + Zeros(Missing(|s|))
  }

  function Missing(n: nat): (z: nat)
    ensures z < 16 && (n + z) % 16 == 0
  {
    if n % 16 == 0 then 0 else 16 - n % 16
  }

  lemma SameRest(n: nat, rest: nat)
    requires rest < 16 && rest <= n && (n - rest) % 16 == 0
    ensures Missing(n) == if rest == 0 then 0 else 16 - rest
  {
  }

  lemma Grew(fed: seq<Byte>, m: seq<Byte>, i: nat, n: nat)
    requires i + n <= |m|
    ensures fed + m[..i] + m[i..i + n] == fed + m[..i + n]
  {
    assert m[..i] + m[i..i + n] == m[..i + n];
    assert fed + (m[..i] + m[i..i + n]) == fed + m[..i] + m[i..i + n];
  }

  /** What poly_init leaves, before the first byte. */
  lemma Starts(key: seq<Byte>)
    requires |key| == 32
    ensures Multiplies(LoadClamped(key[..16]), key)
    ensures Pads([Word(key, 16), Word(key, 20), Word(key, 24), Word(key, 28)], key)
    ensures Accumulates(Limbs(0, 0, 0, 0, 0), key, [])
  {
    ClampValue(key[..16]);
    By(0, 0, Prime(), 0);
  }

  class Poly {
    var r: Limbs
    var h: Limbs
    var pad: seq<int>
    const buf: array<Byte>
    var bufLen: nat
    /** The key, and all bytes fed so far. */
    ghost var key: seq<Byte>
    ghost var fed: seq<Byte>

    ghost predicate Valid()
      reads this, buf
    {
      && Multiplies(r, key) && Pads(pad, key) && buf.Length == 16
      && bufLen < 16 && bufLen <= |fed| && (|fed| - bufLen) % 16 == 0
      && buf[..bufLen] == fed[|fed| - bufLen..]
      && Accumulates(h, key, fed[..|fed| - bufLen])
    }

    constructor (key: seq<Byte>)
      requires |key| == 32
      ensures Valid() && this.key == key && fed == [] && fresh(buf)
    {
      r := LoadClamped(key[..16]);
      h := Limbs(0, 0, 0, 0, 0);
      pad := [Word(key, 16), Word(key, 20), Word(key, 24), Word(key, 28)];
      buf := new Byte[16](_ => 0);
      bufLen := 0;
      this.key, fed := key, [];
      new;
      Starts(key);
    }

    /** A piece copied behind what the buffer holds. */
    method Copy(m: seq<Byte>)
      requires bufLen + |m| <= buf.Length
      modifies buf
      ensures buf[..bufLen + |m|] == old(buf[..bufLen]) + m
    {
      for i := 0 to |m|
        invariant buf[..bufLen + i] == old(buf[..bufLen]) + m[..i]
      {
        buf[bufLen + i] := m[i];
      }
      assert m[..|m|] == m;
    }

    /** One piece that fits the buffer. */
    method Fill(m: seq<Byte>)
      requires Valid() && 0 < |m| <= 16 - bufLen
      modifies `h, `bufLen, `fed, buf
      ensures Valid() && fed == old(fed) + m
    {
      ghost var msg := fed[..|fed| - bufLen];
      Copy(m);
      fed := fed + m;
      bufLen := bufLen + |m|;
      assert fed == msg + buf[..bufLen];
      assert fed[..|msg|] == msg && fed[|msg|..] == buf[..bufLen];
      if bufLen == 16 {
        assert buf[..] == buf[..16];
        h := AbsorbFull(h, r, buf[..], key, msg);
        bufLen := 0;
        assert fed[..|fed|] == fed;
      }
    }

    method Update(m: seq<Byte>)
      requires Valid()
      modifies `h, `bufLen, `fed, buf
      ensures Valid() && fed == old(fed) + m
    {
      var i := 0;
      while i < |m|
        invariant 0 <= i <= |m| && Valid() && fed == old(fed) + m[..i]
      {
        var n := 16 - bufLen;
        if n > |m| - i {
          n := |m| - i;
        }
        Fill(m[i..i + n]);
        Grew(old(fed), m, i, n);
        i := i + n;
      }
      assert m[..|m|] == m;
    }

    /** Zeros up to the next block boundary. */
    method Pad()
      requires Valid()
      modifies `h, `bufLen, `fed, buf
      ensures Valid() && fed == Padded(old(fed))
    {
      SameRest(|fed|, bufLen);
      assert bufLen == 0 ==> fed + Zeros(0) == fed;
      if bufLen > 0 {
        Fill(Zeros(16 - bufLen));
      }
    }

    /** The one bit and zeros behind what is in the buffer. */
    method Terminate()
      requires bufLen < 16 == buf.Length
      modifies buf
      ensures buf[..bufLen] == old(buf[..bufLen]) && buf[bufLen] == 1 && forall j :: bufLen < j < 16 ==> buf[j] == 0
    {
      buf[bufLen] := 1;
      for i := bufLen + 1 to 16
        modifies buf
        invariant buf[..bufLen] == old(buf[..bufLen]) && buf[bufLen] == 1
        invariant forall j :: bufLen < j < i ==> buf[j] == 0
      {
        buf[i] := 0;
      }
    }

    /** A short last block, if any, is absorbed with its one bit written into the buffer. */
    method Flush()
      requires Valid()
      modifies `h, buf
      ensures Accumulates(h, key, fed)
    {
      ghost var msg, chunk := fed[..|fed| - bufLen], buf[..bufLen];
      assert fed == msg + chunk;
      if bufLen > 0 {
        Terminate();
        h := AbsorbShort(h, r, buf[..], key, msg, chunk);
      } else {
        assert msg + chunk == msg;
      }
    }

    /** The tag depends on the key and on the bytes fed, not on how they were cut into pieces. */
    method Final() returns (tag: seq<Byte>)
      requires Valid()
      modifies `h, buf
      ensures |tag| == 16 && Le(tag) == Mac(key, fed)
    {
      Flush();
      tag := Finish(h, pad, key, fed);
    }
  }

  lemma TopBit()
    ensures Pow(256, 16) == 0x100_0000 * 0x100_0000_0000_0000_0000_0000_0000
  {
    assert Pow(256, 4) == 0x1_0000_0000;
    PowAdd(256, 4, 4);
    PowAdd(256, 8, 8);
  }

  /** The accumulator reduced below the prime. */
  method Freeze(h: Limbs, ghost acc: int) returns (l: Limbs)
    requires Settled(h) && Cong(Val(h), acc, Prime()) && 0 <= acc < Prime()
    ensures Normal(l) && Val(l) == acc
  {
    var n := Normalise(h);
    Trans(Val(n), Val(h), acc, Prime());
    l := Reduce(n);
    RemainderSame(Val(n), acc, Prime());
  }

  /** ... plus s, modulo 2^128. */
  method AddSecret(l: Limbs, pad: seq<int>, ghost key: seq<Byte>) returns (tag: seq<Byte>)
    requires Normal(l) && Pads(pad, key)
    ensures |tag| == 16
    ensures Le(tag) == Sum128(Val(l), Le(key[16..]))
  {
    var w0, w1, w2, w3 := Pack(l);
    tag := AddPad([w0, w1, w2, w3], pad);
    PadValue(key);
    SumTwice(Val(l), Le(key[16..]));
  }

  method Finish(h: Limbs, pad: seq<int>, ghost key: seq<Byte>, ghost msg: seq<Byte>) returns (tag: seq<Byte>)
    requires Accumulates(h, key, msg) && Pads(pad, key)
    ensures |tag| == 16 && Le(tag) == Mac(key, msg)
  {
    ghost var acc := Hash(msg, Multiplier(key));
    HashSmall(msg, Multiplier(key));
    assert Settled(h) && Cong(Val(h), acc, Prime()) by { assert SealAcc(0, h, key, msg); }
    var l := Freeze(h, acc);
    tag := AddSecret(l, pad, key);
  }

  lemma HashSmall(msg: seq<Byte>, r: int)
    ensures 0 <= Hash(msg, r) < Prime()
  {
  }

  lemma RemainderSame(x: int, y: int, m: int)
    requires Cong(x, y, m) && 0 <= y < m
    ensures x % m == y
  {
    var k :| Times(k, m, x, y);
    Div(x, m, k, y);
  }

  lemma PadValue(key: seq<Byte>)
    requires |key| == 32
    ensures Le(key[16..]) == Words(Word(key, 16), Word(key, 20), Word(key, 24), Word(key, 28))
  {
    var s := key[16..];
    Le16(s);
    assert Word(s, 0) == Word(key, 16) && Word(s, 4) == Word(key, 20);
    assert Word(s, 8) == Word(key, 24) && Word(s, 12) == Word(key, 28);
  }

  lemma SumTwice(x: int, y: int)
    ensures Sum128(Sum128(x, 0), y) == Sum128(x, y)
  {
  }

  /** Feeding a message in any pieces gives the tag of the whole message. */
  method Tag(key: seq<Byte>, parts: seq<seq<Byte>>) returns (tag: seq<Byte>)
    requires |key| == 32
    ensures |tag| == 16 && Le(tag) == Mac(key, Flatten(parts))
  {
    var p := new Poly(key);
    for i := 0 to |parts|
      invariant p.Valid() && p.key == key && p.fed == Flatten(parts[..i]) && fresh(p) && fresh(p.buf)
    {
      p.Update(parts[i]);
      FlattenNext(parts, i);
    }
    assert parts[..|parts|] == parts;
    tag := p.Final();
  }

  /** What the AEAD construction of section 2.8 of RFC 8439 authenticates. */
  function AeadInput(aad: seq<Byte>, ct: seq<Byte>): seq<Byte>
    requires |aad| < 0x1_0000_0000 && |ct| < 0x1_0000_0000
  {
    Padded(aad) + Padded(ct) + Lengths(|aad|, |ct|)
  }

  function Lengths(a: nat, c: nat): (s: seq<Byte>)
    requires a < 0x1_0000_0000 && c < 0x1_0000_0000
    ensures |s| == 16 && Word(s, 0) == a && Word(s, 8) == c
  {
    var s := WordBytes(a) + Zeros(4) + WordBytes(c) + Zeros(4);
    assert Word(s, 0) == Word(WordBytes(a), 0) && Word(s, 8) == Word(WordBytes(c), 0);
    s
  }

  /** Padding is shorter than a block and leaves the number that the bytes stand for as it is. */
  lemma PaddedNumber(s: seq<Byte>)
    ensures |s| <= |Padded(s)| < |s| + 16 && Le(Padded(s)) == Le(s)
  {
    LeConcat(s, Zeros(Missing(|s|)));
    LeZeros(Zeros(Missing(|s|)));
  }

  /** The last block is the two lengths as numbers of eight bytes each. */
  lemma LengthsNumber(a: nat, c: nat)
    requires a < 0x1_0000_0000 && c < 0x1_0000_0000
    ensures Le(Lengths(a, c)) == a + 0x1_0000_0000_0000_0000 * c
  {
    Le4(WordBytes(a));
    Le4(WordBytes(c));
    Spaced(WordBytes(a), WordBytes(c));
  }

  lemma Spaced(x: seq<Byte>, y: seq<Byte>)
    requires |x| == |y| == 4
    ensures Le(x + Zeros(4) + y + Zeros(4)) == Le(x) + 0x1_0000_0000_0000_0000 * Le(y)
  {
    LeZeros(Zeros(4));
    LeConcat(x, Zeros(4));
    LeConcat(y, Zeros(4));
    LeConcat(x + Zeros(4), y + Zeros(4));
    assert x + Zeros(4) + y + Zeros(4) == (x + Zeros(4)) + (y + Zeros(4));
    assert Pow(256, 4) == 0x1_0000_0000;
    assert Pow(256, 8) == 0x1_0000_0000_0000_0000;
  }

  lemma PaddedJoin(s: seq<Byte>, t: seq<Byte>)
    requires |s| % 16 == 0
    ensures Padded(s + t) == s + Padded(t)
  {
    assert Missing(|s + t|) == Missing(|t|);
    assert s + t + Zeros(Missing(|t|)) == s + (t + Zeros(Missing(|t|)));
  }

  method AeadTag(key: seq<Byte>, aad: seq<Byte>, ct: seq<Byte>) returns (tag: seq<Byte>)
    requires |key| == 32 && |aad| < 0x1_0000_0000 && |ct| < 0x1_0000_0000
    ensures |tag| == 16 && Le(tag) == Mac(key, AeadInput(aad, ct))
  {
    var p := new Poly(key);
    p.Update(aad);
    assert [] + aad == aad;
    p.Pad();
    p.Update(ct);
    p.Pad();
    PaddedJoin(Padded(aad), ct);
    p.Update(Lengths(|aad|, |ct|));
    tag := p.Final();
  }

  lemma SameTail(a: seq<Byte>, c: seq<Byte>, a': seq<Byte>, c': seq<Byte>)
    requires a + c == a' + c' && |c| == |c'|
    ensures c == c' && a == a'
  {
    assert |a| == |a'|;
    assert c == (a + c)[|a|..] && c' == (a' + c')[|a|..];
    assert a == (a + c)[..|a|] && a' == (a' + c')[..|a|];
  }

  lemma SameLengths(a: nat, c: nat, a': nat, c': nat)
    requires a < 0x1_0000_0000 && c < 0x1_0000_0000 && a' < 0x1_0000_0000 && c' < 0x1_0000_0000
    requires Lengths(a, c) == Lengths(a', c')
    ensures a == a' && c == c'
  {
    assert Word(Lengths(a, c), 0) == a && Word(Lengths(a, c), 8) == c;
    assert Word(Lengths(a', c'), 0) == a' && Word(Lengths(a', c'), 8) == c';
  }

  lemma SamePadded(s: seq<Byte>, s': seq<Byte>)
    requires Padded(s) == Padded(s') && |s| == |s'|
    ensures s == s'
  {
    assert s == Padded(s)[..|s|] && s' == Padded(s')[..|s|];
  }

  /** Different associated data or ciphertexts are never authenticated as the same bytes. */
  lemma AeadInputInjective(aad: seq<Byte>, ct: seq<Byte>, aad': seq<Byte>, ct': seq<Byte>)
    requires |aad| < 0x1_0000_0000 && |ct| < 0x1_0000_0000
    requires |aad'| < 0x1_0000_0000 && |ct'| < 0x1_0000_0000
    requires AeadInput(aad, ct) == AeadInput(aad', ct')
    ensures aad == aad' && ct == ct'
  {
    var p, q, p', q' := Padded(aad), Padded(ct), Padded(aad'), Padded(ct');
    SameTail(p + q, Lengths(|aad|, |ct|), p' + q', Lengths(|aad'|, |ct'|));
    SameLengths(|aad|, |ct|, |aad'|, |ct'|);
    PaddedLength(aad, aad');
    PaddedLength(ct, ct');
    SameTail(p, q, p', q');
    SamePadded(aad, aad');
    SamePadded(ct, ct');
  }

  lemma PaddedLength(s: seq<Byte>, s': seq<Byte>)
    requires |s| == |s'|
    ensures |Padded(s)| == |Padded(s')|
  {
  }
}
