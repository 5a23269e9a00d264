/** Numbers below 2^130 held in five 26-bit limbs, and arithmetic on them modulo 2^130 - 5. */
module PolyArith {
  import opened Congruence

  datatype Limbs = Limbs(x0: int, x1: int, x2: int, x3: int, x4: int)

  /** The prime 2^130 - 5. */
  function Prime(): int {
    0x3_FFFF_FFFF_FFFF_FFFF_FFFF_FFFF_FFFF_FFFB
  }

  /** The number that five limbs stand for, normalised or not. */
  function Val(l: Limbs): int {
    l.x0 + 0x400_0000 * l.x1 + 0x10_0000_0000_0000 * l.x2
    + 0x4000_0000_0000_0000_0000 * l.x3 + 0x100_0000_0000_0000_0000_0000_0000 * l.x4
  }

  /** 32-bit and 64-bit unsigned wrap-around. */
  function U32(x: int): int {
    x % 0x1_0000_0000
  }

  function U64(x: int): int {
    x % 0x1_0000_0000_0000_0000
  }

  /** The multiplier r: clamped limbs. */
  predicate Clamped(r: Limbs) {
    && 0 <= r.x0 < 0x400_0000 && 0 <= r.x1 < 0x400_0000 && 0 <= r.x2 < 0x400_0000
    && 0 <= r.x3 < 0x400_0000 && 0 <= r.x4 < 0x10_0000
  }

  /** The accumulator h between blocks: limb 1 alone may exceed 26 bits, by less than 64. */
  predicate Settled(h: Limbs) {
    && 0 <= h.x0 < 0x400_0000 && 0 <= h.x1 < 0x400_0040 && 0 <= h.x2 < 0x400_0000
    && 0 <= h.x3 < 0x400_0000 && 0 <= h.x4 < 0x400_0000
  }

  /** The accumulator with a message block added. */
  predicate Loaded(h: Limbs) {
    && 0 <= h.x0 <= 0x800_0040 && 0 <= h.x1 <= 0x800_0040 && 0 <= h.x2 <= 0x800_0040
    && 0 <= h.x3 <= 0x800_0040 && 0 <= h.x4 <= 0x800_0040
  }

  function Row(h: Limbs, a: int, b: int, c: int, d: int, e: int): int {
    h.x0 * a + h.x1 * b + h.x2 * c + h.x3 * d + h.x4 * e
  }

  lemma RowBound(h: Limbs, a: int, b: int, c: int, d: int, e: int)
    requires Loaded(h) && a >= 0 && b >= 0 && c >= 0 && d >= 0 && e >= 0
    ensures 0 <= Row(h, a, b, c, d, e) <= 0x800_0040 * (a + b + c + d + e)
  {
    Within(h.x0, a);
    Within(h.x1, b);
    Within(h.x2, c);
    Within(h.x3, d);
    Within(h.x4, e);
  }

  lemma Within(x: int, a: int)
    requires 0 <= x <= 0x800_0040 && a >= 0
    ensures 0 <= x * a <= 0x800_0040 * a
  {
  }

  /** The five column sums of the product, with 2^130 replaced by 5. */
  function Columns(h: Limbs, r: Limbs): Limbs {
    Limbs(Row(h, r.x0, 5 * r.x4, 5 * r.x3, 5 * r.x2, 5 * r.x1),
          Row(h, r.x1, r.x0, 5 * r.x4, 5 * r.x3, 5 * r.x2),
          Row(h, r.x2, r.x1, r.x0, 5 * r.x4, 5 * r.x3),
          Row(h, r.x3, r.x2, r.x1, r.x0, 5 * r.x4),
          Row(h, r.x4, r.x3, r.x2, r.x1, r.x0))
  }

  /** What that replacement drops, as a multiple of the prime. */
  function Dropped(h: Limbs, r: Limbs): int {
    (h.x1 * r.x4 + h.x2 * r.x3 + h.x3 * r.x2 + h.x4 * r.x1)
    + 0x400_0000 * (h.x2 * r.x4 + h.x3 * r.x3 + h.x4 * r.x2)
    + 0x10_0000_0000_0000 * (h.x3 * r.x4 + h.x4 * r.x3)
    + 0x4000_0000_0000_0000_0000 * (h.x4 * r.x4)
  }

  /** x times a number in limbs. */
  lemma TimesVal(x: int, r: Limbs)
    ensures x * Val(r)
         == x * r.x0 + 0x400_0000 * (x * r.x1) + 0x10_0000_0000_0000 * (x * r.x2)
          + 0x4000_0000_0000_0000_0000 * (x * r.x3)
          + 0x100_0000_0000_0000_0000_0000_0000 * (x * r.x4)
  {
  }

  lemma FiveTimes(x: int, y: int)
    ensures x * (5 * y) == 5 * (x * y)
  {
  }

  lemma SumTimes(a: int, b: int, c: int, d: int, e: int, v: int)
    ensures (a + 0x400_0000 * b + 0x10_0000_0000_0000 * c + 0x4000_0000_0000_0000_0000 * d
             + 0x100_0000_0000_0000_0000_0000_0000 * e) * v
         == a * v + 0x400_0000 * (b * v) + 0x10_0000_0000_0000 * (c * v)
          + 0x4000_0000_0000_0000_0000 * (d * v) + 0x100_0000_0000_0000_0000_0000_0000 * (e * v)
  {
  }

  /** The column sums stand for the product modulo the prime. */
  lemma ColumnsProduct(h: Limbs, r: Limbs)
    ensures Val(h) * Val(r) == Val(Columns(h, r)) + Dropped(h, r) * Prime()
  {
    SumTimes(h.x0, h.x1, h.x2, h.x3, h.x4, Val(r));
    TimesVal(h.x0, r);
    TimesVal(h.x1, r);
    TimesVal(h.x2, r);
    TimesVal(h.x3, r);
    TimesVal(h.x4, r);
    FiveTimes(h.x1, r.x4);
    FiveTimes(h.x2, r.x3);
    FiveTimes(h.x2, r.x4);
    FiveTimes(h.x3, r.x2);
    FiveTimes(h.x3, r.x3);
    FiveTimes(h.x3, r.x4);
    FiveTimes(h.x4, r.x1);
    FiveTimes(h.x4, r.x2);
    FiveTimes(h.x4, r.x3);
    FiveTimes(h.x4, r.x4);
  }

  /** Bounds of the column sums. */
  predicate Summed(d: Limbs) {
    && 0 <= d.x0 <= 0x208_0010_4000_0000 && 0 <= d.x1 <= 0x208_0010_4000_0000
    && 0 <= d.x2 <= 0x208_0010_4000_0000 && 0 <= d.x3 <= 0x208_0010_4000_0000
    && 0 <= d.x4 <= 0x80_8004_0400_0000
  }

  lemma ColumnsSummed(h: Limbs, r: Limbs)
    requires Loaded(h) && Clamped(r)
    ensures Summed(Columns(h, r))
  {
    RowBound(h, r.x0, 5 * r.x4, 5 * r.x3, 5 * r.x2, 5 * r.x1);
    RowBound(h, r.x1, r.x0, 5 * r.x4, 5 * r.x3, 5 * r.x2);
    RowBound(h, r.x2, r.x1, r.x0, 5 * r.x4, 5 * r.x3);
    RowBound(h, r.x3, r.x2, r.x1, r.x0, 5 * r.x4);
    RowBound(h, r.x4, r.x3, r.x2, r.x1, r.x0);
  }

  /** The 25 products of a block, in 64-bit words that never wrap. */
  method Multiply(h: Limbs, r: Limbs) returns (d: Limbs)
    requires Loaded(h) && Clamped(r)
    ensures Summed(d) && Cong(Val(d), Val(h) * Val(r), Prime())
  {
    var s1, s2, s3, s4 := U32(r.x1 * 5), U32(r.x2 * 5), U32(r.x3 * 5), U32(r.x4 * 5);
    assert s1 == 5 * r.x1 && s2 == 5 * r.x2 && s3 == 5 * r.x3 && s4 == 5 * r.x4;
    d := Limbs(U64(Row(h, r.x0, s4, s3, s2, s1)), U64(Row(h, r.x1, r.x0, s4, s3, s2)),
               U64(Row(h, r.x2, r.x1, r.x0, s4, s3)), U64(Row(h, r.x3, r.x2, r.x1, r.x0, s4)),
               U64(Row(h, r.x4, r.x3, r.x2, r.x1, r.x0)));
    ColumnsSummed(h, r);
    assert d == Columns(h, r) by { NoWrap(Columns(h, r)); }
    ColumnsProduct(h, r);
    Opposite(Dropped(h, r), Prime());
    By(Val(d), Val(h) * Val(r), Prime(), -Dropped(h, r));
  }

  lemma NoWrap(d: Limbs)
    requires Summed(d)
    ensures d == Limbs(U64(d.x0), U64(d.x1), U64(d.x2), U64(d.x3), U64(d.x4))
  {
  }

  lemma Opposite(k: int, m: int)
    ensures -k * m == -(k * m)
  {
  }

  /** A column with the carry into it, split at 26 bits: the carry out, kept in 32 bits, and the limb. */
  method Split(d: int, into: int) returns (c: int, lo: int)
    requires 0 <= d && 0 <= into && d + into < 0x400_0000_0000_0000
    ensures d + into == lo + 0x400_0000 * c && 0 <= lo < 0x400_0000 && 0 <= c
  {
    var s := U64(d + into);
    Parts(s);
    c, lo := U32(s / 0x400_0000), U32(s) % 0x400_0000;
  }

  lemma Parts(d: int)
    requires 0 <= d < 0x400_0000_0000_0000
    ensures U32(d / 0x400_0000) == d / 0x400_0000 && U32(d) % 0x400_0000 == d % 0x400_0000
  {
    var q, u := d / 0x1_0000_0000, U32(d);
    Div(d, 0x400_0000, 64 * q + u / 0x400_0000, u % 0x400_0000);
  }

  /** Carries move value between neighbouring limbs; only the top one changes it, by the prime. */
  lemma Carried(d: Limbs, h: Limbs, c0: int, c1: int, c2: int, c3: int, c4: int, c5: int)
    requires h.x0 == d.x0 - 0x400_0000 * c0 + 5 * c4 - 0x400_0000 * c5
    requires h.x1 == d.x1 + c0 - 0x400_0000 * c1 + c5
    requires h.x2 == d.x2 + c1 - 0x400_0000 * c2
    requires h.x3 == d.x3 + c2 - 0x400_0000 * c3
    requires h.x4 == d.x4 + c3 - 0x400_0000 * c4
    ensures Cong(Val(h), Val(d), Prime())
  {
    Opposite(c4, Prime());
    By(Val(h), Val(d), Prime(), -c4);
  }

  /** One pass of carries over the columns, the top one coming back times 5. */
  method Carry(d: Limbs) returns (h: Limbs)
    requires Summed(d)
    ensures Settled(h) && Cong(Val(h), Val(d), Prime())
  {
    var c0, h0 := Split(d.x0, 0);
    var c1, h1 := Split(d.x1, c0);
    var c2, h2 := Split(d.x2, c1);
    var c3, h3 := Split(d.x3, c2);
    var c4, h4 := Split(d.x4, c3);
    var c5, top := Fold(h0, c4);
    h := Limbs(top, U32(h1 + c5), h2, h3, h4);
    Carried(d, h, c0, c1, c2, c3, c4, c5);
  }

  /** The carry out of limb 4 times 5, added to limb 0. */
  method Fold(h0: int, c4: int) returns (c: int, lo: int)
    requires 0 <= h0 < 0x400_0000 && 0 <= c4 <= 0x2020_0200
    ensures h0 + 5 * c4 == lo + 0x400_0000 * c && 0 <= lo < 0x400_0000 && 0 <= c < 64
  {
    var s := U32(h0 + U32(c4 * 5));
    c, lo := s / 0x400_0000, s % 0x400_0000;
  }
}
