/** Every way in which section 7 of RFC 8259 lets a character be written as an escape, and what the reader
    makes of it. */
module JsonEscapes {
  import opened Common
  import opened Utf8
  import opened JsonText
  import opened JsonRoundTrip

  /** The two-character escape, or \u escapes with each digit in the case that `caps` says. */
  datatype Spelling = Short | Unicode(caps: seq<bool>)

  /** The letter of the two-character escape, 0 if there is none. */
  function Letter(cp: int): Byte {
    if cp == 34 || cp == 92 || cp == 47 then cp
    else if cp == 8 then 98
    else if cp == 9 then 116
    else if cp == 10 then 110
    else if cp == 12 then 102
    else if cp == 13 then 114
    else 0
  }

  function Digit(v: int, cap: bool): Byte
    requires 0 <= v < 16
  {
    if v < 10 then 48 + v else if cap then 55 + v else 87 + v
  }

  /** A 16-bit number in four hexadecimal digits. */
  function Four(v: int, caps: seq<bool>): Bytes
    requires 0 <= v < 0x1_0000 && |caps| == 4
  {
    [BACKSLASH, 117, Digit(v / 4096, caps[0]), Digit(v / 256 % 16, caps[1]), Digit(v / 16 % 16, caps[2]),
     Digit(v % 16, caps[3])]
  }

  predicate SpellOk(cp: int, sp: Spelling) {
    Scalar(cp) && cp != 0 && if sp.Short? then Letter(cp) != 0 else |sp.caps| == 8
  }

  /** A character outside the first plane takes two escapes: its UTF-16 surrogate pair. */
  function Spell(cp: int, sp: Spelling): Bytes
    requires SpellOk(cp, sp)
  {
    if sp.Short? then [BACKSLASH, Letter(cp)]
    else if cp < 0x1_0000 then Four(cp, sp.caps[..4])
    else
      Four(0xD800 + (cp - 0x1_0000) / 0x400, sp.caps[..4]) + Four(0xDC00 + (cp - 0x1_0000) % 0x400, sp.caps[4..])
  }

  lemma DigitValue(v: int, cap: bool)
    requires 0 <= v < 16
    ensures HexValue(Digit(v, cap)) == v
  {
  }

  lemma FourSum(v: int)
    requires 0 <= v < 0x1_0000
    ensures 0 <= v / 4096 < 16
    ensures ((v / 4096 * 16 + v / 256 % 16) * 16 + v / 16 % 16) * 16 + v % 16 == v
  {
    assert v / 256 == v / 4096 * 16 + v / 256 % 16;
    assert v / 16 == v / 256 * 16 + v / 16 % 16;
  }

  lemma FourValue(v: int, caps: seq<bool>, u: Bytes)
    requires 0 <= v < 0x1_0000 && |caps| == 4
    ensures FourDigits(Four(v, caps) + u, 2) && Hex4(Four(v, caps) + u, 2) == v
    ensures FourDigits(Four(v, caps), 2) && Hex4(Four(v, caps), 2) == v
  {
    FourSum(v);
    DigitValue(v / 4096, caps[0]);
    DigitValue(v / 256 % 16, caps[1]);
    DigitValue(v / 16 % 16, caps[2]);
    DigitValue(v % 16, caps[3]);
  }

  lemma ReadsLetter(cp: int, u: Bytes)
    requires Letter(cp) != 0
    ensures Reads([BACKSLASH, Letter(cp)] + u, [cp], u)
  {
    var t := [BACKSLASH, Letter(cp)] + u;
    assert t[2..] == u && Token(t) == 2;
    SkipToken(t, 2);
    if Skip(u) == |u| {
      ContentEscape(t);
    }
  }

  /** The two escapes of a pair are read as one character. */
  lemma ReadsPair(hi: Bytes, lo: Bytes, u: Bytes)
    requires |hi| == 6 && hi[0] == BACKSLASH && hi[1] == 117 && FourDigits(hi, 2) && High(Hex4(hi, 2))
    requires |lo| == 6 && lo[0] == BACKSLASH && lo[1] == 117 && FourDigits(lo, 2) && Low(Hex4(lo, 2))
    ensures 0x1_0000 + (Hex4(hi, 2) - 0xD800) * 0x400 + (Hex4(lo, 2) - 0xDC00) <= 0x10FFFF
    ensures Reads(hi + lo + u, Encode(0x1_0000 + (Hex4(hi, 2) - 0xD800) * 0x400 + (Hex4(lo, 2) - 0xDC00)), u)
  {
    var t, v := hi + lo + u, lo + u;
    assert t[6..] == v && v[6..] == u && t[12..] == u;
    assert FourDigits(t, 2) && Hex4(t, 2) == Hex4(hi, 2) && FourDigits(v, 2);
    assert FourDigits(t, 8) && Hex4(t, 8) == Hex4(lo, 2);
    SkipToken(t, 6);
    SkipToken(v, 6);
    if Skip(u) == |u| {
      ContentEscape(t);
    }
  }

  lemma SpellPair(cp: int, hi: int, lo: int, caps: seq<bool>, u: Bytes)
    requires 0 <= hi < 0x400 && 0 <= lo < 0x400 && cp == 0x1_0000 + hi * 0x400 + lo && |caps| == 8
    ensures cp <= 0x10FFFF && Reads(Four(0xD800 + hi, caps[..4]) + Four(0xDC00 + lo, caps[4..]) + u, Encode(cp), u)
  {
    FourValue(0xD800 + hi, caps[..4], []);
    FourValue(0xDC00 + lo, caps[4..], []);
    ReadsPair(Four(0xD800 + hi, caps[..4]), Four(0xDC00 + lo, caps[4..]), u);
  }

  /** However a character is spelt, the reader makes its UTF-8 bytes of it. */
  lemma SpellReads(cp: int, sp: Spelling, u: Bytes)
    requires SpellOk(cp, sp)
    ensures Reads(Spell(cp, sp) + u, Encode(cp), u)
  {
    if sp.Short? {
      ReadsLetter(cp, u);
    } else if cp < 0x1_0000 {
      FourValue(cp, sp.caps[..4], u);
      ReadsUnicode(Spell(cp, sp), cp, u);
    } else {
      SpellPair(cp, (cp - 0x1_0000) / 0x400, (cp - 0x1_0000) % 0x400, sp.caps, u);
    }
  }

  function SpellAll(cps: seq<int>, sps: seq<Spelling>): Bytes
    requires |cps| == |sps| && forall i | 0 <= i < |cps| :: SpellOk(cps[i], sps[i])
  {
    if cps == [] then [] else Spell(cps[0], sps[0]) + SpellAll(cps[1..], sps[1..])
  }

  function EncodeAll(cps: seq<int>): Bytes
    requires forall i | 0 <= i < |cps| :: Scalar(cps[i])
  {
    if cps == [] then [] else
      assert Scalar(cps[0]);
      Encode(cps[0]) + EncodeAll(cps[1..])
  }

  lemma {:induction false} SpeltContent(cps: seq<int>, sps: seq<Spelling>)
    requires |cps| == |sps| && forall i | 0 <= i < |cps| :: SpellOk(cps[i], sps[i])
    ensures var t := SpellAll(cps, sps) + [QUOTE]; Skip(t) == |t| && Content(t) == Text(EncodeAll(cps))
  {
    if cps == [] {
      assert SpellAll(cps, sps) + [QUOTE] == [QUOTE];
    } else {
      SpeltContent(cps[1..], sps[1..]);
      var u := SpellAll(cps[1..], sps[1..]) + [QUOTE];
      assert SpellAll(cps, sps) + [QUOTE] == Spell(cps[0], sps[0]) + u;
      SpellReads(cps[0], sps[0], u);
    }
  }

  /** A literal of escapes, in any spelling, is read as the UTF-8 text of its characters. */
  lemma AnySpelling(cps: seq<int>, sps: seq<Spelling>)
    requires |cps| == |sps| && forall i | 0 <= i < |cps| :: SpellOk(cps[i], sps[i])
    ensures Decode([QUOTE] + SpellAll(cps, sps) + [QUOTE]) == Text(EncodeAll(cps))
  {
    var t := SpellAll(cps, sps) + [QUOTE];
    SpeltContent(cps, sps);
    assert ([QUOTE] + SpellAll(cps, sps) + [QUOTE])[1..] == t;
  }

  /** Half a surrogate pair is read as U+FFFD: a low half, and a high one with no low half after it. */
  lemma LoneHalf(v: int, caps: seq<bool>, u: Bytes)
    requires 0xD800 <= v <= 0xDFFF && |caps| == 4
    requires High(v) ==> !(|u| >= 6 && u[0] == BACKSLASH && u[1] == 117 && Low(Hex4(u, 2)))
    ensures Reads(Four(v, caps) + u, Encode(0xFFFD), u)
  {
    var t := Four(v, caps) + u;
    FourValue(v, caps, u);
    assert t[6..] == u;
    SkipToken(t, 6);
    if High(v) && |t| > 11 {
      assert Hex4(t, 8) == Hex4(u, 2);
    }
    if Skip(u) == |u| {
      ContentEscape(t);
    }
  }
}
