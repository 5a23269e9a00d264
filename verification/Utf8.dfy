/** UTF-8 as utf8_seq recognises it and decode_string writes it, against the encoding of RFC 3629. */
module Utf8 {
  import opened Common
  type Bytes = seq<Byte>

  /** Unicode scalar values: code points that are not surrogates. */
  predicate Scalar(cp: int) {
    0 <= cp <= 0x10FFFF && !(0xD800 <= cp <= 0xDFFF)
  }

  /** The encoding of a scalar value. */
  function Encode(cp: int): (s: Bytes)
    requires 0 <= cp <= 0x10FFFF
    ensures 1 <= |s| <= 4
  {
    if cp < 0x80 then [cp]
    else if cp < 0x800 then [0xC0 + cp / 64, 0x80 + cp % 64]
    else if cp < 0x1_0000 then [0xE0 + cp / 4096, 0x80 + cp / 64 % 64, 0x80 + cp % 64]
    else [0xF0 + cp / 0x4_0000, 0x80 + cp / 4096 % 64, 0x80 + cp / 64 % 64, 0x80 + cp % 64]
  }

  /** The length and the leading bits that the first byte announces. */
  function Announced(c: int): (int, int) {
    if c < 0x80 then (1, c)
    else if 0xC2 <= c <= 0xDF then (2, c % 32)
    else if 0xE0 <= c <= 0xEF then (3, c % 16)
    else if 0xF0 <= c <= 0xF4 then (4, c % 8)
    else (0, 0)
  }

  /** The code point after the first i bytes, or -1 where a continuation byte is missing. */
  function CodePoint(s: Bytes, i: nat): int
    requires 1 <= i <= |s|
  {
    if i == 1 then Announced(s[0]).1
    else if s[i - 1] / 64 != 2 || CodePoint(s, i - 1) < 0 then -1
    else CodePoint(s, i - 1) * 64 + s[i - 1] % 64
  }

  predicate InRange(n: int, cp: int) {
    !((n == 3 && cp < 0x800) || (n == 4 && (cp < 0x1_0000 || cp > 0x10FFFF)) || 0xD800 <= cp <= 0xDFFF)
  }

  /** The length of the UTF-8 sequence at the front of s, 0 if there is none. */
  function SeqLen(s: Bytes): (k: nat)
    requires s != []
    ensures k <= |s|
  {
    var n := Announced(s[0]).0;
    if n <= 1 then n
    else if n > |s| || CodePoint(s, n) < 0 || !InRange(n, CodePoint(s, n)) then 0
    else n
  }

  method Utf8Seq(s: Bytes) returns (k: nat)
    requires s != []
    ensures k == SeqLen(s)
  {
    var c: int := s[0];
    var n, cp;
    if c < 0x80 {
      return 1;
    }
    if 0xC2 <= c <= 0xDF {
      n, cp := 2, c % 32;
    } else if 0xE0 <= c <= 0xEF {
      n, cp := 3, c % 16;
    } else if 0xF0 <= c <= 0xF4 {
      n, cp := 4, c % 8;
    } else {
      return 0;
    }
    if n > |s| {
      return 0;
    }
    for i := 1 to n
      invariant cp == CodePoint(s, i) >= 0
    {
      if s[i] / 64 != 2 {
        Broken(s, i + 1, n);
        return 0;
      }
      cp := cp * 64 + s[i] % 64;
    }
    if (n == 3 && cp < 0x800) || (n == 4 && (cp < 0x1_0000 || cp > 0x10FFFF)) || 0xD800 <= cp <= 0xDFFF {
      return 0;
    }
    return n;
  }

  lemma {:induction false} Broken(s: Bytes, i: nat, n: nat)
    requires 1 <= i <= n <= |s| && CodePoint(s, i) < 0
    ensures CodePoint(s, n) < 0
    decreases n
  {
    if i < n {
      Broken(s, i, n - 1);
    }
  }

  lemma CodePoint2(s: Bytes)
    requires |s| >= 2
    ensures CodePoint(s, 2) == if s[1] / 64 != 2 || Announced(s[0]).1 < 0 then -1
                               else Announced(s[0]).1 * 64 + s[1] % 64
  {
  }

  lemma CodePoint3(s: Bytes)
    requires |s| >= 3 && s[1] / 64 == 2 && Announced(s[0]).1 >= 0
    ensures CodePoint(s, 3) == if s[2] / 64 != 2 then -1
                               else (Announced(s[0]).1 * 64 + s[1] % 64) * 64 + s[2] % 64
  {
    CodePoint2(s);
  }

  lemma CodePoint4(s: Bytes)
    requires |s| >= 4 && s[1] / 64 == 2 && s[2] / 64 == 2 && Announced(s[0]).1 >= 0
    ensures CodePoint(s, 4) == if s[3] / 64 != 2 then -1
                               else ((Announced(s[0]).1 * 64 + s[1] % 64) * 64 + s[2] % 64) * 64 + s[3] % 64
  {
    CodePoint3(s);
  }

  /** The digits of a number to base 64. */
  lemma Base64(a: int, b: int, c: int, d: int, cp: int)
    requires 0 <= a && 0 <= b < 64 && 0 <= c < 64 && 0 <= d < 64 && cp == ((a * 64 + b) * 64 + c) * 64 + d
    ensures cp % 64 == d && cp / 64 == (a * 64 + b) * 64 + c && cp / 64 % 64 == c
    ensures cp / 4096 == a * 64 + b && cp / 4096 % 64 == b && cp / 0x4_0000 == a
  {
  }

  lemma Digits(cp: int) returns (a: int, b: int, c: int, d: int)
    requires 0 <= cp <= 0x10FFFF
    ensures 0 <= a && 0 <= b < 64 && 0 <= c < 64 && 0 <= d < 64 && cp == ((a * 64 + b) * 64 + c) * 64 + d
  {
    a, b, c, d := cp / 0x4_0000, cp / 4096 % 64, cp / 64 % 64, cp % 64;
  }

  lemma Accepts2(s: Bytes, c: int, d: int)
    requires |s| >= 2 && 2 <= c < 32 && 0 <= d < 64 && s[0] == 0xC0 + c && s[1] == 0x80 + d
    ensures SeqLen(s) == 2 && CodePoint(s, 2) == c * 64 + d
  {
    CodePoint2(s);
  }

  lemma Accepts3(s: Bytes, b: int, c: int, d: int, cp: int)
    requires |s| >= 3 && 0 <= b < 16 && 0 <= c < 64 && 0 <= d < 64
    requires s[0] == 0xE0 + b && s[1] == 0x80 + c && s[2] == 0x80 + d
    requires cp == (b * 64 + c) * 64 + d && cp >= 0x800 && Scalar(cp)
    ensures SeqLen(s) == 3 && CodePoint(s, 3) == cp
  {
    CodePoint3(s);
  }

  lemma Accepts4(s: Bytes, a: int, b: int, c: int, d: int, cp: int)
    requires |s| >= 4 && 0 <= a <= 4 && 0 <= b < 64 && 0 <= c < 64 && 0 <= d < 64
    requires s[0] == 0xF0 + a && s[1] == 0x80 + b && s[2] == 0x80 + c && s[3] == 0x80 + d
    requires cp == ((a * 64 + b) * 64 + c) * 64 + d && cp >= 0x1_0000 && Scalar(cp)
    ensures SeqLen(s) == 4 && CodePoint(s, 4) == cp
  {
    CodePoint4(s);
  }

  /** utf8_seq accepts every encoded scalar value, whatever follows it, and works out that value ... */
  lemma AcceptsEncoded(cp: int, rest: Bytes)
    requires Scalar(cp)
    ensures SeqLen(Encode(cp) + rest) == |Encode(cp)| && CodePoint(Encode(cp) + rest, |Encode(cp)|) == cp
  {
    var s := Encode(cp) + rest;
    var a, b, c, d := Digits(cp);
    Base64(a, b, c, d, cp);
    if 0x80 <= cp < 0x800 {
      Accepts2(s, c, d);
    } else if 0x800 <= cp < 0x1_0000 {
      Accepts3(s, b, c, d, cp);
    } else if 0x1_0000 <= cp {
      Accepts4(s, a, b, c, d, cp);
    }
  }

  /** ... and nothing else. */
  lemma AcceptsOnlyEncoded(s: Bytes) returns (cp: int)
    requires s != [] && SeqLen(s) > 0
    ensures Scalar(cp) && s[..SeqLen(s)] == Encode(cp) && CodePoint(s, SeqLen(s)) == cp
  {
    var n := SeqLen(s);
    if n == 1 {
      cp := s[0];
    } else {
      Continues(s, n);
      cp := CodePoint(s, n);
      if n == 2 {
        Two(s);
      } else if n == 3 {
        Three(s);
      } else {
        Four(s);
      }
    }
  }

  lemma Two(s: Bytes)
    requires s != [] && SeqLen(s) == 2
    ensures Scalar(CodePoint(s, 2)) && s[..2] == Encode(CodePoint(s, 2))
  {
    CodePoint2(s);
    Base64(0, 0, s[0] - 0xC0, s[1] - 0x80, CodePoint(s, 2));
  }

  lemma Three(s: Bytes)
    requires s != [] && SeqLen(s) == 3 && s[1] / 64 == 2 && s[2] / 64 == 2
    ensures Scalar(CodePoint(s, 3)) && s[..3] == Encode(CodePoint(s, 3))
  {
    CodePoint3(s);
    Base64(0, s[0] - 0xE0, s[1] - 0x80, s[2] - 0x80, CodePoint(s, 3));
  }

  lemma Four(s: Bytes)
    requires s != [] && SeqLen(s) == 4 && s[1] / 64 == 2 && s[2] / 64 == 2 && s[3] / 64 == 2
    ensures Scalar(CodePoint(s, 4)) && s[..4] == Encode(CodePoint(s, 4))
  {
    CodePoint4(s);
    Base64(s[0] - 0xF0, s[1] - 0x80, s[2] - 0x80, s[3] - 0x80, CodePoint(s, 4));
  }

  lemma {:induction false} Continues(s: Bytes, n: nat)
    requires 1 <= n <= |s| && CodePoint(s, n) >= 0
    ensures forall i :: 1 <= i < n ==> s[i] / 64 == 2
  {
    if n > 1 {
      Continues(s, n - 1);
    }
  }
}
