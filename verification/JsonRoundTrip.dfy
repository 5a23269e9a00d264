/** Reading back what the writer wrote. */
module JsonRoundTrip {
  import opened Common
  import opened Utf8
  import opened JsonText

  predicate ValidUtf8(s: Bytes) {
    s == [] || (SeqLen(s) > 0 && ValidUtf8(s[SeqLen(s)..]))
  }

  /** s with every byte that is not part of a UTF-8 sequence replaced by U+FFFD. */
  function Repaired(s: Bytes): Bytes {
    if s == [] then []
    else if SeqLen(s) == 0 then Encode(0xFFFD) + Repaired(s[1..])
    else s[..SeqLen(s)] + Repaired(s[SeqLen(s)..])
  }

  lemma {:induction false} RepairedValid(s: Bytes)
    requires ValidUtf8(s)
    ensures Repaired(s) == s
  {
    if s != [] {
      var n := SeqLen(s);
      var u := s[n..];
      assert s == s[..n] + u;
      RepairedValid(u);
      assert Repaired(s) == s[..n] + Repaired(u);
    }
  }

  /** The replacement is UTF-8. */
  lemma {:induction false} RepairedIsValid(s: Bytes)
    ensures ValidUtf8(Repaired(s))
    decreases |s|
  {
    if s != [] {
      var n := SeqLen(s);
      if n == 0 {
        RepairedIsValid(s[1..]);
        ValidJoin(0xFFFD, Repaired(s[1..]));
      } else {
        RepairedIsValid(s[n..]);
        var cp := AcceptsOnlyEncoded(s);
        ValidJoin(cp, Repaired(s[n..]));
      }
    }
  }

  lemma ValidJoin(cp: int, s: Bytes)
    requires Scalar(cp) && ValidUtf8(s)
    ensures ValidUtf8(Encode(cp) + s)
  {
    AcceptsEncoded(cp, s);
    assert (Encode(cp) + s)[|Encode(cp)|..] == s;
  }

  /** Replacement changes nothing exactly when there is nothing to replace. */
  lemma RepairedIff(s: Bytes)
    ensures Repaired(s) == s <==> ValidUtf8(s)
  {
    if ValidUtf8(s) {
      RepairedValid(s);
    }
    if Repaired(s) == s {
      RepairedIsValid(s);
    }
  }

  /** Bytes that a literal holds as themselves. */
  predicate Plain(b: Bytes) {
    forall i :: 0 <= i < |b| ==> b[i] >= 0x20 && b[i] != QUOTE && b[i] != BACKSLASH
  }

  /** Reading t gives b and then what reading u gives; t is well-formed if u is. */
  ghost predicate Reads(t: Bytes, b: Bytes, u: Bytes) {
    && |u| < |t| && u == t[|t| - |u|..]
    && (Skip(u) == |u| ==> Skip(t) == |t| && Content(t) == Before(b, Content(u)))
  }

  lemma ReadsThen(t: Bytes, a: Bytes, u: Bytes, b: Bytes, v: Bytes)
    requires Reads(t, a, u) && Reads(u, b, v)
    ensures Reads(t, a + b, v)
  {
    assert v == t[|t| - |v|..];
    if Skip(v) == |v| {
      BeforeTwice(a, b, Content(v));
    }
  }

  lemma ReadsByte(c: Byte, u: Bytes)
    requires c >= 0x20 && c != QUOTE && c != BACKSLASH
    ensures Reads([c] + u, [c], u)
  {
    var t := [c] + u;
    assert t[1..] == u;
    SkipToken(t, 1);
    if Skip(u) == |u| {
      ContentByte(t);
    }
  }

  lemma {:induction false} ReadsPlain(b: Bytes, u: Bytes)
    requires b != [] && Plain(b)
    ensures Reads(b + u, b, u)
    decreases |b|
  {
    var v := b[1..] + u;
    assert b + u == [b[0]] + v && [b[0]] + b[1..] == b;
    ReadsByte(b[0], v);
    if |b| == 1 {
      assert v == u && b == [b[0]];
    } else {
      ReadsPlain(b[1..], u);
      ReadsThen(b + u, [b[0]], v, b[1..], u);
    }
  }

  /** A sequence of several bytes has none below 0x80. */
  lemma SequencePlain(s: Bytes)
    requires s != [] && SeqLen(s) > 0 && !Escapes(s[0])
    ensures Plain(s[..SeqLen(s)])
  {
    PlainFirst(s);
  }

  lemma ReadsShort(c: Byte, e: Byte, u: Bytes)
    requires (c, e) in {(34, 34), (92, 92), (10, 110), (13, 114), (9, 116)}
    ensures Reads([BACKSLASH, e] + u, [c], u)
  {
    var t := [BACKSLASH, e] + u;
    assert t[2..] == u && Token(t) == 2;
    SkipToken(t, 2);
    if Skip(u) == |u| {
      ContentEscape(t);
    }
  }

  /** A \\u escape of one code point that is not a surrogate. */
  lemma ReadsUnicode(e: Bytes, cp: int, u: Bytes)
    requires |e| == 6 && e[0] == BACKSLASH && e[1] == 117 && FourDigits(e, 2) && Hex4(e, 2) == cp
    requires 0 < cp < 0xD800 || 0xDFFF < cp <= 0xFFFF
    ensures Reads(e + u, Encode(cp), u)
  {
    var t := e + u;
    assert t[6..] == u && FourDigits(t, 2) && Hex4(t, 2) == cp;
    SkipToken(t, 6);
    if Skip(u) == |u| {
      ContentEscape(t);
    }
  }

  /** ... and of NUL, which is refused. */
  lemma ReadsNul(e: Bytes, u: Bytes)
    requires |e| == 6 && e[0] == BACKSLASH && e[1] == 117 && FourDigits(e, 2) && Hex4(e, 2) == 0
    requires Skip(u) == |u|
    ensures Skip(e + u) == |e + u| && Content(e + u) == Refused
  {
    var t := e + u;
    assert t[6..] == u && FourDigits(t, 2) && Hex4(t, 2) == 0;
    SkipToken(t, 6);
    ContentEscape(t);
  }

  lemma HexRoundTrip(v: int)
    requires 0 <= v < 16
    ensures HexValue(HexDigit(v)) == v
  {
  }

  lemma ControlDigits(c: Byte)
    requires Escapes(c) && c != 34 && c != 92 && c != 10 && c != 13 && c != 9
    ensures FourDigits(EscapeOf(c), 2) && Hex4(EscapeOf(c), 2) == c
  {
    HexRoundTrip(c / 16);
    HexRoundTrip(c % 16);
  }

  /** What the writer puts down for one unit is read back as that unit, or as U+FFFD. */
  lemma ReadsPiece(s: Bytes, u: Bytes)
    requires s != [] && s[0] != 0
    ensures Reads(Piece(s) + u, if SeqLen(s) == 0 then Encode(0xFFFD) else s[..SeqLen(s)], u)
  {
    var c := s[0];
    if c == 34 || c == 92 || c == 10 || c == 13 || c == 9 {
      ReadsShort(c, EscapeOf(c)[1], u);
      assert s[..1] == [c];
    } else if Escapes(c) {
      ControlDigits(c);
      ReadsUnicode(EscapeOf(c), c, u);
      assert s[..1] == [c] == Encode(c);
    } else if SeqLen(s) == 0 {
      ReadsUnicode(Piece(s), 0xFFFD, u);
    } else {
      SequencePlain(s);
      ReadsPlain(Piece(s), u);
    }
  }

  lemma NulInside(s: Bytes)
    requires s != [] && s[0] != 0
    ensures 0 in s <==> 0 in s[Unit(s)..]
  {
    var n := Unit(s);
    if n > 1 {
      Continues(s, n);
    }
    forall i | 0 <= i < n ensures s[i] != 0 {
    }
    if 0 in s {
      var i :| 0 <= i < |s| && s[i] == 0;
      assert s[n..][i - n] == 0;
    }
  }

  lemma {:induction false} ReadsBack(s: Bytes)
    ensures Skip(Escaped(s) + [QUOTE]) == |Escaped(s) + [QUOTE]|
    ensures Content(Escaped(s) + [QUOTE]) == if 0 in s then Refused else Text(Repaired(s))
    decreases |s|
  {
    if s == [] {
      assert Escaped(s) + [QUOTE] == [QUOTE];
    } else {
      var rest := s[Unit(s)..];
      var u := Escaped(rest) + [QUOTE];
      ReadsBack(rest);
      EscapedStep(s);
      if s[0] == 0 {
        ControlDigits(0);
        ReadsNul(EscapeOf(0), u);
      } else {
        ReadsPiece(s, u);
        NulInside(s);
      }
    }
  }

  /** Every string without a NUL is read back as it was written, once its invalid bytes are replaced; a
      string with a NUL is refused. */
  lemma RoundTrip(s: Bytes)
    ensures Decode(Literal(s)) == if 0 in s then Refused else Text(Repaired(s))
    ensures Decode(Literal(s)) == Text(s) <==> 0 !in s && ValidUtf8(s)
  {
    ReadsBack(s);
    var t := Literal(s);
    assert t[1..] == Escaped(s) + [QUOTE];
    RepairedIff(s);
  }

  lemma {:induction false} AsciiFirst(t: Bytes, n: nat)
    requires n <= |t| && ValidUtf8(t) && forall i :: 0 <= i < n ==> t[i] < 0x80
    ensures ValidUtf8(t[n..])
    decreases n
  {
    if n == 0 {
      assert t[0..] == t;
    } else {
      AsciiFirst(t[1..], n - 1);
      assert t[1..][n - 1..] == t[n..];
    }
  }

  lemma TokenAscii(t: Bytes)
    requires t != [] && t[0] == BACKSLASH && Token(t) > 0
    ensures Token(t) == 2 || Token(t) == 6
    ensures forall i :: 0 <= i < Token(t) ==> t[i] < 0x80
  {
  }

  lemma EscapeAscii(t: Bytes)
    requires t != [] && t[0] == BACKSLASH && Token(t) > 0 && Skip(t) == |t|
    ensures Escape(t).1 <= |t| && forall i :: 0 <= i < Escape(t).1 ==> t[i] < 0x80
  {
    EscapeRange(t);
    TokenAscii(t);
    if t[1] == 117 && Pair(t) {
      SkipToken(t, 6);
      PairAscii(t, t[6..]);
    }
  }

  lemma PairAscii(t: Bytes, u: Bytes)
    requires |t| >= 12 && u == t[6..] && u[0] == BACKSLASH && u[1] == 117 && Skip(u) == |u|
    requires forall i :: 0 <= i < 6 ==> t[i] < 0x80
    ensures forall i :: 0 <= i < 12 ==> t[i] < 0x80
  {
    SkipToken(u, Token(u));
    TokenAscii(u);
    forall i | 6 <= i < 12 ensures t[i] < 0x80 {
      assert t[i] == u[i - 6];
    }
  }

  lemma {:induction false} SkipPlain(b: Bytes, u: Bytes)
    requires Plain(b) && Skip(b + u) == |b + u|
    ensures Skip(u) == |u|
    decreases |b|
  {
    if b == [] {
      assert b + u == u;
    } else {
      assert (b + u)[1..] == b[1..] + u;
      SkipToken(b + u, 1);
      SkipPlain(b[1..], u);
    }
  }

  /** A literal that is UTF-8 is decoded to UTF-8 without a NUL: escapes of unpaired surrogates included. */
  lemma {:induction false} ContentUtf8(t: Bytes)
    requires Skip(t) == |t| && ValidUtf8(t) && Content(t).Text?
    ensures ValidUtf8(Content(t).bytes) && 0 !in Content(t).bytes
    decreases |t|
  {
    if t[0] == QUOTE {
    } else if t[0] != BACKSLASH {
      ContentByte(t);
      var n := SeqLen(t);
      var u := t[n..];
      assert t == t[..n] + u;
      PlainFirst(t);
      SkipPlain(t[..n], u);
      ReadsPlain(t[..n], u);
      ContentUtf8(u);
      var cp := AcceptsOnlyEncoded(t);
      ValidJoin(cp, Content(u).bytes);
    } else {
      ContentEscape(t);
      EscapeAscii(t);
      var (cp, n) := Escape(t);
      AsciiFirst(t, n);
      ContentUtf8(t[n..]);
      ValidJoin(cp, Content(t[n..]).bytes);
      NoNul(cp);
    }
  }

  lemma PlainFirst(t: Bytes)
    requires t != [] && SeqLen(t) > 0 && t[0] >= 0x20 && t[0] != QUOTE && t[0] != BACKSLASH
    ensures Plain(t[..SeqLen(t)])
  {
    if SeqLen(t) > 1 {
      Continues(t, SeqLen(t));
    }
  }

  lemma NoNul(cp: int)
    requires Scalar(cp) && cp != 0
    ensures 0 !in Encode(cp)
  {
  }

  lemma DecodedUtf8(s: Bytes)
    requires ValidUtf8(s) && Decode(s).Text?
    ensures ValidUtf8(Decode(s).bytes) && 0 !in Decode(s).bytes
  {
    AsciiFirst(s, 1);
    ContentUtf8(s[1..]);
  }
}
