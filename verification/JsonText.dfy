/** JSON string literals (section 7 of RFC 8259): what the writer makes of a byte string and what the
    reader makes of a literal, and why the two undo each other. */
module JsonText {
  import opened Common
  import opened Utf8

  const QUOTE: Byte := 34

  const BACKSLASH: Byte := 92

  function HexDigit(v: int): Byte
    requires 0 <= v < 16
  {
    if v < 10 then 48 + v else 87 + v
  }

  // ---- writer

  /** The bytes that are written as an escape whatever follows them. */
  predicate Escapes(c: int) {
    c == 34 || c == 92 || c < 0x20 || c == 0x7F
  }

  function EscapeOf(c: Byte): (e: Bytes)
    requires Escapes(c)
  {
    if c == 34 || c == 92 then [BACKSLASH, c]
    else if c == 10 then [BACKSLASH, 110]
    else if c == 13 then [BACKSLASH, 114]
    else if c == 9 then [BACKSLASH, 116]
    else [BACKSLASH, 117, 48, 48, HexDigit(c / 16), HexDigit(c % 16)]
  }

  /** How many bytes of s the next piece of output stands for. */
  function Unit(s: Bytes): (n: nat)
    requires s != []
    ensures 1 <= n <= |s|
  {
    if Escapes(s[0]) || SeqLen(s) == 0 then 1 else SeqLen(s)
  }

  function Piece(s: Bytes): (p: Bytes)
    requires s != []
  {
    if Escapes(s[0]) then EscapeOf(s[0])
    else if SeqLen(s) == 0 then [BACKSLASH, 117, 102, 102, 102, 100]
    else s[..SeqLen(s)]
  }

  function Escaped(s: Bytes): Bytes
    decreases |s|, 1
  {
    if s == [] then [] else EscapedFrom(s)
  }

  function EscapedFrom(s: Bytes): Bytes
    requires s != []
    decreases |s|, 0
  {
    Piece(s) + Escaped(s[Unit(s)..])
  }

  lemma EscapedStep(s: Bytes)
    requires s != []
    ensures Escaped(s) + [QUOTE] == Piece(s) + (Escaped(s[Unit(s)..]) + [QUOTE])
  {
    assert Escaped(s) == EscapedFrom(s);
  }

  function Literal(s: Bytes): Bytes {
    [QUOTE] + (Escaped(s) + [QUOTE])
  }

  // ---- reader

  function Hex4(t: Bytes, i: nat): int
    requires i + 4 <= |t|
  {
    ((HexValue(t[i]) * 16 + HexValue(t[i + 1])) * 16 + HexValue(t[i + 2])) * 16 + HexValue(t[i + 3])
  }

  predicate FourDigits(t: Bytes, i: nat) {
    && i + 4 <= |t|
    && HexValue(t[i]) >= 0 && HexValue(t[i + 1]) >= 0 && HexValue(t[i + 2]) >= 0 && HexValue(t[i + 3]) >= 0
  }

  /** The length of the character or escape at the front of t, 0 if it is malformed. */
  function Token(t: Bytes): (n: nat)
    requires t != []
    ensures n <= |t|
  {
    if t[0] < 0x20 then 0
    else if t[0] != BACKSLASH then 1
    else if |t| < 2 then 0
    else if t[1] == 117 then if FourDigits(t, 2) then 6 else 0
    else if t[1] == 34 || t[1] == 92 || t[1] == 47 || t[1] == 98 || t[1] == 102 || t[1] == 110 || t[1] == 114
            || t[1] == 116 then 2
    else 0
  }

  /** The distance past the closing quote, -1 if the rest of a literal is malformed or has no end. */
  function Skip(t: Bytes): (n: int)
    ensures -1 <= n <= |t| && n != 0
    decreases |t|, 1
  {
    if t == [] then -1 else if t[0] == QUOTE then 1 else SkipOver(t)
  }

  /** Kept apart from Skip so that the verifier does not unfold a token in every proof. */
  function SkipOver(t: Bytes): (n: int)
    requires t != []
    ensures -1 <= n <= |t| && n != 0
    decreases |t|, 0
  {
    if Token(t) == 0 then -1
    else
      var n := Skip(t[Token(t)..]);
      if n < 0 then -1 else Token(t) + n
  }

  lemma SkipToken(t: Bytes, k: nat)
    requires t != [] && t[0] != QUOTE && k == Token(t)
    ensures k == 0 ==> Skip(t) == -1
    ensures k > 0 ==> (Skip(t) > 0 <==> Skip(t[k..]) > 0)
                      && (Skip(t) > 0 ==> Skip(t) == k + Skip(t[k..]))
  {
    assert Skip(t) == SkipOver(t);
  }

  predicate High(cp: int) {
    0xD800 <= cp <= 0xDBFF
  }

  predicate Low(cp: int) {
    0xDC00 <= cp <= 0xDFFF
  }

  /** Whether a \u escape of a high surrogate is followed by one of a low surrogate. */
  predicate Pair(t: Bytes)
    requires FourDigits(t, 2)
  {
    High(Hex4(t, 2)) && |t| > 11 && t[6] == BACKSLASH && t[7] == 117 && Low(Hex4(t, 8))
  }

  /** The code point of the escape at the front of t, and the bytes it takes. */
  function Escape(t: Bytes): (int, nat)
    requires t != [] && t[0] == BACKSLASH && Token(t) > 0
  {
    if t[1] == 98 then (8, 2)
    else if t[1] == 102 then (12, 2)
    else if t[1] == 110 then (10, 2)
    else if t[1] == 114 then (13, 2)
    else if t[1] == 116 then (9, 2)
    else if t[1] == 117 then
      if Pair(t) then (0x1_0000 + (Hex4(t, 2) - 0xD800) * 1024 + (Hex4(t, 8) - 0xDC00), 12)
      else (if High(Hex4(t, 2)) || Low(Hex4(t, 2)) then 0xFFFD else Hex4(t, 2), 6)
    else (t[1], 2)
  }

  datatype Decoded = Refused | Text(bytes: Bytes)

  function Before(b: Bytes, d: Decoded): Decoded {
    if d.Text? then Text(b + d.bytes) else Refused
  }

  lemma BeforeTwice(a: Bytes, b: Bytes, d: Decoded)
    ensures Before(a, Before(b, d)) == Before(a + b, d)
  {
    if d.Text? {
      assert a + (b + d.bytes) == a + b + d.bytes;
    }
  }

  lemma EscapeRange(t: Bytes)
    requires t != [] && t[0] == BACKSLASH && Token(t) > 0
    requires Skip(t) == |t|
    ensures Scalar(Escape(t).0) && 0 < Escape(t).1 < |t| && Skip(t[Escape(t).1..]) == |t| - Escape(t).1
  {
    SkipToken(t, Token(t));
    if t[1] == 117 && Pair(t) {
      var u := t[6..];
      assert u[0] == BACKSLASH && u[1] == 117;
      SkipToken(u, Token(u));
      assert u[6..] == t[12..];
    }
  }

  /** The bytes a literal stands for, from behind its opening quote; a NUL is refused. */
  function Content(t: Bytes): Decoded
    requires Skip(t) == |t|
    decreases |t|, 1
  {
    if t[0] == QUOTE then Text([]) else ContentOf(t)
  }

  function ContentOf(t: Bytes): Decoded
    requires Skip(t) == |t| && t[0] != QUOTE
    decreases |t|, 0
  {
    SkipToken(t, Token(t));
    if t[0] != BACKSLASH then Before([t[0]], Content(t[1..]))
    else
      EscapeRange(t);
      var (cp, n) := Escape(t);
      if cp == 0 then Refused else Before(Encode(cp), Content(t[n..]))
  }

  lemma ContentEscape(t: Bytes)
    requires Skip(t) == |t| && t[0] == BACKSLASH
    ensures Token(t) > 0 && Scalar(Escape(t).0) && 0 < Escape(t).1 < |t|
    ensures Skip(t[Escape(t).1..]) == |t| - Escape(t).1
    ensures Content(t) == if Escape(t).0 == 0 then Refused
                          else Before(Encode(Escape(t).0), Content(t[Escape(t).1..]))
  {
    SkipToken(t, Token(t));
    EscapeRange(t);
    assert Content(t) == ContentOf(t);
  }

  lemma ContentByte(t: Bytes)
    requires Skip(t) == |t| && t[0] != QUOTE && t[0] != BACKSLASH
    ensures t[0] >= 0x20 && |t| > 1
    ensures Skip(t[1..]) == |t| - 1 && Content(t) == Before([t[0]], Content(t[1..]))
  {
    SkipToken(t, Token(t));
    assert Content(t) == ContentOf(t);
  }

  function Decode(s: Bytes): Decoded {
    if s != [] && s[0] == QUOTE && Skip(s[1..]) == |s| - 1 then Content(s[1..]) else Refused
  }
}
