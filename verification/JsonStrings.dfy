/** The bounded JSON writer and the string reader, as they work on buffers. */
module JsonStrings {
  import opened Common
  import opened Utf8
  import opened JsonText

  class Writer {
    const p: array<Byte>
    var len: nat
    var overflow: bool

    ghost predicate Valid()
      reads this
    {
      len <= p.Length
    }

    ghost function Written(): Bytes
      reads this, p
      requires Valid()
    {
      p[..len]
    }

    constructor (p: array<Byte>)
      modifies p
      ensures Valid() && this.p == p && !overflow && Written() == [] && (p.Length > 0 ==> p[0] == 0)
    {
      this.p := p;
      len, overflow := 0, false;
      new;
      if p.Length > 0 {
        p[0] := 0;
      }
    }

    /** Text is appended with a NUL behind it, or the writer overflows and nothing is written any more. */
    method Raw(s: Bytes)
      requires Valid()
      modifies `len, `overflow, p
      ensures Valid() && overflow == (old(overflow) || old(len) + |s| >= p.Length)
      ensures overflow ==> Written() == old(Written())
      ensures !overflow ==> Written() == old(Written()) + s && p[len] == 0
    {
      if overflow || |s| > p.Length - len || p.Length - len - |s| < 1 {
        overflow := true;
        return;
      }
      for i := 0 to |s|
        modifies p
        invariant p[..len + i] == old(p[..len]) + s[..i]
      {
        p[len + i] := s[i];
      }
      assert s[..|s|] == s;
      len := len + |s|;
      p[len] := 0;
    }

    /** A string literal: it fits, with its NUL, or the writer overflows. */
    method Str(s: Bytes)
      requires Valid()
      modifies `len, `overflow, p
      ensures Valid() && overflow == (old(overflow) || old(len) + |Literal(s)| >= p.Length)
      ensures !overflow ==> Written() == old(Written()) + Literal(s) && p[len] == 0
    {
      ghost var all := Written() + Literal(s);
      assert all == Written() + [QUOTE] + (Escaped(s) + [QUOTE]) && |all| >= |Written()| + 1;
      Raw([QUOTE]);
      var i := 0;
      assert s[0..] == s;
      while i < |s| && !overflow
        invariant Valid() && i <= |s|
        invariant overflow ==> old(overflow) || |all| >= p.Length
        invariant !overflow ==> !old(overflow) && all == Written() + (Escaped(s[i..]) + [QUOTE])
      {
        var n := Put(s, i, all);
        ghost var rest := s[i + n..];
        i := i + n;
        assert s[i..] == rest;
      }
      assert i == |s| ==> s[i..] == [] && Escaped(s[i..]) + [QUOTE] == [QUOTE];
      Raw([QUOTE]);
    }

    /** The output for the unit at i; all is what the whole literal would make of the text. */
    method Put(s: Bytes, i: nat, ghost all: Bytes) returns (n: nat)
      requires Valid() && !overflow && i < |s| && all == Written() + (Escaped(s[i..]) + [QUOTE])
      modifies `len, `overflow, p
      ensures Valid() && 0 < n <= |s| - i && (overflow ==> |all| >= p.Length)
      ensures !overflow ==> all == Written() + (Escaped(s[i + n..]) + [QUOTE])
    {
      ghost var was := Written();
      var piece;
      piece, n := One(s[i..]);
      ghost var rest := Escaped(s[i + n..]) + [QUOTE];
      assert s[i..][n..] == s[i + n..];
      EscapedStep(s[i..]);
      assert all == was + piece + rest;
      Raw(piece);
    }

    /** The output for the unit at the front of s, and its length. */
    method One(s: Bytes) returns (piece: Bytes, n: nat)
      requires s != []
      ensures piece == Piece(s) && n == Unit(s)
    {
      var c: Byte := s[0];
      n := 1;
      if c == 34 || c == 92 {
        piece := [BACKSLASH, c];
      } else if c == 10 {
        piece := [BACKSLASH, 110];
      } else if c == 13 {
        piece := [BACKSLASH, 114];
      } else if c == 9 {
        piece := [BACKSLASH, 116];
      } else if c < 0x20 || c == 0x7F {
        piece := [BACKSLASH, 117, 48, 48, HexDigit(c / 16), HexDigit(c % 16)];
      } else {
        var k := Utf8Seq(s);
        if k == 0 {
          piece := [BACKSLASH, 117, 102, 102, 102, 100];
        } else {
          piece, n := s[..k], k;
        }
      }
    }
  }

  /** The length of the character or escape at i, 0 if it is malformed. */
  method OneToken(s: Bytes, i: nat) returns (n: nat)
    requires i < |s|
    ensures n == Token(s[i..])
  {
    ghost var t := s[i..];
    if s[i] < 0x20 {
      return 0;
    }
    if s[i] != BACKSLASH {
      return 1;
    }
    if i + 1 >= |s| {
      return 0;
    }
    var e: int := s[i + 1];
    assert e == t[1];
    if e == 117 {
      if i + 1 + 4 >= |s| {
        return 0;
      }
      for k := 1 to 5
        invariant forall j :: 2 <= j < 1 + k ==> HexValue(t[j]) >= 0
      {
        assert s[i + 1 + k] == t[1 + k];
        if HexValue(s[i + 1 + k]) < 0 {
          return 0;
        }
      }
      assert FourDigits(t, 2);
      return 6;
    }
    if e != 34 && e != 92 && e != 47 && e != 98 && e != 102 && e != 110 && e != 114 && e != 116 {
      return 0;
    }
    return 2;
  }

  /** Whether the bytes from i on begin with a string literal, and where it ends. */
  method SkipString(s: Bytes, i0: nat) returns (ok: bool, i: nat)
    ensures ok <==> i0 < |s| && s[i0] == QUOTE && Skip(s[i0 + 1..]) > 0
    ensures ok ==> i == i0 + 1 + Skip(s[i0 + 1..]) <= |s|
  {
    i := i0;
    if i >= |s| || s[i] != QUOTE {
      return false, i;
    }
    i := i + 1;
    ghost var start := i;
    while i < |s|
      invariant start <= i <= |s|
      invariant Skip(s[start..]) > 0 <==> Skip(s[i..]) > 0
      invariant Skip(s[i..]) > 0 ==> start + Skip(s[start..]) == i + Skip(s[i..])
    {
      if s[i] == QUOTE {
        return true, i + 1;
      }
      var n := OneToken(s, i);
      SkipToken(s[i..], n);
      if n == 0 {
        return false, i;
      }
      assert s[i..][n..] == s[i + n..];
      i := i + n;
    }
    return false, i;
  }

  /** The escape at i: its code point and its length. */
  method ReadEscape(s: Bytes, i: nat) returns (cp: int, n: nat)
    requires i < |s| && s[i] == BACKSLASH && Token(s[i..]) > 0 && Skip(s[i..]) == |s| - i
    ensures (cp, n) == Escape(s[i..]) && Scalar(cp) && 0 < n < |s| - i && Skip(s[i + n..]) == |s| - i - n
  {
    ghost var t := s[i..];
    EscapeRange(t);
    var e: int := s[i + 1];
    n := 2;
    match e {
      case 98 => cp := 8;
      case 102 => cp := 12;
      case 110 => cp := 10;
      case 114 => cp := 13;
      case 116 => cp := 9;
      case 117 =>
        assert FourDigits(t, 2) && t == s[i..];
        cp, n := ReadUnicode(s, i);
      case _ => cp := e;
    }
    assert s[i + n..] == t[n..];
  }

  method ReadUnicode(s: Bytes, i: nat) returns (cp: int, n: nat)
    requires i <= |s| && FourDigits(s[i..], 2) && s[i] == BACKSLASH && s[i + 1] == 117
    requires Token(s[i..]) > 0 && Skip(s[i..]) == |s| - i
    ensures (cp, n) == Escape(s[i..])
  {
    ghost var t := s[i..];
    assert Hex4(s, i + 2) == Hex4(t, 2);
    cp, n := Hex4(s, i + 2), 6;
    if 0xD800 <= cp <= 0xDBFF && i + 6 + 5 < |s| && s[i + 6] == BACKSLASH && s[i + 7] == 117 {
      PairDigits(t);
      assert Hex4(s, i + 8) == Hex4(t, 8);
      var lo := Hex4(s, i + 8);
      if 0xDC00 <= lo <= 0xDFFF {
        cp, n := 0x1_0000 + (cp - 0xD800) * 1024 + (lo - 0xDC00), 12;
      }
    }
    if 0xD800 <= cp <= 0xDFFF {
      cp := 0xFFFD;
    }
  }

  /** The digits behind a second \\u were checked when the literal was skipped. */
  lemma PairDigits(t: Bytes)
    requires |t| > 11 && t[0] == BACKSLASH && t[1] == 117 && Token(t) == 6 && Skip(t) == |t|
    requires t[6] == BACKSLASH && t[7] == 117
    ensures FourDigits(t, 8)
  {
    var u := t[6..];
    SkipToken(t, 6);
    SkipToken(u, Token(u));
    assert u[0] == BACKSLASH && u[1] == 117 && FourDigits(u, 2);
  }

  /** The next character of the literal and its length; nul where it is refused. */
  method Next(s: Bytes, i: nat) returns (nul: bool, u: Bytes, k: nat)
    requires 1 <= i && i + 1 < |s| && Skip(s[i..]) == |s| - i
    ensures nul ==> Content(s[i..]) == Refused
    ensures !nul ==> 0 < k < |s| - i && Skip(s[i + k..]) == |s| - i - k
                     && Content(s[i..]) == Before(u, Content(s[i + k..]))
  {
    ghost var t := s[i..];
    if s[i] == BACKSLASH {
      var cp;
      cp, k := ReadEscape(s, i);
      assert t[k..] == s[i + k..];
      ContentEscape(t);
      return cp == 0, Encode(cp), k;
    }
    assert t[1..] == s[i + 1..];
    ContentByte(t);
    return false, [s[i]], 1;
  }

  /** The decoded string with a NUL behind it, or -1: malformed, a NUL inside, or too long. */
  method DecodeString(s: Bytes, out: array<Byte>) returns (n: int)
    modifies out
    ensures n >= 0 <==> Decode(s).Text? && |Decode(s).bytes| < out.Length
    ensures n >= 0 ==> n == |Decode(s).bytes| && out[..n] == Decode(s).bytes && out[n] == 0
    ensures n < 0 ==> n == -1
  {
    var ok, end := SkipString(s, 0);
    if !ok || end != |s| || out.Length == 0 {
      return -1;
    }
    assert Decode(s) == Content(s[1..]);
    n := DecodeContent(s, out);
  }

  method DecodeContent(s: Bytes, out: array<Byte>) returns (n: int)
    requires |s| > 1 && Skip(s[1..]) == |s| - 1 && out.Length > 0
    modifies out
    ensures var d := Content(s[1..]);
            && (n >= 0 <==> d.Text? && |d.bytes| < out.Length)
            && (n >= 0 ==> n == |d.bytes| && out[..n] == d.bytes && out[n] == 0)
            && (n < 0 ==> n == -1)
  {
    var i, o := 1, 0;
    ghost var d := Content(s[1..]);
    assert Before([], d) == d;
    while i + 1 < |s|
      invariant 1 <= i < |s| && 0 <= o < out.Length && Skip(s[i..]) == |s| - i
      invariant Before(out[..o], Content(s[i..])) == d
      decreases |s| - i
    {
      var nul, u, k := Next(s, i);
      if nul {
        return -1;
      }
      ghost var front, rest := out[..o], s[i + k..];
      BeforeTwice(front, u, Content(rest));
      if o + |u| >= out.Length {
        return -1;
      }
      Copy(out, o, u);
      i, o := i + k, o + |u|;
      assert out[..o] == front + u && s[i..] == rest;
    }
    assert s[i..] == [QUOTE];
    out[o] := 0;
    return o;
  }

  method Copy(out: array<Byte>, o: nat, u: Bytes)
    requires o + |u| <= out.Length
    modifies out
    ensures out[..o + |u|] == old(out[..o]) + u
  {
    for j := 0 to |u|
      invariant out[..o + j] == old(out[..o]) + u[..j]
    {
      out[o + j] := u[j];
    }
    assert u[..|u|] == u;
  }
}
