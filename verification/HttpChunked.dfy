/** The chunked transfer coding of section 7.1 of RFC 9112, and how the parser takes it apart. */
module HttpChunked {
  import opened Common
  import opened HttpSteps
  import opened HttpFeed

  /** A chunk: its size in hexadecimal digits, an extension or nothing, and its data. */
  datatype Chunk = Chunk(size: string, ext: string, data: string)

  /** The digits s read after the value v. */
  function Hex(v: nat, s: string): nat
    decreases |s|
  {
    if s == "" then v else Hex(v * 16 + (if HexValue(s[0] as int) >= 0 then HexValue(s[0] as int) else 0), s[1..])
  }

  predicate Digits(s: string) {
    0 < |s| < 0x1_0000_0000 && forall i :: 0 <= i < |s| ==> HexValue(s[i] as int) >= 0
  }

  predicate InLine(s: string) {
    forall i :: 0 <= i < |s| ==> s[i] != '\r' && s[i] != '\n'
  }

  predicate Extension(s: string) {
    s == "" || (InLine(s) && (s[0] == ';' || s[0] == ' ' || s[0] == '\t'))
  }

  predicate ChunkOk(c: Chunk) {
    Digits(c.size) && Extension(c.ext) && Hex(0, c.size) == |c.data| && 0 < |c.data| <= 0xFFFF_FFFF
  }

  function Line(size: string, ext: string): string {
    size + (ext + "\r\n")
  }

  function Coded(c: Chunk): string {
    Line(c.size, c.ext) + (c.data + "\r\n")
  }

  function CodedAll(cs: seq<Chunk>): string {
    if cs == [] then "" else Coded(cs[0]) + CodedAll(cs[1..])
  }

  function Body(cs: seq<Chunk>): string {
    if cs == [] then "" else cs[0].data + Body(cs[1..])
  }

  /** A trailer field line is not empty and has at most 1024 bytes. */
  predicate TrailerOk(s: string) {
    InLine(s) && 0 < |s| <= TRAILER_MAX
  }

  function Trailers(ts: seq<string>): string {
    if ts == [] then "\r\n" else (ts[0] + "\r\n") + Trailers(ts[1..])
  }

  /** s takes r to r', delivering got. */
  ghost predicate Goes(parse: HeadParser, r: Resp, s: string, r': Resp, got: string) {
    forall k {:trigger Mark(k, s)} :: Mark(k, s) ==>
      Ok(r) && Ok(r') && Run(parse, r, s) == Trace(r', got, |s|, More)
  }

  lemma GoesOn(parse: HeadParser, r: Resp, a: string, r1: Resp, g: string, b: string, r2: Resp, h: string)
    requires Goes(parse, r, a, r1, g) && Goes(parse, r1, b, r2, h)
    ensures Goes(parse, r, a + b, r2, g + h)
  {
    assert Mark(0, a) && Mark(0, b);
    SplitAnywhere(parse, r, a, b);
  }

  lemma GoesByte(parse: HeadParser, r: Resp, c: char, e: Event)
    requires Ok(r) && Makes(parse, r, c, e) && e.result == More && Ok(e.r)
    ensures Goes(parse, r, [c], e.r, e.got)
  {
    RunByte(parse, r, c, e);
  }

  predicate AtSize(r: Resp) {
    Ok(r) && r.state == InChunks && r.cstate == SizeDigits
  }

  lemma {:induction false} HexGrows(v: nat, s: string)
    ensures Hex(v, s) >= v && (s != "" ==> Hex(v, s) >= v * 16)
    decreases |s|
  {
    if s != "" {
      HexGrows(v * 16 + (if HexValue(s[0] as int) >= 0 then HexValue(s[0] as int) else 0), s[1..]);
    }
  }

  /** Size digits. */
  lemma {:induction false} GoesDigits(parse: HeadParser, r: Resp, s: string)
    requires AtSize(r) && Hex(r.crem, s) <= 0xFFFF_FFFF && r.cline + |s| < 0x1_0000_0000
    requires forall i :: 0 <= i < |s| ==> HexValue(s[i] as int) >= 0
    ensures Goes(parse, r, s, r.(crem := Hex(r.crem, s), cline := r.cline + |s|), "")
    decreases |s|
  {
    if s != "" {
      HexGrows(r.crem, s);
      var v := HexValue(s[0] as int);
      var r' := r.(crem := r.crem * 16 + v, cline := r.cline + 1);
      assert SizeStep(r, s[0]) == Event(r', "", More);
      assert Makes(parse, r, s[0], Event(r', "", More));
      GoesByte(parse, r, s[0], Event(r', "", More));
      GoesDigits(parse, r', s[1..]);
      GoesOn(parse, r, [s[0]], r', "", s[1..], r.(crem := Hex(r.crem, s), cline := r.cline + |s|), "");
      assert [s[0]] + s[1..] == s;
    }
  }

  /** Bytes of a chunk extension. */
  lemma {:induction false} GoesExt(parse: HeadParser, r: Resp, s: string)
    requires Ok(r) && r.state == InChunks && r.cstate == SizeExt && InLine(s)
    ensures Goes(parse, r, s, r, "")
    decreases |s|
  {
    if s != "" {
      assert Makes(parse, r, s[0], Event(r, "", More));
      GoesByte(parse, r, s[0], Event(r, "", More));
      GoesExt(parse, r, s[1..]);
      GoesOn(parse, r, [s[0]], r, "", s[1..], r, "");
      assert [s[0]] + s[1..] == s;
    }
  }

  /** The end of a chunk-size line. */
  lemma GoesSizeEnd(parse: HeadParser, r: Resp)
    requires Ok(r) && r.state == InChunks && (r.cstate == SizeExt || (r.cstate == SizeDigits && r.cline > 0))
    ensures Goes(parse, r, "\r\n", SizeDone(r), "")
  {
    var r' := r.(cstate := SizeLf);
    assert Makes(parse, r, '\r', Event(r', "", More));
    GoesByte(parse, r, '\r', Event(r', "", More));
    assert Makes(parse, r', '\n', Event(SizeDone(r), "", More));
    GoesByte(parse, r', '\n', Event(SizeDone(r), "", More));
    GoesOn(parse, r, "\r", r', "", "\n", SizeDone(r), "");
    assert "\r" + "\n" == "\r\n";
  }

  /** The extension, if any, and the end of the line. */
  lemma GoesLineEnd(parse: HeadParser, r: Resp, ext: string)
    requires AtSize(r) && r.cline > 0 && Extension(ext)
    ensures Goes(parse, r, ext + "\r\n", SizeDone(r), "")
  {
    if ext == "" {
      GoesSizeEnd(parse, r);
      assert ext + "\r\n" == "\r\n";
    } else {
      var r' := r.(cstate := SizeExt);
      assert Makes(parse, r, ext[0], Event(r', "", More));
      GoesByte(parse, r, ext[0], Event(r', "", More));
      GoesExt(parse, r', ext[1..]);
      GoesOn(parse, r, [ext[0]], r', "", ext[1..], r', "");
      assert [ext[0]] + ext[1..] == ext;
      GoesSizeEnd(parse, r');
      assert SizeDone(r') == SizeDone(r);
      GoesOn(parse, r, ext, r', "", "\r\n", SizeDone(r), "");
    }
  }

  /** A whole chunk-size line. */
  lemma GoesLine(parse: HeadParser, r: Resp, size: string, ext: string)
    requires AtSize(r) && r.crem == 0 && r.cline == 0
    requires Digits(size) && Extension(ext) && Hex(0, size) <= 0xFFFF_FFFF
    ensures Goes(parse, r, Line(size, ext),
                 r.(crem := Hex(0, size), cstate := if Hex(0, size) > 0 then Data else Trailer), "")
  {
    var r' := r.(crem := Hex(0, size), cline := |size|);
    GoesDigits(parse, r, size);
    GoesLineEnd(parse, r', ext);
    GoesOn(parse, r, size, r', "", ext + "\r\n", SizeDone(r'), "");
  }

  /** Chunk data and the line end after it. */
  lemma GoesData(parse: HeadParser, r: Resp, data: string)
    requires Ok(r) && r.state == InChunks && r.cstate == Data && r.crem == |data| > 0
    ensures Goes(parse, r, data + "\r\n",
                 r.(crem := 0, cstate := SizeDigits, bodyBytes := r.bodyBytes + |data|), data)
  {
    var r1 := r.(crem := 0, cstate := DataCr, bodyBytes := r.bodyBytes + |data|);
    var r2, r3 := r1.(cstate := DataLf), r1.(cstate := SizeDigits);
    RunDataChunk(parse, r, data);
    assert Goes(parse, r, data, r1, data);
    assert Makes(parse, r1, '\r', Event(r2, "", More));
    GoesByte(parse, r1, '\r', Event(r2, "", More));
    assert Makes(parse, r2, '\n', Event(r3, "", More));
    GoesByte(parse, r2, '\n', Event(r3, "", More));
    GoesOn(parse, r1, "\r", r2, "", "\n", r3, "");
    assert "\r" + "\n" == "\r\n" && data + ("" + "") == data;
    GoesOn(parse, r, data, r1, data, "\r\n", r3, "");
  }

  lemma GoesChunk(parse: HeadParser, r: Resp, c: Chunk)
    requires AtSize(r) && r.crem == 0 && r.cline == 0 && ChunkOk(c)
    ensures Goes(parse, r, Coded(c), r.(bodyBytes := r.bodyBytes + |c.data|), c.data)
  {
    var r' := r.(crem := |c.data|, cstate := Data);
    GoesLine(parse, r, c.size, c.ext);
    GoesData(parse, r', c.data);
    assert "" + c.data == c.data;
    GoesOn(parse, r, Line(c.size, c.ext), r', "", c.data + "\r\n", r.(bodyBytes := r.bodyBytes + |c.data|), c.data);
  }

  lemma {:induction false} GoesChunks(parse: HeadParser, r: Resp, cs: seq<Chunk>)
    requires AtSize(r) && r.crem == 0 && r.cline == 0 && forall i :: 0 <= i < |cs| ==> ChunkOk(cs[i])
    ensures Goes(parse, r, CodedAll(cs), r.(bodyBytes := r.bodyBytes + |Body(cs)|), Body(cs))
    decreases |cs|
  {
    if cs != [] {
      var r' := r.(bodyBytes := r.bodyBytes + |cs[0].data|);
      GoesChunk(parse, r, cs[0]);
      GoesChunks(parse, r', cs[1..]);
      GoesOn(parse, r, Coded(cs[0]), r', cs[0].data, CodedAll(cs[1..]),
             r.(bodyBytes := r.bodyBytes + |Body(cs)|), Body(cs[1..]));
    }
  }

  predicate InTrailer(r: Resp) {
    Ok(r) && r.state == InChunks && r.cstate == Trailer
  }

  lemma {:induction false} GoesTrailerText(parse: HeadParser, r: Resp, s: string)
    requires InTrailer(r) && InLine(s) && r.cline + |s| <= TRAILER_MAX
    ensures Goes(parse, r, s, r.(cline := r.cline + |s|), "")
    decreases |s|
  {
    if s != "" {
      var r' := r.(cline := r.cline + 1);
      assert Makes(parse, r, s[0], Event(r', "", More));
      GoesByte(parse, r, s[0], Event(r', "", More));
      GoesTrailerText(parse, r', s[1..]);
      GoesOn(parse, r, [s[0]], r', "", s[1..], r.(cline := r.cline + |s|), "");
      assert [s[0]] + s[1..] == s;
    }
  }

  lemma GoesTrailer(parse: HeadParser, r: Resp, s: string)
    requires InTrailer(r) && r.cline == 0 && TrailerOk(s)
    ensures Goes(parse, r, s + "\r\n", r, "")
  {
    var r' := r.(cline := |s|);
    GoesTrailerText(parse, r, s);
    assert Makes(parse, r', '\r', Event(r', "", More));
    GoesByte(parse, r', '\r', Event(r', "", More));
    assert Makes(parse, r', '\n', Event(r, "", More));
    GoesByte(parse, r', '\n', Event(r, "", More));
    GoesOn(parse, r', "\r", r', "", "\n", r, "");
    assert "\r" + "\n" == "\r\n";
    GoesOn(parse, r, s, r', "", "\r\n", r, "");
  }

  /** The trailer section and the empty line that ends the message; what follows is left alone. */
  lemma {:induction false} TrailersEnd(parse: HeadParser, r: Resp, ts: seq<string>, rest: string)
    requires InTrailer(r) && r.cline == 0 && forall i :: 0 <= i < |ts| ==> TrailerOk(ts[i])
    ensures Run(parse, r, Trailers(ts) + rest)
         == Trace(r.(state := AtEnd), "", |Trailers(ts)|, Complete)
    decreases |ts|
  {
    if ts == [] {
      LastLine(parse, r, rest);
    } else {
      var line := ts[0] + "\r\n";
      GoesTrailer(parse, r, ts[0]);
      TrailersEnd(parse, r, ts[1..], rest);
      assert Trailers(ts) + rest == line + (Trailers(ts[1..]) + rest);
      assert Mark(0, line);
      SplitAnywhere(parse, r, line, Trailers(ts[1..]) + rest);
    }
  }

  lemma LastLine(parse: HeadParser, r: Resp, rest: string)
    requires InTrailer(r) && r.cline == 0
    ensures Run(parse, r, "\r\n" + rest) == Trace(r.(state := AtEnd), "", 2, Complete)
  {
    var s := "\r\n" + rest;
    assert Makes(parse, r, s[0], Event(r, "", More));
    RunStep(parse, r, s, Event(r, "", More));
    var e := Event(r.(state := AtEnd), "", Complete);
    assert Makes(parse, r, s[1..][0], e);
    RunStep(parse, r, s[1..], e);
  }

  /** A body in the chunked coding: chunks of any sizes written in any digits, with any extensions, a last
      chunk of size 0 and any trailer. */
  datatype Coding = Coding(chunks: seq<Chunk>, last: string, ext: string, trailers: seq<string>)

  predicate CodingOk(b: Coding) {
    && (forall i :: 0 <= i < |b.chunks| ==> ChunkOk(b.chunks[i]))
    && Digits(b.last) && Hex(0, b.last) == 0 && Extension(b.ext)
    && (forall i :: 0 <= i < |b.trailers| ==> TrailerOk(b.trailers[i]))
  }

  function Encode(b: Coding): string {
    CodedAll(b.chunks) + Line(b.last, b.ext) + Trailers(b.trailers)
  }

  /** The parser delivers the chunks' data joined together and stops behind the coding. */
  lemma ChunkedBody(parse: HeadParser, r: Resp, b: Coding, rest: string)
    requires AtSize(r) && r.crem == 0 && r.cline == 0 && CodingOk(b)
    ensures var t := Run(parse, r, Encode(b) + rest);
            && t.body == Body(b.chunks) && t.taken == |Encode(b)| && t.result == Complete
            && t.r == r.(state := AtEnd, cstate := Trailer, bodyBytes := r.bodyBytes + |Body(b.chunks)|)
  {
    var r1 := r.(bodyBytes := r.bodyBytes + |Body(b.chunks)|);
    var r2 := r1.(cstate := Trailer);
    GoesChunks(parse, r, b.chunks);
    GoesLine(parse, r1, b.last, b.ext);
    var front := CodedAll(b.chunks) + Line(b.last, b.ext);
    GoesOn(parse, r, CodedAll(b.chunks), r1, Body(b.chunks), Line(b.last, b.ext), r2, "");
    TrailersEnd(parse, r2, b.trailers, rest);
    assert Encode(b) + rest == front + (Trailers(b.trailers) + rest);
    assert Mark(0, front);
    SplitAnywhere(parse, r, front, Trailers(b.trailers) + rest);
  }

  /** A header section up to its empty line. */
  predicate HeadSection(h: string) {
    h != "" && |h| < HEAD_MAX && EndsHead(h) && forall i :: 0 <= i < |h| ==> !EndsHead(h[..i])
  }

  lemma {:induction false} GoesHead(parse: HeadParser, h: string, k: nat)
    requires HeadSection(h) && k < |h|
    ensures Goes(parse, INITIAL, h[..k], INITIAL.(head := h[..k]), "")
  {
    if k == 0 {
      assert h[..0] == "";
    } else {
      GoesHead(parse, h, k - 1);
      var r, r' := INITIAL.(head := h[..k - 1]), INITIAL.(head := h[..k]);
      assert h[..k - 1] + [h[k - 1]] == h[..k];
      assert Makes(parse, r, h[k - 1], Event(r', "", More));
      GoesByte(parse, r, h[k - 1], Event(r', "", More));
      GoesOn(parse, INITIAL, h[..k - 1], r, "", [h[k - 1]], r', "");
    }
  }

  /** A header section that announces the chunked coding and a final status that has a body. */
  lemma GoesChunkedHead(parse: HeadParser, h: string)
    requires HeadSection(h) && parse(h).ok && parse(h).fields.chunked
    requires parse(h).fields.status >= 200 && parse(h).fields.status != 204 && parse(h).fields.status != 304
    ensures Goes(parse, INITIAL, h, INITIAL.(head := h, fields := parse(h).fields, state := InChunks), "")
  {
    var k := |h| - 1;
    var r, r' := INITIAL.(head := h[..k]), INITIAL.(head := h, fields := parse(h).fields, state := InChunks);
    GoesHead(parse, h, k);
    assert h[..k] + [h[k]] == h;
    assert Makes(parse, r, h[k], Event(r', "", More));
    GoesByte(parse, r, h[k], Event(r', "", More));
    GoesOn(parse, INITIAL, h[..k], r, "", [h[k]], r', "");
  }

  /** A whole chunked response, followed by anything. */
  lemma ChunkedResponse(parse: HeadParser, h: string, b: Coding, rest: string)
    requires HeadSection(h) && parse(h).ok && parse(h).fields.chunked && CodingOk(b)
    requires parse(h).fields.status >= 200 && parse(h).fields.status != 204 && parse(h).fields.status != 304
    ensures var t := Run(parse, INITIAL, h + Encode(b) + rest);
            && t.body == Body(b.chunks) && t.taken == |h| + |Encode(b)| && t.result == Complete
            && t.r.fields == parse(h).fields
  {
    var r' := INITIAL.(head := h, fields := parse(h).fields, state := InChunks);
    GoesChunkedHead(parse, h);
    ChunkedBody(parse, r', b, rest);
    assert h + Encode(b) + rest == h + (Encode(b) + rest);
    assert Mark(0, h);
    SplitAnywhere(parse, INITIAL, h, Encode(b) + rest);
  }
}
