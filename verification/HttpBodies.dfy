/** Where the body of a response ends: what a whole response delivers, for every header section, as section
    6.3 of RFC 9112 has it. */
module HttpBodies {
  import opened Common
  import opened HttpSteps
  import opened HttpFeed
  import opened HttpChunked

  /** What the last byte of a header section does, and what comes after it. */
  lemma HeadThen(parse: HeadParser, h: string, rest: string, e: Event)
    requires HeadSection(h) && Makes(parse, INITIAL.(head := h[..|h| - 1]), h[|h| - 1], e) && e.got == ""
    requires e.result == More ==> Ok(e.r)
    ensures Run(parse, INITIAL, h + rest) ==
              if e.result == More then Prefixed("", |h|, Run(parse, e.r, rest)) else Trace(e.r, "", |h|, e.result)
  {
    var k := |h| - 1;
    var r := INITIAL.(head := h[..k]);
    GoesHead(parse, h, k);
    assert Mark(0, h[..k]);
    var tail := [h[k]] + rest;
    assert h + rest == h[..k] + tail;
    SplitAnywhere(parse, INITIAL, h[..k], tail);
    assert tail[0] == h[k] && tail[1..] == rest;
    RunStep(parse, r, tail, e);
    if e.result == More {
      PrefixedTwice("", k, "", 1, Run(parse, e.r, rest));
    }
  }

  /** A response that has no body, and one of length 0. */
  predicate Bodiless(f: Fields) {
    f.status == 204 || f.status == 304 || (!f.chunked && f.length == 0)
  }

  /** ... ends with its header section. */
  lemma BodilessResponse(parse: HeadParser, h: string, rest: string)
    requires HeadSection(h) && parse(h).ok && !(100 <= parse(h).fields.status < 200) && Bodiless(parse(h).fields)
    ensures var t := Run(parse, INITIAL, h + rest);
            t.body == "" && t.taken == |h| && t.result == Complete && t.r.fields == parse(h).fields
  {
    var r := INITIAL.(head := h, fields := parse(h).fields, state := AtEnd);
    assert h[..|h| - 1] + [h[|h| - 1]] == h;
    HeadThen(parse, h, rest, Event(r, "", Complete));
  }

  /** A response of known length delivers just so many bytes, and is complete with the last of them. */
  lemma LengthResponse(parse: HeadParser, h: string, rest: string)
    requires HeadSection(h) && parse(h).ok && !(100 <= parse(h).fields.status < 200) && !Bodiless(parse(h).fields)
    requires !parse(h).fields.chunked && parse(h).fields.length > 0
    ensures var t, n := Run(parse, INITIAL, h + rest), parse(h).fields.length;
            && t.body == (if n <= |rest| then rest[..n] else rest) && t.taken == |h| + |t.body|
            && t.result == (if n <= |rest| then Complete else More) && t.r.fields == parse(h).fields
  {
    var f := parse(h).fields;
    var r := INITIAL.(head := h, fields := f, state := InLength);
    assert h[..|h| - 1] + [h[|h| - 1]] == h;
    HeadThen(parse, h, rest, Event(r, "", More));
    var n := if f.length <= |rest| then f.length else |rest|;
    if n > 0 {
      RunLengthChunk(parse, r, rest[..n]);
      assert rest == rest[..n] + rest[n..];
      SplitAnywhere(parse, r, rest[..n], rest[n..]);
      if n == |rest| && n < f.length {
        assert rest[n..] == "" && rest[..n] == rest;
      }
    }
  }

  /** A response of unknown length goes on until the connection is closed. */
  lemma CloseResponse(parse: HeadParser, h: string, rest: string)
    requires HeadSection(h) && parse(h).ok && !(100 <= parse(h).fields.status < 200) && !Bodiless(parse(h).fields)
    requires !parse(h).fields.chunked && parse(h).fields.length < 0
    ensures var t := Run(parse, INITIAL, h + rest);
            && t.body == rest && t.taken == |h| + |rest| && t.result == More && t.r.state == InClose
            && t.r.fields == parse(h).fields
  {
    var r := INITIAL.(head := h, fields := parse(h).fields, state := InClose);
    assert h[..|h| - 1] + [h[|h| - 1]] == h;
    HeadThen(parse, h, rest, Event(r, "", More));
    if rest != "" {
      RunClose(parse, r, rest);
    }
  }

  /** An interim response is passed over: what follows is parsed as if it had come first. */
  lemma InterimResponse(parse: HeadParser, h: string, rest: string)
    requires HeadSection(h) && parse(h).ok && 100 <= parse(h).fields.status < 200 && parse(h).fields.status != 101
    ensures Run(parse, INITIAL, h + rest) == Prefixed("", |h|, Run(parse, INITIAL, rest))
  {
    assert h[..|h| - 1] + [h[|h| - 1]] == h;
    HeadThen(parse, h, rest, Event(INITIAL, "", More));
  }

  /** A header section that cannot be read, or that switches protocols, is refused. */
  lemma RefusedResponse(parse: HeadParser, h: string, rest: string)
    requires HeadSection(h) && (!parse(h).ok || parse(h).fields.status == 101)
    ensures var t := Run(parse, INITIAL, h + rest); t.body == "" && t.result == Failed(Malformed)
  {
    var r := INITIAL.(head := h, fields := parse(h).fields);
    assert h[..|h| - 1] + [h[|h| - 1]] == h;
    HeadThen(parse, h, rest, Event(r, "", Failed(Malformed)));
  }
}
