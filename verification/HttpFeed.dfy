/** http_feed as it is written: runs of body bytes are handed over in one call of the sink. */
module HttpFeed {
  import opened Common
  import opened HttpSteps

  /** Bytes of a body of known length, short of its end. */
  lemma {:induction false} RunLength(parse: HeadParser, r: Resp, s: string)
    requires Ok(r) && r.state == InLength && r.bodyBytes + |s| < r.fields.length
    ensures Run(parse, r, s) == Trace(r.(bodyBytes := r.bodyBytes + |s|), s, |s|, More)
    decreases |s|
  {
    if s != "" {
      RunStep(parse, r, s, LengthStep(r, s[0]));
      RunLength(parse, r.(bodyBytes := r.bodyBytes + 1), s[1..]);
      assert [s[0]] + s[1..] == s;
    }
  }

  /** Chunk data, short of its end. */
  lemma {:induction false} RunData(parse: HeadParser, r: Resp, s: string)
    requires Ok(r) && r.state == InChunks && r.cstate == Data && |s| < r.crem
    ensures Run(parse, r, s)
         == Trace(r.(bodyBytes := r.bodyBytes + |s|, crem := r.crem - |s|), s, |s|, More)
    decreases |s|
  {
    if s != "" {
      RunStep(parse, r, s, DataStep(r, s[0]));
      RunData(parse, r.(bodyBytes := r.bodyBytes + 1, crem := r.crem - 1), s[1..]);
      assert [s[0]] + s[1..] == s;
    }
  }

  /** All bytes of a body that ends with the connection. */
  lemma {:induction false} RunClose(parse: HeadParser, r: Resp, s: string)
    requires Ok(r) && r.state == InClose
    ensures Run(parse, r, s) == Trace(r.(bodyBytes := r.bodyBytes + |s|), s, |s|, More)
    decreases |s|
  {
    if s != "" {
      RunStep(parse, r, s, CloseStep(r, s[0]));
      RunClose(parse, r.(bodyBytes := r.bodyBytes + 1), s[1..]);
      assert [s[0]] + s[1..] == s;
    }
  }

  /** One byte by itself. */
  lemma RunByte(parse: HeadParser, r: Resp, c: char, e: Event)
    requires Ok(r) && Makes(parse, r, c, e)
    ensures Run(parse, r, [c]) == Trace(e.r, e.got, 1, e.result)
  {
    RunOne(parse, r, [c], e);
  }

  lemma RunOne(parse: HeadParser, r: Resp, s: string, e: Event)
    requires Ok(r) && |s| == 1 && Makes(parse, r, s[0], e)
    ensures Run(parse, r, s) == Trace(e.r, e.got, 1, e.result)
  {
    RunStep(parse, r, s, e);
    assert s[1..] == "" && e.got + "" == e.got;
  }

  /** ... after bytes that took r to r'. */
  lemma RunLast(parse: HeadParser, r: Resp, s: string, r': Resp, e: Event)
    requires Ok(r) && Ok(r') && s != "" && Makes(parse, r', s[|s| - 1], e)
    requires Run(parse, r, s[..|s| - 1]) == Trace(r', s[..|s| - 1], |s| - 1, More) && e.got == [s[|s| - 1]]
    ensures Run(parse, r, s) == Trace(e.r, s, |s|, e.result)
  {
    var n := |s| - 1;
    RunOne(parse, r', s[n..], e);
    SplitAnywhere(parse, r, s[..n], s[n..]);
    assert s == s[..n] + s[n..] && s == s[..n] + e.got;
  }

  /** A run of body bytes handed to the sink at once. */
  function LengthChunk(r: Resp, s: string): Trace
    requires Ok(r) && r.state == InLength && r.bodyBytes + |s| <= r.fields.length
  {
    var r' := r.(bodyBytes := r.bodyBytes + |s|);
    if r'.bodyBytes == r.fields.length then Trace(r'.(state := AtEnd), s, |s|, Complete)
    else Trace(r', s, |s|, More)
  }

  lemma RunLengthChunk(parse: HeadParser, r: Resp, s: string)
    requires Ok(r) && r.state == InLength && s != "" && r.bodyBytes + |s| <= r.fields.length
    ensures Run(parse, r, s) == LengthChunk(r, s)
  {
    var n := |s| - 1;
    var r' := r.(bodyBytes := r.bodyBytes + n);
    RunLength(parse, r, s[..n]);
    RunLast(parse, r, s, r', LengthStep(r', s[n]));
  }

  function DataChunk(r: Resp, s: string): Resp
    requires |s| <= r.crem
  {
    var r' := r.(bodyBytes := r.bodyBytes + |s|, crem := r.crem - |s|);
    if r'.crem == 0 then r'.(cstate := DataCr) else r'
  }

  lemma RunDataChunk(parse: HeadParser, r: Resp, s: string)
    requires Ok(r) && r.state == InChunks && r.cstate == Data && s != "" && |s| <= r.crem
    ensures Run(parse, r, s) == Trace(DataChunk(r, s), s, |s|, More)
  {
    var n := |s| - 1;
    var r' := r.(bodyBytes := r.bodyBytes + n, crem := r.crem - n);
    RunData(parse, r, s[..n]);
    RunLast(parse, r, s, r', DataStep(r', s[n]));
  }

  /** After got was delivered and i bytes of s were taken, r is where feeding s from r0 has arrived. */
  ghost predicate Arrived(parse: HeadParser, r0: Resp, s: string, i: nat, got: string, r: Resp) {
    forall k {:trigger Mark(k, s)} :: Mark(k, s) ==>
      Ok(r0) && Ok(r) && i <= |s| && Run(parse, r0, s) == Prefixed(got, i, Run(parse, r, s[i..]))
  }

  lemma Start(parse: HeadParser, r0: Resp, s: string)
    requires Ok(r0)
    ensures Arrived(parse, r0, s, 0, "", r0)
  {
    assert s[0..] == s;
    assert Prefixed("", 0, Run(parse, r0, s)) == Run(parse, r0, s);
  }

  /** Nothing is left to do. */
  lemma Finish(parse: HeadParser, r0: Resp, s: string, i: nat, got: string, r: Resp)
    requires Arrived(parse, r0, s, i, got, r) && (i == |s| || r.state == AtEnd)
    ensures Ok(r0) && Run(parse, r0, s) == Trace(r, got, i, if r.state == AtEnd then Complete else More)
  {
    assert Mark(0, s);
    assert got + "" == got;
  }

  /** The next k bytes. */
  lemma Advance(parse: HeadParser, r0: Resp, s: string, i: nat, got: string, r: Resp, k: nat, t: Trace)
    requires Arrived(parse, r0, s, i, got, r) && i + k <= |s| && Ok(r) && t == Run(parse, r, s[i..i + k])
    ensures t.result == More ==> Arrived(parse, r0, s, i + k, got + t.body, t.r)
    ensures t.result == More ==> Ok(t.r)
    ensures t.result != More ==> Ok(r0) && Run(parse, r0, s) == Prefixed(got, i, t)
  {
    assert Mark(0, s);
    assert s[i..] == s[i..i + k] + s[i + k..];
    SplitAnywhere(parse, r, s[i..i + k], s[i + k..]);
    if t.result == More {
      PrefixedTwice(got, i, t.body, k, Run(parse, t.r, s[i + k..]));
    }
  }

  class Response {
    const parse: HeadParser
    var state: Phase
    var head: string
    var fields: Fields
    var bodyBytes: nat
    var cstate: ChunkPhase
    var crem: nat
    var cline: nat
    /** Every body byte the sink was given. */
    ghost var body: string

    ghost function View(): Resp
      reads this
    {
      Resp(state, head, fields, bodyBytes, cstate, crem, cline)
    }

    constructor (parse: HeadParser)
      ensures this.parse == parse && View() == INITIAL && body == ""
    {
      this.parse := parse;
      state, head, fields, bodyBytes := InHead, "", NO_FIELDS, 0;
      cstate, crem, cline := SizeDigits, 0, 0;
      body := "";
    }

    method Reset()
      modifies this
      ensures View() == INITIAL && body == old(body)
    {
      state, head, fields, bodyBytes := InHead, "", NO_FIELDS, 0;
      cstate, crem, cline := SizeDigits, 0, 0;
    }

    /** Body bytes handed to a sink that accepts them. */
    method Emit(s: string)
      modifies `bodyBytes, `body
      ensures bodyBytes == old(bodyBytes) + |s| && body == old(body) + s
    {
      bodyBytes := bodyBytes + |s|;
      body := body + s;
    }

    method HeadByte(c: char) returns (res: Result)
      modifies this
      ensures body == old(body) && Event(View(), "", res) == HeadStep(parse, old(View()), c)
    {
      if |head| >= HEAD_MAX - 1 {
        return Failed(TooLarge);
      }
      head := head + [c];
      if !EndsHead(head) {
        return More;
      }
      res := FinishHead();
    }

    method FinishHead() returns (res: Result)
      modifies this
      ensures body == old(body) && Event(View(), "", res) == HeadDone(old(View()), parse(old(head)))
    {
      var p := parse(head);
      fields := p.fields;
      if !p.ok {
        return Failed(Malformed);
      }
      if 100 <= fields.status < 200 {
        if fields.status == 101 {
          return Failed(Malformed);
        }
        Reset();
        return More;
      }
      if fields.status == 204 || fields.status == 304 || (!fields.chunked && fields.length == 0) {
        state := AtEnd;
        return Complete;
      }
      state := if fields.chunked then InChunks else if fields.length > 0 then InLength else InClose;
      return More;
    }

    method SizeByte(c: char) returns (res: Result)
      modifies this
      ensures body == old(body) && Event(View(), "", res) == SizeStep(old(View()), c)
    {
      var v := HexValue(c as int);
      if v >= 0 {
        if crem > 0x0FFF_FFFF {
          return Failed(Malformed);
        }
        crem, cline := crem * 16 + v, (cline + 1) % 0x1_0000_0000;
        return More;
      }
      if cline == 0 {
        return Failed(Malformed);
      }
      if c == ';' || c == ' ' || c == '\t' {
        cstate := SizeExt;
      } else if c == '\r' {
        cstate := SizeLf;
      } else if c == '\n' {
        cline, cstate := 0, if crem > 0 then Data else Trailer;
      } else {
        return Failed(Malformed);
      }
      return More;
    }

    method TrailerByte(c: char) returns (res: Result)
      modifies this
      ensures body == old(body) && Event(View(), "", res) == TrailerStep(old(View()), c)
    {
      if c == '\n' {
        if cline == 0 {
          state := AtEnd;
          return Complete;
        }
        cline := 0;
      } else if c != '\r' {
        cline := (cline + 1) % 0x1_0000_0000;
        if cline > TRAILER_MAX {
          return Failed(TooLarge);
        }
      }
      return More;
    }

    method LineByte(c: char) returns (res: Result)
      requires cstate != Data
      modifies this
      ensures body == old(body) && Event(View(), "", res) == LineStep(old(View()), c)
    {
      res := More;
      match cstate {
        case SizeDigits => res := SizeByte(c);
        case SizeExt =>
          if c == '\r' {
            cstate := SizeLf;
          } else if c == '\n' {
            cline, cstate := 0, if crem > 0 then Data else Trailer;
          }
        case SizeLf =>
          if c != '\n' {
            return Failed(Malformed);
          }
          cline, cstate := 0, if crem > 0 then Data else Trailer;
        case DataCr =>
          if c == '\r' {
            cstate := DataLf;
          } else if c == '\n' {
            cstate := SizeDigits;
          } else {
            return Failed(Malformed);
          }
        case DataLf =>
          if c != '\n' {
            return Failed(Malformed);
          }
          cstate := SizeDigits;
        case Trailer => res := TrailerByte(c);
      }
    }

    /** One turn of the loop inside a chunked body: a run of data, or one byte of the coding. */
    method ChunkTurn(s: string) returns (k: nat, res: Result)
      requires s != "" && Ok(View()) && state == InChunks
      modifies this
      ensures 0 < k <= |s| && old(body) <= body
      ensures Run(parse, old(View()), s[..k]) == Trace(View(), body[|old(body)|..], k, res)
    {
      ghost var r0 := View();
      res := More;
      if cstate == Data {
        k := if |s| < crem then |s| else crem;
        Emit(s[..k]);
        crem := crem - k;
        if crem == 0 {
          cstate := DataCr;
        }
        RunDataChunk(parse, r0, s[..k]);
      } else {
        k := 1;
        res := LineByte(s[0]);
        RunByte(parse, r0, s[0], Event(View(), "", res));
      }
      assert s[..1] == [s[0]];
    }

    /** The bytes of one turn of the loop: one byte of a line, or all body bytes at hand. */
    method Turn(s: string) returns (k: nat, res: Result)
      requires s != "" && Ok(View()) && state != AtEnd
      modifies this
      ensures 0 < k <= |s| && old(body) <= body
      ensures Run(parse, old(View()), s[..k]) == Trace(View(), body[|old(body)|..], k, res)
    {
      ghost var r0, was := View(), body;
      match state {
        case InHead =>
          k := 1;
          res := HeadByte(s[0]);
          RunByte(parse, r0, s[0], Event(View(), "", res));
        case InLength =>
          k := if |s| < fields.length - bodyBytes then |s| else fields.length - bodyBytes;
          Emit(s[..k]);
          res := More;
          if bodyBytes == fields.length {
            state, res := AtEnd, Complete;
          }
          RunLengthChunk(parse, r0, s[..k]);
        case InClose =>
          k := |s|;
          Emit(s);
          res := More;
          RunClose(parse, r0, s);
        case InChunks =>
          k, res := ChunkTurn(s);
      }
      assert s[..1] == [s[0]] && s[..|s|] == s;
    }

    /** One turn of the loop, from position i of the piece. */
    method Pass(ghost r0: Resp, ghost was: string, s: string, i: nat) returns (k: nat, res: Result)
      requires i < |s| && Ok(View()) && state != AtEnd && was <= body
      requires Arrived(parse, r0, s, i, body[|was|..], View())
      modifies this
      ensures 0 < k <= |s| - i && was <= old(body) <= body
      ensures res == More ==> Ok(View()) && Arrived(parse, r0, s, i + k, body[|was|..], View())
      ensures res != More ==> Ok(r0) && Run(parse, r0, s) == Trace(View(), body[|was|..], i + k, res)
    {
      ghost var r1, b1, got := View(), body, body[|was|..];
      k, res := Turn(s[i..]);
      assert s[i..][..k] == s[i..i + k];
      assert body[|was|..] == got + body[|b1|..];
      Advance(parse, r0, s, i, got, r1, k, Run(parse, r1, s[i..i + k]));
    }

    /** Feeding a piece does exactly what feeding its bytes one by one does; used is 0 after an error. */
    method Feed(s: string) returns (used: nat, res: Result)
      requires Ok(View())
      modifies this
      ensures old(body) <= body
      ensures var t := Run(parse, old(View()), s);
              View() == t.r && body[|old(body)|..] == t.body && res == t.result
              && used == if res.Failed? then 0 else t.taken
    {
      ghost var r0, was := View(), body;
      used := 0;
      var i := 0;
      Start(parse, r0, s);
      while i < |s|
        invariant i <= |s| && was <= body && Arrived(parse, r0, s, i, body[|was|..], View()) && Ok(View())
      {
        if state == AtEnd {
          Finish(parse, r0, s, i, body[|was|..], View());
          return i, Complete;
        }
        var k, st := Pass(r0, was, s, i);
        i := i + k;
        if st != More {
          return if st == Complete then i else 0, st;
        }
      }
      Finish(parse, r0, s, i, body[|was|..], View());
      return |s|, if state == AtEnd then Complete else More;
    }
  }
}
