/** The HTTP/1.1 response parser, one byte at a time: what http_feed computes. */
module HttpSteps {
  import opened Common
  datatype Phase = InHead | InLength | InChunks | InClose | AtEnd

  datatype ChunkPhase = SizeDigits | SizeExt | SizeLf | Data | DataCr | DataLf | Trailer

  /** What parse_head finds in a header section. */
  datatype Fields = Fields(status: nat, chunked: bool, length: int, close: bool, retryAfter: nat,
                           contentType: string, requestId: string)

  datatype Parsed = Parsed(ok: bool, fields: Fields)

  /** Any function of the bytes of a header section; parse_head is one. */
  type HeadParser = string -> Parsed

  datatype Resp = Resp(state: Phase, head: string, fields: Fields, bodyBytes: nat,
                       cstate: ChunkPhase, crem: nat, cline: nat)

  datatype Error = Malformed | TooLarge

  datatype Result = More | Complete | Failed(error: Error)

  const HEAD_MAX := 4096

  const TRAILER_MAX := 1024

  const NO_FIELDS := Fields(0, false, -1, false, 0, "", "")

  const INITIAL := Resp(InHead, "", NO_FIELDS, 0, SizeDigits, 0, 0)

  /** One step: the new state, the body byte delivered if any, and whether parsing goes on. */
  datatype Event = Event(r: Resp, got: string, result: Result)

  predicate EndsHead(h: string) {
    var n := |h|;
    n >= 1 && h[n - 1] == '\n'
    && ((n >= 2 && h[n - 2] == '\n') || (n >= 3 && h[n - 2] == '\r' && h[n - 3] == '\n'))
  }

  function BodyPhase(f: Fields): Phase {
    if f.chunked then InChunks else if f.length > 0 then InLength else InClose
  }

  /** The header section is complete. */
  function HeadDone(r: Resp, p: Parsed): Event {
    var s := r.(fields := p.fields);
    if !p.ok then Event(s, "", Failed(Malformed))
    else if 100 <= p.fields.status < 200 then
      if p.fields.status == 101 then Event(s, "", Failed(Malformed)) else Event(INITIAL, "", More)
    else if p.fields.status == 204 || p.fields.status == 304 || (!p.fields.chunked && p.fields.length == 0) then
      Event(s.(state := AtEnd), "", Complete)
    else Event(s.(state := BodyPhase(p.fields)), "", More)
  }

  function HeadStep(parse: HeadParser, r: Resp, c: char): Event {
    if |r.head| >= HEAD_MAX - 1 then Event(r, "", Failed(TooLarge))
    else
      var s := r.(head := r.head + [c]);
      if EndsHead(s.head) then HeadDone(s, parse(s.head)) else Event(s, "", More)
  }

  function LengthStep(r: Resp, c: char): Event {
    var s := r.(bodyBytes := r.bodyBytes + 1);
    if s.bodyBytes == r.fields.length then Event(s.(state := AtEnd), [c], Complete) else Event(s, [c], More)
  }

  function CloseStep(r: Resp, c: char): Event {
    Event(r.(bodyBytes := r.bodyBytes + 1), [c], More)
  }

  function DataStep(r: Resp, c: char): Event
    requires r.crem > 0
  {
    var s := r.(bodyBytes := r.bodyBytes + 1, crem := r.crem - 1);
    Event(if s.crem == 0 then s.(cstate := DataCr) else s, [c], More)
  }

  function SizeDone(r: Resp): Resp {
    r.(cline := 0, cstate := if r.crem > 0 then Data else Trailer)
  }

  /** A byte of a chunk-size line; the digit count is a 32-bit number. */
  function SizeStep(r: Resp, c: char): Event {
    var v := HexValue(c as int);
    if v >= 0 then
      if r.crem > 0x0FFF_FFFF then Event(r, "", Failed(Malformed))
      else Event(r.(crem := r.crem * 16 + v, cline := (r.cline + 1) % 0x1_0000_0000), "", More)
    else if r.cline == 0 then Event(r, "", Failed(Malformed))
    else if c == ';' || c == ' ' || c == '\t' then Event(r.(cstate := SizeExt), "", More)
    else if c == '\r' then Event(r.(cstate := SizeLf), "", More)
    else if c == '\n' then Event(SizeDone(r), "", More)
    else Event(r, "", Failed(Malformed))
  }

  function TrailerStep(r: Resp, c: char): Event {
    if c == '\n' then
      if r.cline == 0 then Event(r.(state := AtEnd), "", Complete) else Event(r.(cline := 0), "", More)
    else if c == '\r' then Event(r, "", More)
    else
      var s := r.(cline := (r.cline + 1) % 0x1_0000_0000);
      Event(s, "", if s.cline > TRAILER_MAX then Failed(TooLarge) else More)
  }

  /** A byte of the chunked coding outside chunk data. */
  function LineStep(r: Resp, c: char): Event
    requires r.cstate != Data
  {
    match r.cstate
    case SizeDigits => SizeStep(r, c)
    case SizeExt =>
      if c == '\r' then Event(r.(cstate := SizeLf), "", More)
      else if c == '\n' then Event(SizeDone(r), "", More)
      else Event(r, "", More)
    case SizeLf => if c == '\n' then Event(SizeDone(r), "", More) else Event(r, "", Failed(Malformed))
    case DataCr =>
      if c == '\r' then Event(r.(cstate := DataLf), "", More)
      else if c == '\n' then Event(r.(cstate := SizeDigits), "", More)
      else Event(r, "", Failed(Malformed))
    case DataLf =>
      if c == '\n' then Event(r.(cstate := SizeDigits), "", More) else Event(r, "", Failed(Malformed))
    case Trailer => TrailerStep(r, c)
  }

  /** What every reachable state satisfies. */
  predicate Ok(r: Resp) {
    && (r.state == InLength ==> r.bodyBytes < r.fields.length)
    && (r.state == InChunks ==> (r.cstate == Data ==> r.crem > 0)
                                && (r.cstate == DataCr || r.cstate == DataLf || r.cstate == Trailer ==> r.crem == 0))
    && (r.state == InHead ==> r.bodyBytes == 0 && r.cstate == SizeDigits && r.crem == 0 && r.cline == 0)
  }

  function Step(parse: HeadParser, r: Resp, c: char): (e: Event)
    requires Ok(r) && r.state != AtEnd
    ensures e.result == More ==> Ok(e.r) && e.r.state != AtEnd
    ensures e.result == Complete ==> Ok(e.r) && e.r.state == AtEnd
  {
    match r.state
    case InHead => HeadStep(parse, r, c)
    case InLength => LengthStep(r, c)
    case InClose => CloseStep(r, c)
    case InChunks => if r.cstate == Data then DataStep(r, c) else LineStep(r, c)
  }

  /** What feeding a string gives: the final state, the body bytes delivered, the bytes of the string
      that were taken, and how it ended. */
  datatype Trace = Trace(r: Resp, body: string, taken: nat, result: Result)

  function Run(parse: HeadParser, r: Resp, s: string): (t: Trace)
    requires Ok(r)
    ensures t.result == More ==> Ok(t.r) && t.r.state != AtEnd && t.taken == |s|
    ensures t.result == Complete ==> Ok(t.r) && t.r.state == AtEnd
    ensures t.taken <= |s|
    decreases |s|, 1
  {
    if r.state == AtEnd then Trace(r, "", 0, Complete)
    else if s == "" then Trace(r, "", 0, More)
    else RunFrom(parse, r, s)
  }

  /** Kept apart from Run so that the verifier does not unfold a step in every proof. */
  function RunFrom(parse: HeadParser, r: Resp, s: string): (t: Trace)
    requires Ok(r) && r.state != AtEnd && s != ""
    ensures t.result == More ==> Ok(t.r) && t.r.state != AtEnd && t.taken == |s|
    ensures t.result == Complete ==> Ok(t.r) && t.r.state == AtEnd
    ensures t.taken <= |s|
    decreases |s|, 0
  {
    var e := Step(parse, r, s[0]);
    if e.result == More then Prefixed(e.got, 1, Run(parse, e.r, s[1..]))
    else Trace(e.r, e.got, 1, e.result)
  }

  ghost predicate Look(k: int, r: Resp, c: char) { true }

  ghost predicate Mark(k: int, s: string) { true }

  /** e is the step that c makes from r. */
  ghost predicate Makes(parse: HeadParser, r: Resp, c: char, e: Event) {
    forall k {:trigger Look(k, r, c)} :: Look(k, r, c) ==>
      Ok(r) && r.state != AtEnd && e == Step(parse, r, c)
  }

  lemma RunStep(parse: HeadParser, r: Resp, s: string, e: Event)
    requires s != "" && Makes(parse, r, s[0], e)
    ensures Ok(r) && r.state != AtEnd && (e.result == More ==> Ok(e.r) && e.r.state != AtEnd)
    ensures Run(parse, r, s)
         == if e.result == More then Prefixed(e.got, 1, Run(parse, e.r, s[1..]))
            else Trace(e.r, e.got, 1, e.result)
  {
    assert Look(0, r, s[0]);
    assert Run(parse, r, s) == RunFrom(parse, r, s);
  }

  function Prefixed(got: string, n: nat, t: Trace): Trace {
    Trace(t.r, got + t.body, n + t.taken, t.result)
  }

  /** One run after another, if the first did not end the message. */
  function Then(parse: HeadParser, t: Trace, s: string): Trace
    requires Ok(t.r) || t.result != More
  {
    if t.result == More then Prefixed(t.body, t.taken, Run(parse, t.r, s)) else t
  }

  /** A response cut at any byte is parsed as if it had come in one piece. */
  lemma {:induction false} SplitAnywhere(parse: HeadParser, r: Resp, a: string, b: string)
    requires Ok(r)
    ensures Run(parse, r, a + b) == Then(parse, Run(parse, r, a), b)
    decreases |a|
  {
    if a == "" {
      assert a + b == b;
      assert Prefixed("", 0, Run(parse, r, b)) == Run(parse, r, b);
    } else if r.state != AtEnd {
      var e := Step(parse, r, a[0]);
      assert Makes(parse, r, a[0], e);
      assert (a + b)[0] == a[0] && (a + b)[1..] == a[1..] + b;
      RunStep(parse, r, a, e);
      RunStep(parse, r, a + b, e);
      if e.result == More {
        SplitAnywhere(parse, e.r, a[1..], b);
        var t := Run(parse, e.r, a[1..]);
        if t.result == More {
          PrefixedTwice(e.got, 1, t.body, t.taken, Run(parse, t.r, b));
        }
      }
    }
  }

  lemma PrefixedTwice(g: string, m: nat, h: string, n: nat, t: Trace)
    ensures Prefixed(g, m, Prefixed(h, n, t)) == Prefixed(g + h, m + n, t)
  {
    assert g + (h + t.body) == g + h + t.body;
  }
}
