/** Responses that arrive cut into pieces. */
module HttpMessages {
  import opened Common
  import opened HttpSteps
  import opened HttpFeed
  import opened HttpChunked

  /** Feeding the first n pieces from r0 gave got, r and res, with total the sum of the counts returned.
      An error returns a count of 0, so the bytes before it in its own piece are not counted. */
  ghost predicate Fed(parse: HeadParser, r0: Resp, pieces: seq<string>, n: nat, got: string, r: Resp,
                      total: nat, res: Result) {
    forall k {:trigger Mark(k, got)} :: Mark(k, got) ==>
      && Ok(r0) && n <= |pieces| && (res == More ==> Ok(r))
      && var t := Run(parse, r0, Flatten(pieces[..n]));
         && t.r == r && t.body == got && t.result == res
         && (!res.Failed? ==> total == t.taken)
         && (res.Failed? ==> n > 0 && total == |Flatten(pieces[..n - 1])| < t.taken <= |Flatten(pieces[..n])|)
  }

  lemma FedNothing(parse: HeadParser, r0: Resp, pieces: seq<string>)
    requires Ok(r0)
    ensures Fed(parse, r0, pieces, 0, "", r0, 0, if r0.state == AtEnd then Complete else More)
  {
  }

  lemma FedNext(parse: HeadParser, r0: Resp, pieces: seq<string>, n: nat, got: string, r: Resp, total: nat,
                t: Trace, used: nat)
    requires Fed(parse, r0, pieces, n, got, r, total, More) && n < |pieces|
    requires Ok(r) && t == Run(parse, r, pieces[n]) && used == if t.result.Failed? then 0 else t.taken
    requires t.result.Failed? ==> t.taken > 0
    ensures Fed(parse, r0, pieces, n + 1, got + t.body, t.r, total + used, t.result)
  {
    assert Mark(0, got);
    SplitAnywhere(parse, r0, Flatten(pieces[..n]), pieces[n]);
    assert pieces[..n + 1][..n] == pieces[..n];
  }

  lemma FailedTakes(parse: HeadParser, r: Resp, s: string)
    requires Ok(r) && Run(parse, r, s).result.Failed?
    ensures Run(parse, r, s).taken > 0
  {
    assert Run(parse, r, s) == RunFrom(parse, r, s);
  }

  /** What was not fed changes nothing. */
  lemma FedEnd(parse: HeadParser, r0: Resp, pieces: seq<string>, n: nat, got: string, r: Resp, total: nat,
               res: Result)
    requires Fed(parse, r0, pieces, n, got, r, total, res) && (n == |pieces| || res != More)
    ensures Ok(r0) && n <= |pieces|
    ensures var t := Run(parse, r0, Flatten(pieces));
            && t.r == r && t.body == got && t.result == res
            && (!res.Failed? ==> total == t.taken)
            && (res.Failed? ==> n > 0 && total == |Flatten(pieces[..n - 1])| < t.taken <= |Flatten(pieces[..n])|)
  {
    assert Mark(0, got);
    FlattenMore(pieces, n);
    var f := Flatten(pieces[..n]);
    var rest := Flatten(pieces)[|f|..];
    assert Flatten(pieces) == f + rest;
    assert n == |pieces| ==> pieces[..n] == pieces;
    SplitAnywhere(parse, r0, f, rest);
  }

  /** A response fed in pieces until it is complete or refused, as its caller does: the pieces make no
      difference to the body, the final state, the result, or the bytes counted of a complete response. */
  method FeedPieces(resp: Response, pieces: seq<string>) returns (total: nat, n: nat, res: Result)
    requires Ok(resp.View())
    modifies resp
    ensures old(resp.body) <= resp.body && n <= |pieces|
    ensures var t := Run(resp.parse, old(resp.View()), Flatten(pieces));
            && resp.View() == t.r && resp.body[|old(resp.body)|..] == t.body && res == t.result
            && (!res.Failed? ==> total == t.taken)
            && (res.Failed? ==> n > 0 && total == |Flatten(pieces[..n - 1])| < t.taken <= |Flatten(pieces[..n])|)
  {
    ghost var r0, was := resp.View(), resp.body;
    total, n, res := 0, 0, if resp.state == AtEnd then Complete else More;
    FedNothing(resp.parse, r0, pieces);
    while n < |pieces| && res == More
      invariant n <= |pieces| && was <= resp.body && (res == More ==> Ok(resp.View()))
      invariant Fed(resp.parse, r0, pieces, n, resp.body[|was|..], resp.View(), total, res)
    {
      ghost var got, b, r := resp.body[|was|..], resp.body, resp.View();
      var used;
      used, res := resp.Feed(pieces[n]);
      assert resp.body[|was|..] == got + resp.body[|b|..];
      if res.Failed? {
        FailedTakes(resp.parse, r, pieces[n]);
      }
      FedNext(resp.parse, r0, pieces, n, got, r, total, Run(resp.parse, r, pieces[n]), used);
      total, n := total + used, n + 1;
    }
    FedEnd(resp.parse, r0, pieces, n, resp.body[|was|..], resp.View(), total, res);
  }

  lemma TwoNewlines(parse: HeadParser)
    requires !parse("\n\n").ok
    ensures var t := Run(parse, INITIAL, "\n\n"); t.result == Failed(Malformed) && t.taken == 2
  {
    var r1 := INITIAL.(head := "\n");
    assert Step(parse, INITIAL, '\n') == Event(r1, "", More);
    assert Step(parse, r1, '\n').result == Failed(Malformed) by {
      assert r1.head + ['\n'] == "\n\n";
    }
    assert Run(parse, INITIAL, "\n\n") == RunFrom(parse, INITIAL, "\n\n");
    assert "\n\n"[1..] == "\n";
    assert Run(parse, r1, "\n") == RunFrom(parse, r1, "\n");
  }

  lemma TwoCuts()
    ensures Flatten(["\n\n"]) == "\n\n" && Flatten(["\n\n"][..0]) == ""
    ensures Flatten(["\n", "\n"]) == "\n\n" && Flatten(["\n", "\n"][..1]) == "\n"
  {
    assert ["\n\n"][..0] == [] && ["\n", "\n"][..1] == ["\n"] && ["\n"][..0] == [];
    assert Flatten(["\n"]) == "\n";
  }

  /** The bytes counted of a response that is refused do depend on the pieces: two line ends that the head
      parser refuses count for nothing in one piece, and for one byte in two. */
  method CountTwoLines(resp: Response, cut: bool) returns (total: nat, res: Result)
    requires resp.View() == INITIAL && !resp.parse("\n\n").ok
    modifies resp
    ensures res == Failed(Malformed) && total == if cut then 1 else 0
  {
    TwoNewlines(resp.parse);
    TwoCuts();
    var pieces := if cut then ["\n", "\n"] else ["\n\n"];
    var n;
    total, n, res := FeedPieces(resp, pieces);
  }

  /** A chunked response cut into any pieces: its chunks come out joined together. */
  method FeedChunked(resp: Response, pieces: seq<string>, ghost h: string, ghost b: Coding, ghost rest: string)
    returns (total: nat, n: nat, res: Result)
    requires resp.View() == INITIAL && resp.body == "" && HeadSection(h) && CodingOk(b)
    requires resp.parse(h).ok && resp.parse(h).fields.chunked
    requires resp.parse(h).fields.status >= 200 && resp.parse(h).fields.status != 204
    requires resp.parse(h).fields.status != 304
    requires Flatten(pieces) == h + Encode(b) + rest
    modifies resp
    ensures res == Complete && resp.body == Body(b.chunks) && total == |h| + |Encode(b)|
    ensures resp.View().fields == resp.parse(h).fields
  {
    ChunkedResponse(resp.parse, h, b, rest);
    total, n, res := FeedPieces(resp, pieces);
    assert resp.body[0..] == resp.body;
  }
}
