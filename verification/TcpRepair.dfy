/** Loss is repaired: when the retransmission timer fires, the segment it sends and the answer to it are enough
    for the sender to go on. */
module TcpRepair {
  import opened Common
  import opened SeqNum
  import opened TcpSender
  import opened TcpReceiver
  import opened TcpSteps
  import opened TcpConn
  import opened TcpLink

  /** As much of the stream as has been sent at least once. */
  ghost function SentOf(o: Sent): Bytes {
    if o.max < 0 then [] else if o.max > |o.stream| then o.stream else o.stream[..o.max]
  }

  ghost function SentBy(x: Conn): Peer
    reads x
  {
    Peer(x.iss, SentOf(x.o), x.snd.finSeqValid)
  }

  /** Something sent is unacknowledged, and the timer for it has run out, not for the last time. */
  ghost predicate Overdue(v: View, now: nat) {
    && Live(v.st) && 0 <= v.o.una < v.o.max && v.snd.retxAt != 0 && now >= v.snd.retxAt && !GivesUp(v.st, v.snd)
  }

  /** The segment starts with the first unacknowledged position, and has been counted as sent. */
  ghost predicate Restarts(p: Packet, v: View) {
    && p.off == v.o.una && p.seg.hasAck && p.ack == v.q.pos && !p.seg.syn && SegLen(p.seg) > 0
    && p.off + SegLen(p.seg) <= v.o.max
  }

  lemma FirstSegment(st: State, s: Sender, o: Sent, mss: nat, now: nat, st': State, s': Sender, o': Sent,
                     segs: seq<Segment>, offs: seq<int>)
    requires Sends(st, s, o, mss, false, now, st', s', o', segs, offs) && Sending(st) && mss > 0
    requires 0 <= o.nxt == o.una < o.max && o.una <= |o.stream|
    requires o.una == |o.stream| ==> s.finQueued && !s.finSent
    ensures segs != [] && |offs| == |segs| && offs[0] == o.una && (segs[0].data != [] || segs[0].fin)
    ensures o.una + |segs[0].data| + (if segs[0].fin then 1 else 0) <= o'.max
    ensures o'.una == o.una && o'.stream == o.stream && o'.max >= o.max && (st' == st || st' == Closes(st))
    ensures s.finSeqValid ==> s'.finSeqValid
  {
    assert SendsKey(0, s, s', segs, offs);
    var f := Filled(o, s.wnd, mss);
    var k :| 0 <= k <= |segs| && Tiles(segs[..k], offs[..k], o.nxt, f.nxt, mss)
             && TailOk(s, f, false, k == 0, segs[k..], offs[k..]);
    if k > 0 {
      assert Tile(segs[..k], offs[..k], f.nxt, mss, 0);
      TilesEnd(segs[..k], offs[..k], o.nxt, f.nxt, mss, 0);
    }
  }

  /** The timer sends it, and changes nothing else that the peer sees. */
  lemma TickResends(v: View, code: nat, now: nat, v': View, ps: seq<Packet>, iss: nat)
    requires Ticked(v, code, now, v', ps) && Overdue(v, now) && SndOk(v.st, v.snd, v.o, iss) && v.mss > 0
    requires forall p <- ps :: p.seg.syn ==> p.off == -1
    ensures ps != [] && Restarts(ps[0], v') && Live(v'.st) && !Handshake(v'.st)
    ensures v'.o.una == v.o.una && v'.o.stream == v.o.stream && v'.o.max >= v.o.max && v'.q == v.q && v'.rcv == v.rcv
    ensures v.snd.finSeqValid ==> v'.snd.finSeqValid
  {
    OpenSnd(v.st, v.snd, v.o, iss);
    assert SendsKey(0, v.snd, v'.snd, Segs(ps), Offs(ps));
    var s, o := Restarted(v.snd), v.o.(nxt := v.o.una);
    FirstSegment(v.st, s, o, v.mss, now, v'.st, v'.snd, v'.o, Segs(ps), Offs(ps));
    assert Segs(ps)[0] == ps[0].seg && Offs(ps)[0] == ps[0].off && ps[0] in ps;
  }

  /** What a peer has received of what was sent is near what is sent next. */
  lemma PositionsNear(st: State, s: Sender, o: Sent, iss: nat, r: Receiver, q: Rcvd, w: Peer)
    requires SndOk(st, s, o, iss) && Sound(r, q, w) && o.una <= q.pos && w.stream <= o.stream
    ensures o.una <= q.pos <= |w.stream| + 1 && 0 <= o.max - o.una <= SNDBUF + 2 && |o.stream| - o.una <= SNDBUF + 1
  {
    OpenSnd(st, s, o, iss);
    Pointers(s, o, iss);
    assert RcvKey(0, r, q, w);
  }

  /** The receiver gets further than una, or is there already; and it says so, unless its own end was
      acknowledged with that. */
  lemma Answers(v: View, p: Packet, v': View, ps: seq<Packet>, w: Peer)
    requires Effect(v, p.seg, p.off, p.ack, v', ps) && Live(v.st) && v.st != SynSent
    requires RcvOk(v.st, v.rcv, v.q, v.irs, w) && RcvOk(v'.st, v'.rcv, v'.q, v'.irs, w) && 0 <= v.q.pos <= v'.q.pos
    requires SegOk(p.seg, p.off, w.isn, w.stream, w.fin) && p.seg.hasAck && !p.seg.syn && SegLen(p.seg) > 0
    requires p.off <= v.q.pos && Fresh(p.off, v.q.pos) && (Window(v.rcv) > 0 || p.off < v.q.pos)
    requires if v.st == SynRcvd then p.ack == 0 && p.off == v.q.pos else v.o.una >= 0
    ensures v'.q.pos > p.off && if v.st == SynRcvd then v'.st != SynRcvd else v'.o.una >= 0
    ensures v'.st == Closed ==> v.st == LastAck
    ensures v'.st != Closed ==> ps != [] && ps[|ps| - 1].seg.hasAck && ps[|ps| - 1].ack == v'.q.pos
    ensures v'.st != Closed && v.o.una <= v.o.nxt ==> v'.o.una <= ps[|ps| - 1].off
  {
    assert RcvKey(0, v.rcv, v.q, w) && RcvKey(0, v'.rcv, v'.q, w);
    WindowTest(v.rcv, p.seg, w.isn, p.off, v.q.pos);
    assert Accepts(Opened(v).st) <==> !FinSeen(v.st);
  }

  /** Two ends: each has received of the other no more than has been sent, and at least what is acknowledged. */
  ghost predicate Linked(x: Conn, y: Conn)
    reads x, y
  {
    x != y && x.Valid(y.Me()) && y.Valid(SentBy(x)) && x.o.una <= y.q.pos && y.o.una <= x.q.pos
  }

  /** The timer fires. */
  method Resend(x: Conn, y: Conn, now: nat, linkUp: bool) returns (segs: seq<Segment>, ghost p: Packet)
    requires Linked(x, y) && Overdue(x.Look(), now)
    modifies x
    ensures Linked(x, y) && Live(x.st) && !Handshake(x.st) && x.Me() == old(x.Me()) && x.o.una == old(x.o.una)
    ensures segs != [] && segs[0] == p.seg && Restarts(p, x.Look()) && PacketOk(p, SentBy(x), x.irs, x.q.pos)
  {
    ghost var v, w := x.Look(), SentBy(x);
    OpenSnd(x.st, x.snd, x.o, x.iss);
    ghost var ps;
    segs, ps := x.Tick(now, linkUp, y.Me());
    forall p <- ps ensures p.seg.syn ==> p.off == -1 {
      assert PacketOk(p, x.Me(), x.irs, x.q.pos);
    }
    TickResends(v, TimeoutCode(v.st, linkUp), now, x.Look(), ps, x.iss);
    p := ps[0];
    PacketSent(p, x.st, x.snd, x.o, x.iss, x.irs, x.q.pos);
    SentMore(v.st, v.snd, v.o, x.st, x.snd, x.o, x.iss);
    OtherGrown(y, w, SentBy(x));
  }

  /** A segment that ends where it was counted as sent is one of what has been sent. */
  lemma PacketSent(p: Packet, st: State, s: Sender, o: Sent, iss: nat, irs: nat, pos: int)
    requires PacketOk(p, Peer(iss, o.stream, s.finQueued), irs, pos) && SndOk(st, s, o, iss)
    requires !p.seg.syn && SegLen(p.seg) > 0 && p.off + SegLen(p.seg) <= o.max
    ensures PacketOk(p, Peer(iss, SentOf(o), s.finSeqValid), irs, pos)
  {
    OpenSnd(st, s, o, iss);
    var n := p.off + |p.seg.data|;
    assert p.seg.data != [] ==> SentOf(o)[p.off..n] == o.stream[p.off..n];
  }

  lemma SentMore(st: State, s: Sender, o: Sent, st': State, s': Sender, o': Sent, iss: nat)
    requires SndOk(st, s, o, iss) && SndOk(st', s', o', iss) && o'.stream == o.stream && o'.max >= o.max
    requires s.finSeqValid ==> s'.finSeqValid
    ensures Grown(Peer(iss, SentOf(o), s.finSeqValid), Peer(iss, SentOf(o'), s'.finSeqValid))
  {
    OpenSnd(st, s, o, iss);
    OpenSnd(st', s', o', iss);
  }

  /** The segment arrives. */
  method Respond(x: Conn, y: Conn, g: Segment, now: nat, ghost p: Packet) returns (segs: seq<Segment>, ghost r: Packet)
    requires Linked(x, y) && Live(x.st) && !Handshake(x.st) && Live(y.st)
    requires g == p.seg && Restarts(p, x.Look()) && PacketOk(p, SentBy(x), x.irs, x.q.pos)
    requires (Window(y.rcv) > 0 || x.o.una < y.q.pos) && (y.st == SynRcvd ==> y.q.pos == 0)
    modifies y
    ensures Linked(x, y) && y.Me() == old(y.Me()) && y.q.pos > x.o.una
    ensures y.st == Closed ==> old(y.st) == LastAck && y.rcv.finReceived
    ensures y.st != Closed ==>
              && segs != [] && segs[|segs| - 1] == r.seg && r.seg.hasAck && !r.seg.syn && r.ack == y.q.pos
              && x.Young(r) && PacketOk(r, y.Me(), x.iss, y.q.pos)
  {
    ghost var v, w, ps := y.Look(), SentBy(x), [];
    Reaches(x, y, p);
    assert RcvKey(0, y.rcv, y.q, w);
    assert y.o.una <= y.o.nxt && (y.st != SynRcvd ==> y.o.una >= 0) by {
      OpenSnd(y.st, y.snd, y.o, y.iss);
    }
    segs, ps := y.Input(g, now, w, p.off, p.ack);
    Answers(v, p, y.Look(), ps, w);
    if y.st != Closed {
      r := ps[|ps| - 1];
      AnswerYoung(x, y, r);
      assert y.o.una >= 0 by {
        OpenSnd(y.st, y.snd, y.o, y.iss);
      }
    } else {
      r := p;
      assert RcvKey(0, y.rcv, y.q, w);
    }
  }

  /** It is in time, and acknowledges no more than there is. */
  lemma Reaches(x: Conn, y: Conn, p: Packet)
    requires Linked(x, y) && Live(x.st) && !Handshake(x.st) && Live(y.st)
    requires Restarts(p, x.Look()) && PacketOk(p, SentBy(x), x.irs, x.q.pos)
    ensures y.Timely(p.seg, SentBy(x), p.off, p.ack) && Fresh(p.off, y.q.pos) && y.st != SynSent
    ensures y.st == SynRcvd && y.q.pos == 0 ==> p.ack == 0 && p.off == 0
  {
    OpenSnd(x.st, x.snd, x.o, x.iss);
    OpenSnd(y.st, y.snd, y.o, y.iss);
    PositionsNear(x.st, x.snd, x.o, x.iss, y.rcv, y.q, SentBy(x));
    PositionsNear(y.st, y.snd, y.o, y.iss, x.rcv, x.q, y.Me());
    assert RcvKey(0, x.rcv, x.q, y.Me());
  }

  /** So is the answer. */
  lemma AnswerYoung(x: Conn, y: Conn, r: Packet)
    requires Linked(x, y) && Live(x.st) && !Handshake(x.st) && Live(y.st)
    requires PacketOk(r, y.Me(), y.irs, y.q.pos) && y.o.una <= r.off && r.ack == y.q.pos
    ensures x.Young(r)
  {
    PositionsNear(x.st, x.snd, x.o, x.iss, y.rcv, y.q, SentBy(x));
    PositionsNear(y.st, y.snd, y.o, y.iss, x.rcv, x.q, y.Me());
  }

  /** The answer arrives. */
  method Proceed(x: Conn, y: Conn, g: Segment, now: nat, ghost r: Packet)
    requires Linked(x, y) && Live(x.st) && !Handshake(x.st) && Live(y.st) && y.q.pos > x.o.una
    requires g == r.seg && r.seg.hasAck && !r.seg.syn && r.ack == y.q.pos && x.Young(r)
    requires PacketOk(r, y.Me(), x.iss, y.q.pos)
    modifies x
    ensures x.Valid(y.Me()) && x.Me() == old(x.Me()) && x.o.una == y.q.pos
  {
    OpenSnd(x.st, x.snd, x.o, x.iss);
    assert RcvKey(0, y.rcv, y.q, SentBy(x));
    var segs, ps := x.Input(g, now, y.Me(), r.off, r.ack);
  }

  /** One timeout and one round trip repair a loss.  Whatever else was lost on the way before: if the segment that
      the timer sends arrives, and so does what is sent in answer last, then the sender knows of more than it did
      (all that the receiver has), provided that the receiver has room for it.  Only a receiver that was waiting
      for nothing but the end of its own stream may go without an answer; it has everything. */
  method Repair(x: Conn, y: Conn, now: nat, linkUp: bool)
    requires Linked(x, y) && Overdue(x.Look(), now) && Live(y.st)
    requires (Window(y.rcv) > 0 || x.o.una < y.q.pos) && (y.st == SynRcvd ==> y.q.pos == 0)
    modifies x, y
    ensures x.Me() == old(x.Me()) && y.Me() == old(y.Me()) && x.Valid(y.Me()) && y.q.pos > old(x.o.una)
    ensures if y.st == Closed then old(y.st) == LastAck && y.rcv.finReceived else x.o.una == y.q.pos
  {
    var segs, p := Resend(x, y, now, linkUp);
    var answer, r := Respond(x, y, segs[0], now, p);
    if y.st != Closed {
      Proceed(x, y, answer[|answer| - 1], now, r);
    }
  }

  // ---- the resend for repeated acknowledgements ----

  /** It takes as much of the buffer as a segment holds, sent before or not.  The acknowledgement of all of it counts
      if and only if no more than that had been sent; otherwise it is ignored, and nothing is released. */
  lemma ResendAckedIff(s: Sender, o: Sent, mss: nat, segs: seq<Segment>, offs: seq<int>, wnd: nat, pure: bool, now: nat,
                       s': Sender, o': Sent, segs': seq<Segment>, offs': seq<int>)
    requires Resent(segs, offs, o, mss) && 0 <= o.una < o.max && o.una < |o.stream| && mss > 0
    requires AckDone(s, o, o.una + |segs[0].data|, wnd, pure, now, mss, s', o', segs', offs')
    ensures if Min(|o.stream| - o.una, mss) <= o.max - o.una then o'.una == o.una + |segs[0].data|
            else s' == s.(wnd := wnd) && o' == o
  {
    assert AckKey(0, s, s', o.una + |segs[0].data|);
  }

  /** A connection that has written 1100 bytes and was let to send 100 of them, before the third repetition. */
  function Behind(): (Sender, Sent) {
    (Sender(1, 101, 101, 100, seq(1100, _ => 0), 1, false, false, false, false, 0, 1000, 0, 1, 2, 0, false),
     Sent(seq(1100, _ => 0), 0, 100, 100, 0))
  }

  /** All of it goes out, past the window of 100; if it is received, the acknowledgement is of no use. */
  lemma ResendAhead(now: nat, s: Sender, o: Sent, segs: seq<Segment>, offs: seq<int>, s': Sender, o': Sent,
                    segs': seq<Segment>, offs': seq<int>)
    requires AckDone(Behind().0, Behind().1, 0, 100, true, now, 1460, s, o, segs, offs)
    requires AckDone(s, o, 1100, 31668, true, now, 1460, s', o', segs', offs')
    ensures SndOk(Established, Behind().0, Behind().1, 0)
    ensures |segs| == 1 && |segs[0].data| == 1100 && o'.una == 0 && segs' == []
  {
    var b, c := Behind().0, Behind().1;
    assert AckKey(0, b, s, 0) && AckKey(0, s, s', 1100);
    assert SndInv(b, c, 0) by {
      assert At(0, 0) == 1 && At(0, 100) == 101 && c.stream[0..] == b.buf;
    }
  }
}
